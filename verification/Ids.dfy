/** Component ids: names joined by underscores and folded to lower case with ' ', '-' and '.' replaced. */
module Ids {

  function FormatChar(c: char): char {
    if c == ' ' || c == '-' || c == '.' then '_'
    else if 'A' <= c <= 'Z' then (c as int + 32) as char
    else c
  }

  function Format(name: string): (r: string) {
    if name == "" then "" else [FormatChar(name[0])] + Format(name[1..])
  }

  /** `strings.Join(parts, "_")` */
  function Join(parts: seq<string>): string {
    if |parts| == 0 then ""
    else if |parts| == 1 then parts[0]
    else parts[0] + "_" + Join(parts[1..])
  }

  function MakeId(parts: seq<string>): string {
    Format(Join(parts))
  }

  function MakeInputId(parts: seq<string>): string {
    MakeId(["input"] + parts)
  }

  function MakePipelineId(parts: seq<string>): string {
    MakeId(["pipeline"] + parts)
  }

  function MakeOutputId(parts: seq<string>): string {
    MakeId(["output"] + parts)
  }

  const DIGITS := "0123456789"

  /** `strconv.Itoa` on the indices it is given. */
  function Itoa(n: nat): string {
    if n < 10 then [DIGITS[n]] else Itoa(n / 10) + [DIGITS[n % 10]]
  }

  /** Id of the filter `ref` that a pipeline holds at position `index`: formatted once on its own, then again inside. */
  function FilterId(pipeline: string, ref: string, index: nat): string {
    MakePipelineId([pipeline, MakeId([ref, Itoa(index)])])
  }

  /** A token that formatting leaves alone and that holds no separator. */
  predicate Clean(token: string) {
    forall c :: c in token ==> c != '_' && FormatChar(c) == c
  }

  lemma {:induction false} FormatConcat(a: string, b: string)
    ensures Format(a + b) == Format(a) + Format(b)
  {
    if a == "" {
      assert a + b == b;
    } else {
      FormatConcat(a[1..], b);
      assert (a + b)[1..] == a[1..] + b;
    }
  }

  lemma {:induction false} FormatIdempotent(a: string)
    ensures Format(Format(a)) == Format(a)
  {
    if a != "" {
      FormatIdempotent(a[1..]);
    }
  }

  lemma {:induction false} FormatOfClean(a: string)
    requires forall c :: c in a ==> FormatChar(c) == c
    ensures Format(a) == a
  {
    if a != "" {
      FormatOfClean(a[1..]);
    }
  }

  lemma {:induction false} ItoaDigits(n: nat)
    ensures Itoa(n) != "" && forall c :: c in Itoa(n) ==> c in DIGITS
  {
    if n >= 10 {
      ItoaDigits(n / 10);
    }
  }

  lemma ItoaClean(n: nat)
    ensures Clean(Itoa(n)) && '_' !in Itoa(n)
  {
    ItoaDigits(n);
  }

  lemma {:induction false} ItoaInjective(m: nat, n: nat)
    requires Itoa(m) == Itoa(n)
    ensures m == n
  {
    ItoaLength(m);
    ItoaLength(n);
    if m >= 10 {
      ItoaSplit(m);
      ItoaSplit(n);
      ItoaInjective(m / 10, n / 10);
    }
  }

  lemma ItoaLength(n: nat)
    ensures |Itoa(n)| == 1 <==> n < 10
    ensures n < 10 ==> Itoa(n)[0] == DIGITS[n]
  {
    ItoaDigits(n / 10);
  }

  lemma ItoaSplit(n: nat)
    requires n >= 10
    ensures Itoa(n)[..|Itoa(n)| - 1] == Itoa(n / 10) && Itoa(n)[|Itoa(n)| - 1] == DIGITS[n % 10]
  {
  }

  /** The part after the last underscore, and so the part before it, is determined by the whole. */
  lemma LastTokenUnique(a: string, x: string, b: string, y: string)
    requires a + "_" + x == b + "_" + y
    requires '_' !in x && '_' !in y
    ensures a == b && x == y
  {
    var s := a + "_" + x;
    LastUnderscore(a, x);
    LastUnderscore(b, y);
    assert s[|a|] == '_' && s[|b|] == '_';
    assert a == s[..|a|] && b == s[..|b|] && x == s[|a| + 1..] && y == s[|b| + 1..];
  }

  lemma LastUnderscore(a: string, x: string)
    requires '_' !in x
    ensures forall k :: |a| < k < |a + "_" + x| ==> (a + "_" + x)[k] != '_'
  {
    forall k | |a| < k < |a + "_" + x| ensures (a + "_" + x)[k] != '_' {
      assert (a + "_" + x)[k] == x[k - |a| - 1];
    }
  }

  lemma FirstUnderscore(x: string, a: string)
    requires '_' !in x
    ensures forall k :: 0 <= k < |x| ==> (x + "_" + a)[k] != '_'
  {
    forall k | 0 <= k < |x| ensures (x + "_" + a)[k] != '_' {
      assert (x + "_" + a)[k] == x[k];
    }
  }

  lemma FirstTokenUnique(x: string, a: string, y: string, b: string)
    requires x + "_" + a == y + "_" + b
    requires '_' !in x && '_' !in y
    ensures a == b && x == y
  {
    var s := x + "_" + a;
    FirstUnderscore(x, a);
    FirstUnderscore(y, b);
    assert s[|x|] == '_' && s[|y|] == '_';
    assert x == s[..|x|] && y == s[..|y|] && a == s[|x| + 1..] && b == s[|y| + 1..];
  }

  /** Joining is injective on token lists free of the separator. */
  lemma {:induction false} JoinInjective(a: seq<string>, b: seq<string>)
    requires |a| > 0 && |b| > 0
    requires forall t :: t in a || t in b ==> '_' !in t
    requires Join(a) == Join(b)
    ensures a == b
  {
    JoinSeparator(a);
    JoinSeparator(b);
    if |a| == 1 {
      assert a == [a[0]] && b == [b[0]];
    } else {
      FirstTokenUnique(a[0], Join(a[1..]), b[0], Join(b[1..]));
      JoinInjective(a[1..], b[1..]);
      assert a == [a[0]] + a[1..] && b == [b[0]] + b[1..];
    }
  }

  lemma JoinSeparator(a: seq<string>)
    requires |a| > 0
    requires forall t :: t in a ==> '_' !in t
    ensures '_' in Join(a) <==> |a| > 1
  {
    if |a| > 1 {
      assert Join(a)[|a[0]|] == '_';
    }
  }

  lemma {:induction false} JoinClean(parts: seq<string>)
    requires forall t :: t in parts ==> Clean(t)
    ensures MakeId(parts) == Join(parts)
  {
    if |parts| > 1 {
      JoinClean(parts[1..]);
      FormatConcat(parts[0] + "_", Join(parts[1..]));
      FormatConcat(parts[0], "_");
    }
    if |parts| > 0 {
      assert parts[0] in parts;
      FormatOfClean(parts[0]);
    }
  }

  /** On clean tokens the ids are as distinct as the token lists behind them. */
  lemma MakeIdInjective(a: seq<string>, b: seq<string>)
    requires |a| > 0 && |b| > 0
    requires forall t :: t in a || t in b ==> Clean(t)
    ensures MakeId(a) == MakeId(b) <==> a == b
  {
    JoinClean(a);
    JoinClean(b);
    if MakeId(a) == MakeId(b) {
      JoinInjective(a, b);
    }
  }

  lemma FormatPair(x: string, y: string)
    ensures Format(x + "_" + y) == Format(x) + "_" + Format(y)
  {
    FormatConcat(x + "_", y);
    FormatConcat(x, "_");
    FormatOfClean("_");
  }

  lemma MakeIdPair(parts: seq<string>)
    requires |parts| == 2
    ensures MakeId(parts) == Format(parts[0]) + "_" + Format(parts[1])
  {
    assert Join(parts) == parts[0] + "_" + Join(parts[1..]);
    FormatPair(parts[0], Join(parts[1..]));
    assert Join(parts[1..]) == parts[1];
  }

  lemma CleanFormat(t: string)
    requires Clean(t)
    ensures Format(t) == t
  {
    FormatOfClean(t);
  }

  lemma {:induction false} JoinSnoc(parts: seq<string>, y: string)
    requires |parts| > 0
    ensures Join(parts + [y]) == Join(parts) + "_" + y
  {
    if |parts| > 1 {
      JoinSnoc(parts[1..], y);
      assert (parts + [y])[1..] == parts[1..] + [y];
    }
  }

  lemma MakeIdSnoc(parts: seq<string>, y: string)
    requires |parts| > 0
    ensures MakeId(parts + [y]) == MakeId(parts) + "_" + Format(y)
  {
    JoinSnoc(parts, y);
    FormatPair(Join(parts), y);
  }

  lemma TagShape(head: string, name: string)
    ensures MakeId([head] + [name]) == Format(head) + "_" + Format(name)
  {
    assert [head] + [name] == [head, name];
    MakeIdPair([head, name]);
  }

  lemma MakeIdTriple(parts: seq<string>)
    requires |parts| == 3
    ensures MakeId(parts) == Format(parts[0]) + "_" + (Format(parts[1]) + "_" + Format(parts[2]))
  {
    FormatPair(parts[0], Join(parts[1..]));
    MakeIdPair(parts[1..]);
  }

  lemma FilterIdShape(pipeline: string, ref: string, index: nat)
    ensures FilterId(pipeline, ref, index) == Format("pipeline") + "_" + Format(pipeline + "_" + ref) + "_" + Itoa(index)
  {
    FilterIdUnder("pipeline", pipeline, ref, index);
  }

  lemma FilterIdUnder(head: string, pipeline: string, ref: string, index: nat)
    ensures MakeId([head] + [pipeline, MakeId([ref, Itoa(index)])])
         == Format(head) + "_" + Format(pipeline + "_" + ref) + "_" + Itoa(index)
  {
    var n := Itoa(index);
    var inner := MakeId([ref, n]);
    MakeIdTriple([head] + [pipeline, inner]);
    FormattedRef(ref, index);
    FormatPair(pipeline, ref);
    FilterIdAssociate(Format(head), Format(pipeline), Format(ref), n);
  }

  lemma FormattedRef(ref: string, index: nat)
    ensures Format(MakeId([ref, Itoa(index)])) == Format(ref) + "_" + Itoa(index)
  {
    var n := Itoa(index);
    FormatIdempotent(Join([ref, n]));
    MakeIdPair([ref, n]);
    ItoaClean(index);
    FormatOfClean(n);
  }

  lemma FilterIdAssociate(a: string, b: string, c: string, d: string)
    ensures a + "_" + (b + "_" + (c + "_" + d)) == a + "_" + (b + "_" + c) + "_" + d
  {
  }

  /** Two filter ids coincide exactly when the positions agree and the two joined name pairs format alike. */
  lemma FilterIdsEqualIff(p: string, f: string, i: nat, q: string, g: string, j: nat)
    ensures FilterId(p, f, i) == FilterId(q, g, j) <==> i == j && Format(p + "_" + f) == Format(q + "_" + g)
  {
    FilterIdShape(p, f, i);
    FilterIdShape(q, g, j);
    ItoaClean(i);
    ItoaClean(j);
    var head := Format("pipeline") + "_";
    var x, y := Format(p + "_" + f), Format(q + "_" + g);
    if FilterId(p, f, i) == FilterId(q, g, j) {
      LastTokenUnique(head + x, Itoa(i), head + y, Itoa(j));
      ItoaInjective(i, j);
      assert (head + x)[|head|..] == x && (head + y)[|head|..] == y;
    }
  }

  /** Whatever the names, the filters of one pipeline get pairwise distinct ids. */
  lemma FilterIdsDistinctWithinPipeline(p: string, f: string, i: nat, g: string, j: nat)
    requires i != j
    ensures FilterId(p, f, i) != FilterId(p, g, j)
  {
    FilterIdsEqualIff(p, f, i, p, g, j);
  }

  /** Across pipelines distinctness fails: `aa` with filter `bb-cc` and `aa-bb` with filter `cc` share an id. */
  lemma FilterIdsCollideAcrossPipelines(index: nat)
    ensures FilterId("aa", "bb-cc", index) == FilterId("aa-bb", "cc", index)
  {
    FilterIdsEqualIff("aa", "bb-cc", index, "aa-bb", "cc", index);
    DashOrUnderscore("aa", "bb", "cc");
    assert "aa" + "_" + "bb-cc" == "aa" + "_" + "bb" + "-" + "cc";
    assert "aa-bb" + "_" + "cc" == "aa" + "-" + "bb" + "_" + "cc";
  }

  lemma DashOrUnderscore(a: string, b: string, c: string)
    ensures Format(a + "_" + b + "-" + c) == Format(a + "-" + b + "_" + c)
  {
    FormatConcat(a + "_" + b + "-", c);
    FormatConcat(a + "_" + b, "-");
    FormatConcat(a + "_", b);
    FormatConcat(a, "_");
    FormatConcat(a + "-" + b + "_", c);
    FormatConcat(a + "-" + b, "_");
    FormatConcat(a + "-", b);
    FormatConcat(a, "-");
    FormatOfClean("_");
    assert Format("-") == "_";
  }
}
