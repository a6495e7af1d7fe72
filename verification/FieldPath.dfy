/**
 Field paths such as `.kubernetes.labels."bar/baz.test"`: the grammar that validation accepts, the tokenizer that
 should invert it, and the quoting of the resulting segments.
 */
module FieldPath {

  // -------- the grammar

  datatype Segment = Plain(text: string) | Quoted(text: string)

  predicate IsWord(c: char) {
    'a' <= c <= 'z' || 'A' <= c <= 'Z' || '0' <= c <= '9' || c == '_'
  }

  predicate IsSegment(s: Segment) {
    s.text != "" && (if s.Plain? then forall c :: c in s.text ==> IsWord(c) else '"' !in s.text)
  }

  predicate AreSegments(segments: seq<Segment>) {
    forall s :: s in segments ==> IsSegment(s)
  }

  function Open(s: string): string { "\"" + s }

  function Close(s: string): string { s + "\"" }

  function Raw(s: Segment): string {
    match s
    case Plain(text) => text
    case Quoted(text) => Close(Open(text))
  }

  function Raws(segments: seq<Segment>): (r: seq<string>)
    ensures |r| == |segments| && forall k :: 0 <= k < |r| ==> r[k] == Raw(segments[k])
  {
    seq(|segments|, k requires 0 <= k < |segments| => Raw(segments[k]))
  }

  function Render(segments: seq<Segment>): string {
    if segments == [] then "" else "." + Raw(segments[0]) + Render(segments[1..])
  }

  /** The text up to a character it does not contain is determined by the whole. */
  lemma CutUnique(a: string, b: string, x: string, y: string, cut: char)
    requires a + x == b + y && cut !in a && cut !in b
    requires (x != "" ==> x[0] == cut) && (y != "" ==> y[0] == cut)
    ensures a == b && x == y
  {
    CutNotEarlier(a, b, x, y, cut);
    CutNotEarlier(b, a, y, x, cut);
    assert a == (a + x)[..|a|] && b == (b + y)[..|b|];
    assert x == (a + x)[|a|..] && y == (b + y)[|b|..];
  }

  lemma CutNotEarlier(a: string, b: string, x: string, y: string, cut: char)
    requires a + x == b + y && cut !in b
    requires x != "" ==> x[0] == cut
    ensures |a| >= |b|
  {
    var whole := b + y;
    assert forall k :: 0 <= k < |b| ==> whole[k] == b[k] != cut;
    assert x != "" ==> (a + x)[|a|] == cut;
    assert |whole| == |a| + |x|;
  }

  lemma RenderCons(segments: seq<Segment>)
    requires segments != []
    ensures Render(segments) == "." + (Raw(segments[0]) + Render(segments[1..]))
  {
    hide Raw;
  }

  lemma RenderStart(segments: seq<Segment>)
    ensures Render(segments) != "" ==> Render(segments)[0] == '.'
    ensures Render(segments) == "" <==> segments == []
  {
    hide Raw;
  }

  lemma SameTail(a: string, b: string)
    requires "." + a == "." + b
    ensures a == b
  {
    assert ("." + a)[1..] == a && ("." + b)[1..] == b;
  }

  /** The grammar is unambiguous: a path determines its segments. */
  lemma {:induction false} RenderInjective(a: seq<Segment>, b: seq<Segment>)
    requires AreSegments(a) && AreSegments(b) && Render(a) == Render(b)
    ensures a == b
  {
    RenderStart(a);
    RenderStart(b);
    if a != [] {
      RenderCons(a);
      RenderCons(b);
      hide Render, Raw, IsSegment;
      assert a[0] in a && b[0] in b;
      RenderStart(a[1..]);
      RenderStart(b[1..]);
      SameTail(Raw(a[0]) + Render(a[1..]), Raw(b[0]) + Render(b[1..]));
      SegmentUnique(a[0], b[0], Render(a[1..]), Render(b[1..]));
      RenderInjective(a[1..], b[1..]);
      assert a == [a[0]] + a[1..] && b == [b[0]] + b[1..];
    }
  }

  lemma RawStart(s: Segment)
    requires IsSegment(s)
    ensures Raw(s) != "" && (Raw(s)[0] == '"' <==> s.Quoted?)
  {
    assert s.text[0] in s.text;
  }

  lemma QuotedUnique(s: string, t: string, x: string, y: string)
    requires '"' !in s && '"' !in t && "\"" + s + "\"" + x == "\"" + t + "\"" + y
    ensures s == t && x == y
  {
    var whole := "\"" + s + "\"" + x;
    assert whole[1..] == s + ("\"" + x);
    assert ("\"" + t + "\"" + y)[1..] == t + ("\"" + y);
    CutUnique(s, t, "\"" + x, "\"" + y, '"');
    assert ("\"" + x)[1..] == x && ("\"" + y)[1..] == y;
  }

  lemma SegmentUnique(s: Segment, t: Segment, x: string, y: string)
    requires IsSegment(s) && IsSegment(t) && Raw(s) + x == Raw(t) + y
    requires (x != "" ==> x[0] == '.') && (y != "" ==> y[0] == '.')
    ensures s == t && x == y
  {
    RawStart(s);
    RawStart(t);
    assert (Raw(s) + x)[0] == Raw(s)[0] && (Raw(t) + y)[0] == Raw(t)[0];
    assert s.Plain? <==> t.Plain?;
    if s.Plain? {
      CutUnique(s.text, t.text, x, y, '.');
    } else {
      QuotedUnique(s.text, t.text, x, y);
    }
  }

  // -------- strings.Split(path, ".")

  function SplitDots(s: string): (parts: seq<string>)
    ensures |parts| > 0
  {
    if s == "" then [""]
    else
      var rest := SplitDots(s[1..]);
      if s[0] == '.' then [""] + rest else [[s[0]] + rest[0]] + rest[1..]
  }

  function JoinDots(parts: seq<string>): string
    requires |parts| > 0
  {
    if |parts| == 1 then parts[0] else JoinDots(parts[..|parts| - 1]) + "." + parts[|parts| - 1]
  }

  lemma {:induction false} SplitConcat(a: string, b: string)
    ensures SplitDots(a + "." + b) == SplitDots(a) + SplitDots(b)
  {
    if a == "" {
      assert (a + "." + b)[1..] == b;
    } else {
      assert (a + "." + b)[1..] == a[1..] + "." + b;
      SplitConcat(a[1..], b);
    }
  }

  lemma {:induction false} SplitNoDot(s: string)
    requires '.' !in s
    ensures SplitDots(s) == [s]
  {
    if s != "" {
      SplitNoDot(s[1..]);
      assert [s[0]] + s[1..] == s;
    }
  }

  lemma {:induction false} SplitSuffix(s: string, c: char)
    requires c != '.'
    ensures var parts := SplitDots(s); SplitDots(s + [c]) == parts[..|parts| - 1] + [parts[|parts| - 1] + [c]]
  {
    if s == "" {
      assert s + [c] == [c];
      SplitNoDot([c]);
    } else {
      assert (s + [c])[1..] == s[1..] + [c];
      SplitSuffix(s[1..], c);
      SplitCons(s);
      SplitCons(s + [c]);
      var rest := SplitDots(s[1..]);
      assert [s[0]] + (rest[0] + [c]) == [s[0]] + rest[0] + [c];
    }
  }

  lemma SplitCons(s: string)
    requires s != ""
    ensures SplitDots(s) == (var rest := SplitDots(s[1..]); if s[0] == '.' then [""] + rest else [[s[0]] + rest[0]] + rest[1..])
  {
  }

  lemma {:induction false} SplitChars(s: string)
    ensures forall p, c :: p in SplitDots(s) && c in p ==> c in s && c != '.'
  {
    if s != "" {
      SplitChars(s[1..]);
      var rest := SplitDots(s[1..]);
      assert forall p :: p in SplitDots(s) ==> p in rest || p == "" || p == [s[0]] + rest[0];
    }
  }

  lemma {:induction false} JoinPrepend(c: string, parts: seq<string>)
    requires |parts| > 0
    ensures JoinDots([c + parts[0]] + parts[1..]) == c + JoinDots(parts)
  {
    var long := [c + parts[0]] + parts[1..];
    if |parts| > 1 {
      assert long[..|long| - 1] == [c + parts[0]] + parts[..|parts| - 1][1..];
      JoinPrepend(c, parts[..|parts| - 1]);
    }
  }

  lemma {:induction false} JoinEmptyFirst(parts: seq<string>)
    requires |parts| > 0
    ensures JoinDots([""] + parts) == "." + JoinDots(parts)
  {
    var long := [""] + parts;
    if |parts| > 1 {
      assert long[..|long| - 1] == [""] + parts[..|parts| - 1];
      JoinEmptyFirst(parts[..|parts| - 1]);
    }
  }

  lemma {:induction false} JoinOfSplit(s: string)
    ensures JoinDots(SplitDots(s)) == s
  {
    if s != "" {
      JoinOfSplit(s[1..]);
      var rest := SplitDots(s[1..]);
      if s[0] == '.' {
        JoinEmptyFirst(rest);
      } else {
        JoinPrepend([s[0]], rest);
      }
    }
  }

  // -------- SplitPath

  datatype State = State(result: seq<string>, current: string)

  predicate Opens(part: string) {
    part != "" && part[0] == '"'
  }

  predicate Closes(part: string) {
    part != "" && part[|part| - 1] == '"'
  }

  function Step(s: State, part: string): State {
    if part == "" then s
    else if Opens(part) && Closes(part) then s.(result := s.result + [part])
    else if Opens(part) then s.(current := part)
    else if Closes(part) then State(s.result + [s.current + "." + part], "")
    else if s.current != "" then s.(current := s.current + "." + part)
    else s.(result := s.result + [part])
  }

  function Steps(s: State, parts: seq<string>): State {
    if parts == [] then s else Step(Steps(s, parts[..|parts| - 1]), parts[|parts| - 1])
  }

  method SplitPath(path: string) returns (result: seq<string>)
    ensures result == Steps(State([], ""), SplitDots(path)).result
    ensures forall segments :: segments != [] && AreSegments(segments) && Render(segments) == path ==>
                                 (result == Raws(segments) <==> AllTidy(segments))
  {
    result := [];
    var segments := SplitDots(path);
    var currSegment := "";
    for i := 0 to |segments|
      invariant State(result, currSegment) == Steps(State([], ""), segments[..i])
    {
      var part := segments[i];
      assert segments[..i + 1][..i] == segments[..i];
      if part == "" {
        continue;
      } else if Opens(part) && Closes(part) {
        result := result + [part];
      } else if Opens(part) {
        currSegment := part;
      } else if Closes(part) {
        currSegment := currSegment + "." + part;
        result := result + [currSegment];
        currSegment := "";
      } else if currSegment != "" {
        currSegment := currSegment + "." + part;
      } else {
        result := result + [part];
      }
    }
    assert segments[..|segments|] == segments;
    forall rendered | rendered != [] && AreSegments(rendered) && Render(rendered) == path
      ensures result == Raws(rendered) <==> AllTidy(rendered)
    {
      SplitPathRoundTrip(rendered);
    }
  }

  lemma {:induction false} StepsConcat(s: State, a: seq<string>, b: seq<string>)
    ensures Steps(s, a + b) == Steps(Steps(s, a), b)
  {
    if b == [] {
      assert a + b == a;
    } else {
      assert (a + b)[..|a + b| - 1] == a + b[..|b| - 1];
      StepsConcat(s, a, b[..|b| - 1]);
    }
  }

  /** What is split off stays split off. */
  lemma {:induction false} StepsGrow(s: State, parts: seq<string>)
    ensures |s.result| <= |Steps(s, parts).result| && Steps(s, parts).result[..|s.result|] == s.result
  {
    if parts != [] {
      StepsGrow(s, parts[..|parts| - 1]);
    }
  }

  /** A segment whose dots, if it is quoted, all stand between two characters other than dots. */
  predicate Tidy(s: Segment) {
    s.Quoted? ==> "" !in SplitDots(s.text)
  }

  predicate AllTidy(segments: seq<Segment>) {
    forall s :: s in segments ==> Tidy(s)
  }

  /** The parts of a quoted segment once empty ones are skipped. */
  function Glue(parts: seq<string>): string
    requires |parts| > 0
  {
    if |parts| == 1 then parts[0]
    else
      var init := Glue(parts[..|parts| - 1]);
      if parts[|parts| - 1] == "" then init else init + "." + parts[|parts| - 1]
  }

  lemma {:induction false} GlueLength(parts: seq<string>)
    requires |parts| > 0
    ensures |Glue(parts)| <= |JoinDots(parts)|
    ensures "" !in parts[1..] ==> Glue(parts) == JoinDots(parts)
    ensures "" in parts[1..] ==> |Glue(parts)| < |JoinDots(parts)|
  {
    if |parts| > 1 {
      var init := parts[..|parts| - 1];
      GlueLength(init);
      assert parts[1..] == init[1..] + [parts[|parts| - 1]];
    }
  }

  /** The parts that a quoted segment is split into. */
  lemma QuotedParts(text: string)
    ensures var comps, n := SplitDots(text), |SplitDots(text)|;
            SplitDots(Close(Open(text))) ==
            if n == 1 then [Close(Open(comps[0]))] else [Open(comps[0])] + comps[1..n - 1] + [Close(comps[n - 1])]
  {
    var comps := SplitDots(text);
    var n := |comps|;
    SplitOpen(text);
    SplitSuffix(Open(text), '"');
    assert Open(text) + ['"'] == Close(Open(text));
    hide SplitDots, Open, Close;
    EndsClosed([Open(comps[0])] + comps[1..], comps);
  }

  lemma EndsClosed(front: seq<string>, comps: seq<string>)
    requires |comps| > 0 && front == [Open(comps[0])] + comps[1..]
    ensures var n := |comps|;
            front[..n - 1] + [Close(front[n - 1])] ==
            if n == 1 then [Close(Open(comps[0]))] else [Open(comps[0])] + comps[1..n - 1] + [Close(comps[n - 1])]
  {
    hide Open, Close;
  }

  lemma SplitOpen(text: string)
    ensures SplitDots(Open(text)) == [Open(SplitDots(text)[0])] + SplitDots(text)[1..]
  {
    assert Open(text)[1..] == text;
    SplitCons(Open(text));
  }

  /** Inside the quotes: non-empty parts are glued back with dots, empty ones are dropped. */
  lemma {:induction false} MiddleParts(result: seq<string>, comps: seq<string>, m: nat)
    requires 0 < m <= |comps| && forall p :: p in comps ==> '"' !in p
    ensures Steps(State(result, Open(comps[0])), comps[1..m]) == State(result, Open(Glue(comps[..m])))
  {
    if m > 1 {
      MiddleParts(result, comps, m - 1);
      var parts := comps[1..m];
      assert parts[..|parts| - 1] == comps[1..m - 1];
      assert comps[..m][..m - 1] == comps[..m - 1];
      assert comps[m - 1] in comps;
    } else {
      assert comps[1..1] == [];
    }
  }

  lemma OneStep(s: State, part: string)
    ensures Steps(s, [part]) == Step(s, part)
  {
    assert [part][..0] == [];
  }

  /** A segment comes out as it went in exactly when it is tidy; otherwise what comes out in its place is shorter. */
  lemma SegmentSplit(result: seq<string>, s: Segment)
    requires IsSegment(s)
    ensures Tidy(s) ==> Steps(State(result, ""), SplitDots(Raw(s))) == State(result + [Raw(s)], "")
    ensures !Tidy(s) ==> |Steps(State(result, ""), SplitDots(Raw(s))).result| > |result|
    ensures !Tidy(s) ==> |Steps(State(result, ""), SplitDots(Raw(s))).result[|result|]| < |Raw(s)|
  {
    if s.Plain? {
      SplitNoDot(s.text);
      OneStep(State(result, ""), s.text);
      assert s.text[0] in s.text && s.text[|s.text| - 1] in s.text;
    } else {
      QuotedSplit(result, s.text, SplitDots(s.text));
    }
  }

  lemma QuotedSplit(result: seq<string>, text: string, comps: seq<string>)
    requires text != "" && '"' !in text && comps == SplitDots(text)
    ensures var end := Steps(State(result, ""), SplitDots(Close(Open(text))));
            if "" !in comps then end == State(result + [Close(Open(text))], "")
            else |end.result| > |result| && |end.result[|result|]| < |text| + 2
  {
    QuotedParts(text);
    JoinOfSplit(text);
    SplitChars(text);
    hide SplitDots, Steps;
    if |comps| == 1 {
      OneStep(State(result, ""), Close(Open(text)));
    } else {
      hide Open, Close;
      PartsSplit(result, text, comps);
    }
  }

  /** The quoted text `text` arrives in at least two parts. */
  lemma PartsSplit(result: seq<string>, text: string, comps: seq<string>)
    requires |comps| > 1 && JoinDots(comps) == text && forall p :: p in comps ==> '"' !in p
    ensures var end := Steps(State(result, ""), [Open(comps[0])] + comps[1..|comps| - 1] + [Close(comps[|comps| - 1])]);
            if "" !in comps then end == State(result + [Close(Open(text))], "")
            else |end.result| > |result| && |end.result[|result|]| < |text| + 2
  {
    var start, n := State(result, ""), |comps|;
    var middle, last := comps[1..n - 1], Close(comps[n - 1]);
    assert [Open(comps[0])] + middle + [last] == [Open(comps[0])] + (middle + [last]);
    StepsConcat(start, [Open(comps[0])], middle + [last]);
    OneStep(start, Open(comps[0]));
    assert comps[0] in comps && comps[n - 1] in comps;
    if comps[0] == "" {
      LoneQuoteFirst(result, middle + [last]);
      JoinLonger(comps);
    } else {
      StepOpen(result, comps[0]);
      hide Open, Close, Step, Steps;
      StepsConcat(State(result, Open(comps[0])), middle, [last]);
      MiddleParts(result, comps, n - 1);
      OneStep(State(result, Open(Glue(comps[..n - 1]))), last);
      LastPart(result, Glue(comps[..n - 1]), comps[n - 1]);
      GlueAll(comps);
      hide Glue, JoinDots;
    }
  }

  lemma GlueAll(comps: seq<string>)
    requires |comps| > 1 && comps[0] != ""
    ensures "" !in comps ==> Close(Open(Glue(comps[..|comps| - 1])) + "." + comps[|comps| - 1]) == Close(Open(JoinDots(comps)))
    ensures "" in comps && comps[|comps| - 1] != "" ==>
              |Close(Open(Glue(comps[..|comps| - 1])) + "." + comps[|comps| - 1])| < |JoinDots(comps)| + 2
    ensures |JoinDots(comps)| >= 1
  {
    var front := comps[..|comps| - 1];
    GlueLength(front);
    assert comps == [comps[0]] + front[1..] + [comps[|comps| - 1]];
    assert JoinDots(comps) == JoinDots(front) + "." + comps[|comps| - 1];
  }

  lemma JoinLonger(parts: seq<string>)
    requires |parts| > 1
    ensures |JoinDots(parts)| >= 1
  {
  }

  lemma StepOpen(result: seq<string>, c: string)
    requires c != "" && '"' !in c
    ensures Step(State(result, ""), Open(c)) == State(result, Open(c))
  {
    var part := Open(c);
    assert part[|part| - 1] == c[|c| - 1] && c[|c| - 1] in c;
  }

  lemma LoneQuoteFirst(result: seq<string>, rest: seq<string>)
    ensures var end := Steps(Step(State(result, ""), Open("")), rest); |end.result| > |result| && |end.result[|result|]| == 1
  {
    var s := Step(State(result, ""), Open(""));
    assert s.result == result + [Open("")];
    StepsGrow(s, rest);
    assert Steps(s, rest).result[..|s.result|][|result|] == Open("");
  }

  lemma LastPart(result: seq<string>, glued: string, c: string)
    requires '"' !in c
    ensures Step(State(result, Open(glued)), Close(c)) ==
            if c == "" then State(result + [Close(c)], Open(glued)) else State(result + [Close(Open(glued) + "." + c)], "")
    ensures |Close("")| == 1
  {
    var part := Close(c);
    assert part[|part| - 1] == '"';
    if c != "" {
      assert part[0] == c[0] && c[0] in c;
      assert Open(glued) + "." + part == Close(Open(glued) + "." + c);
    } else {
      assert part[0] == '"';
    }
  }

  lemma {:induction false} RenderSplit(segments: seq<Segment>)
    requires segments != []
    ensures SplitDots(Render(segments)) == [""] + SplitAll(segments)
  {
    RenderCons(segments);
    hide Raw;
    var raw, rest := Raw(segments[0]), Render(segments[1..]);
    hide Render;
    SplitConcat("", raw + rest);
    assert "" + "." + (raw + rest) == "." + (raw + rest);
    SplitNoDot("");
    RenderStart(segments[1..]);
    if segments[1..] == [] {
      assert raw + rest == raw;
      assert SplitAll(segments) == SplitDots(raw);
    } else {
      RenderSplit(segments[1..]);
      assert rest == "." + rest[1..];
      SplitConcat("", rest[1..]);
      assert "" + "." + rest[1..] == rest;
      SplitConcat(raw, rest[1..]);
      assert raw + rest == raw + "." + rest[1..];
      assert ([""] + SplitDots(rest[1..]))[1..] == ([""] + SplitAll(segments[1..]))[1..];
    }
  }

  function SplitAll(segments: seq<Segment>): seq<string> {
    if segments == [] then [] else SplitDots(Raw(segments[0])) + SplitAll(segments[1..])
  }

  lemma HeadSplit(result: seq<string>, s: Segment, more: seq<string>, raws: seq<string>)
    requires IsSegment(s)
    ensures Tidy(s) ==> Steps(State(result, ""), SplitDots(Raw(s)) + more) == Steps(State(result + [Raw(s)], ""), more)
    ensures !Tidy(s) ==> Steps(State(result, ""), SplitDots(Raw(s)) + more).result != result + ([Raw(s)] + raws)
  {
    hide Raw, IsSegment, Tidy, Step, SplitDots, Steps;
    StepsConcat(State(result, ""), SplitDots(Raw(s)), more);
    SegmentSplit(result, s);
    var mid := Steps(State(result, ""), SplitDots(Raw(s)));
    if !Tidy(s) {
      StepsGrow(mid, more);
      Differs(result, [Raw(s)] + raws, mid.result, Steps(mid, more).result);
    }
  }

  lemma RawsCons(segments: seq<Segment>)
    requires segments != []
    ensures Raws(segments) == [Raw(segments[0])] + Raws(segments[1..])
  {
    hide Raw;
  }

  lemma {:induction false} TidySplit(result: seq<string>, segments: seq<Segment>)
    requires AreSegments(segments)
    ensures (forall s :: s in segments ==> Tidy(s)) <==> Steps(State(result, ""), SplitAll(segments)).result == result + Raws(segments)
    decreases |segments|
  {
    hide Raw, IsSegment, Tidy, Step, SplitDots;
    if segments == [] {
      assert result + Raws(segments) == result;
    } else {
      var s, rest := segments[0], segments[1..];
      assert segments == [s] + rest && s in segments;
      HeadSplit(result, s, SplitAll(rest), Raws(rest));
      RawsCons(segments);
      hide Steps, Raws;
      assert result + ([Raw(s)] + Raws(rest)) == result + [Raw(s)] + Raws(rest);
      if Tidy(s) {
        TidySplit(result + [Raw(s)], rest);
      }
    }
  }

  lemma Differs(result: seq<string>, raws: seq<string>, mid: seq<string>, end: seq<string>)
    requires |raws| > 0 && |mid| > |result| && |mid[|result|]| < |raws[0]|
    requires |mid| <= |end| && end[..|mid|] == mid
    ensures end != result + raws
  {
    assert end[|result|] == mid[|result|];
    assert (result + raws)[|result|] == raws[0];
  }

  /**
   `SplitPath` inverts rendering exactly when no quoted segment holds an empty dot-component, that is, when none
   starts or ends with a dot or has two dots in a row.
   */
  lemma SplitPathRoundTrip(segments: seq<Segment>)
    requires segments != [] && AreSegments(segments)
    ensures Steps(State([], ""), SplitDots(Render(segments))).result == Raws(segments) <==> AllTidy(segments)
  {
    RenderSplit(segments);
    StepsConcat(State([], ""), [""], SplitAll(segments));
    OneStep(State([], ""), "");
    TidySplit([], segments);
    assert [] + Raws(segments) == Raws(segments);
  }

  predicate DoubleDot(s: string) {
    exists k :: 0 < k < |s| && s[k - 1] == '.' && s[k] == '.'
  }

  lemma DoubleDotTail(s: string)
    requires s != ""
    ensures DoubleDot(s) <==> (|s| > 1 && s[0] == '.' && s[1] == '.') || DoubleDot(s[1..])
  {
    if k :| 0 < k < |s| && s[k - 1] == '.' && s[k] == '.' {
      if k > 1 {
        assert s[1..][k - 2] == '.' && s[1..][k - 1] == '.';
      }
    }
    if k :| 0 < k < |s[1..]| && s[1..][k - 1] == '.' && s[1..][k] == '.' {
      assert s[k] == '.' && s[k + 1] == '.';
    }
  }

  lemma {:induction false} LaterEmptyParts(s: string)
    ensures "" in SplitDots(s)[1..] <==> s != "" && (s[|s| - 1] == '.' || DoubleDot(s))
  {
    if s != "" {
      LaterEmptyParts(s[1..]);
      DoubleDotTail(s);
      var rest := SplitDots(s[1..]);
      assert rest == [rest[0]] + rest[1..];
    }
  }

  /** Tidiness read off the characters of the quoted text. */
  lemma TidyByDots(text: string)
    requires text != ""
    ensures Tidy(Quoted(text)) <==> text[0] != '.' && text[|text| - 1] != '.' && !DoubleDot(text)
  {
    LaterEmptyParts(text);
    var parts := SplitDots(text);
    assert parts == [parts[0]] + parts[1..];
  }

  // -------- quoting

  /** The regular expression `^".+"$`; its dot matches anything but a newline. */
  predicate LooksQuoted(field: string) {
    |field| > 2 && field[0] == '"' && field[|field| - 1] == '"' && forall k :: 0 < k < |field| - 1 ==> field[k] != '\n'
  }

  const HEX := "0123456789abcdef"

  /** One character under the `%q` verb. */
  function Escape(c: char): string {
    var code := c as int;
    if c == '"' then "\\\""
    else if c == '\\' then "\\\\"
    else if code == 7 then "\\a"
    else if code == 8 then "\\b"
    else if code == 9 then "\\t"
    else if code == 10 then "\\n"
    else if code == 11 then "\\v"
    else if code == 12 then "\\f"
    else if code == 13 then "\\r"
    else if code < 32 || code == 127 then ['\\', 'x', HEX[code / 16], HEX[code % 16]]
    else [c]
  }

  function EscapeAll(s: string): string {
    if s == "" then "" else EscapeAll(s[..|s| - 1]) + Escape(s[|s| - 1])
  }

  function QuoteField(field: string): string {
    if LooksQuoted(field) then field else "\"" + EscapeAll(field) + "\""
  }

  function QuoteAll(fields: seq<string>): (r: seq<string>)
    ensures |r| == |fields| && forall k :: 0 <= k < |r| ==> r[k] == QuoteField(fields[k])
  {
    seq(|fields|, k requires 0 <= k < |fields| => QuoteField(fields[k]))
  }

  method QuotePathSegments(pathArray: array<string>)
    modifies pathArray
    ensures pathArray[..] == QuoteAll(old(pathArray[..]))
  {
    for i := 0 to pathArray.Length
      invariant forall k :: 0 <= k < i ==> pathArray[k] == QuoteField(old(pathArray[k]))
      invariant forall k :: i <= k < pathArray.Length ==> pathArray[k] == old(pathArray[k])
    {
      var field := pathArray[i];
      if LooksQuoted(field) {
        continue;
      }
      pathArray[i] := "\"" + EscapeAll(field) + "\"";
    }
  }

  lemma EscapeChar(c: char)
    ensures '\n' !in Escape(c) && |Escape(c)| >= 1
  {
    if c as int < 32 {
      assert forall d :: d in HEX ==> d != '\n';
    }
  }

  lemma {:induction false} EscapeOneLine(s: string)
    ensures '\n' !in EscapeAll(s) && |EscapeAll(s)| >= |s|
  {
    hide Escape;
    if s != "" {
      EscapeOneLine(s[..|s| - 1]);
      EscapeChar(s[|s| - 1]);
    }
  }

  lemma EscapeWord(c: char)
    requires IsWord(c)
    ensures Escape(c) == [c]
  {
  }

  lemma {:induction false} EscapeWords(s: string)
    requires forall c :: c in s ==> IsWord(c)
    ensures EscapeAll(s) == s
  {
    hide Escape;
    if s != "" {
      EscapeWords(s[..|s| - 1]);
      EscapeWord(s[|s| - 1]);
      assert s == s[..|s| - 1] + [s[|s| - 1]];
    }
  }

  /** Quoting again changes nothing exactly when no segment is empty: the empty one comes back as a quoted pair of quotes. */
  lemma QuoteIdempotent(fields: seq<string>)
    ensures QuoteAll(QuoteAll(fields)) == QuoteAll(fields) <==> "" !in fields
  {
    forall k | 0 <= k < |fields| ensures QuoteField(QuoteField(fields[k])) == QuoteField(fields[k]) <==> fields[k] != "" {
      QuoteTwice(fields[k]);
    }
    if QuoteAll(QuoteAll(fields)) == QuoteAll(fields) {
      forall k | 0 <= k < |fields| ensures fields[k] != "" {
        assert QuoteAll(QuoteAll(fields))[k] == QuoteAll(fields)[k];
      }
    }
  }

  lemma QuoteTwice(field: string)
    ensures QuoteField(QuoteField(field)) == QuoteField(field) <==> field != ""
  {
    EscapeOneLine(field);
    var once := QuoteField(field);
    if field != "" {
      forall k | 0 < k < |once| - 1 ensures once[k] != '\n' {
        if !LooksQuoted(field) {
          assert once[k] == EscapeAll(field)[k - 1];
        }
      }
    } else {
      EscapeOneLine(once);
      assert !LooksQuoted(once);
      assert |QuoteField(once)| >= |once| + 2;
    }
  }

  function QuotedText(segments: seq<Segment>): (r: seq<string>)
    ensures |r| == |segments| && forall k :: 0 <= k < |r| ==> r[k] == "\"" + segments[k].text + "\""
  {
    seq(|segments|, k requires 0 <= k < |segments| => "\"" + segments[k].text + "\"")
  }

  /** Each segment ends up between one pair of quotes exactly when no quoted text runs over a line end. */
  lemma QuotedOnce(segments: seq<Segment>)
    requires AreSegments(segments)
    ensures QuoteAll(Raws(segments)) == QuotedText(segments) <==> forall s :: s in segments ==> s.Plain? || '\n' !in s.text
  {
    forall k | 0 <= k < |segments|
      ensures QuoteField(Raw(segments[k])) == "\"" + segments[k].text + "\"" <==> segments[k].Plain? || '\n' !in segments[k].text
    {
      assert segments[k] in segments;
      SegmentQuotedOnce(segments[k]);
    }
    if QuoteAll(Raws(segments)) == QuotedText(segments) {
      forall k | 0 <= k < |segments| ensures segments[k].Plain? || '\n' !in segments[k].text {
        assert QuoteAll(Raws(segments))[k] == QuotedText(segments)[k];
      }
    }
  }

  lemma SegmentQuotedOnce(s: Segment)
    requires IsSegment(s)
    ensures QuoteField(Raw(s)) == "\"" + s.text + "\"" <==> s.Plain? || '\n' !in s.text
  {
    var raw := Raw(s);
    if s.Plain? {
      EscapeWords(s.text);
      assert s.text[0] in s.text;
    } else {
      forall k | 0 < k < |raw| - 1 ensures raw[k] == s.text[k - 1] {
      }
      EscapeOneLine(raw);
      if '\n' in s.text {
        var k :| 0 <= k < |s.text| && s.text[k] == '\n';
        assert raw[k + 1] == '\n';
      }
    }
  }

  /** From a validated path to the segments a script indexes with: one quoted string for each segment of the grammar. */
  lemma PathToQuotedSegments(segments: seq<Segment>)
    requires segments != [] && AreSegments(segments)
    requires forall s :: s in segments ==> Tidy(s) && '\n' !in s.text
    ensures QuoteAll(Steps(State([], ""), SplitDots(Render(segments))).result) == QuotedText(segments)
    ensures QuoteAll(QuotedText(segments)) == QuotedText(segments)
  {
    assert AllTidy(segments);
    SplitPathRoundTrip(segments);
    QuotedOnce(segments);
    QuoteIdempotent(Raws(segments));
    forall s | s in segments ensures Raw(s) != "" {
      RawStart(s);
    }
  }
}
