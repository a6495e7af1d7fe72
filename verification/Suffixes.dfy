/** Ids as a base name and the parts appended to it, and when ids of runs and tables of components meet. */
module Suffixes {
  import opened Ordering
  import opened Ids
  import opened Components
  import opened Graph
  import opened Routes

  // -------- what an adapter appends to its base id

  datatype Part = Container | Journal | Host | Kube | OpenShift | Ovn | ItemList | Meta | Throttle

  function Token(p: Part): string {
    match p
    case Container => "container"
    case Journal => "journal"
    case Host => "host"
    case Kube => "kube"
    case OpenShift => "openshift"
    case Ovn => "ovn"
    case ItemList => "items"
    case Meta => "meta"
    case Throttle => "throttle"
  }

  /** The base followed by the parts, each after an underscore. */
  function Under(base: string, parts: seq<Part>): string {
    if parts == [] then base else Under(base, parts[..|parts| - 1]) + "_" + Token(parts[|parts| - 1])
  }

  lemma TokenClean(p: Part)
    ensures Clean(Token(p)) && '_' !in Token(p)
  {
  }

  lemma TokenInjective(p: Part, q: Part)
    requires Token(p) == Token(q)
    ensures p == q
  {
    assert Token(p)[0] == Token(q)[0] && Token(p)[1] == Token(q)[1];
  }

  lemma UnderNone(base: string)
    ensures Under(base, []) == base
  {
  }

  lemma UnderOne(base: string, p: Part)
    ensures Under(base, [p]) == base + "_" + Token(p)
  {
    assert [p][..0] == [];
  }

  lemma UnderTwo(base: string, p: Part, q: Part)
    ensures Under(base, [p, q]) == base + "_" + Token(p) + "_" + Token(q)
  {
    UnderOne(base, p);
    assert [p, q][..1] == [p];
  }

  lemma {:induction false} UnderAfter(head: string, base: string, parts: seq<Part>)
    ensures Under(head + base, parts) == head + Under(base, parts)
  {
    if parts != [] {
      UnderAfter(head, base, parts[..|parts| - 1]);
    }
  }

  lemma UnderStep(a: string, s: seq<Part>, b: string, t: seq<Part>)
    requires s != [] && t != []
    ensures Under(a, s) == Under(b, t) <==>
            Under(a, s[..|s| - 1]) == Under(b, t[..|t| - 1]) && s[|s| - 1] == t[|t| - 1]
  {
    var p, q := s[|s| - 1], t[|t| - 1];
    TokenClean(p);
    TokenClean(q);
    hide Token;
    if Under(a, s) == Under(b, t) {
      LastTokenUnique(Under(a, s[..|s| - 1]), Token(p), Under(b, t[..|t| - 1]), Token(q));
      TokenInjective(p, q);
    }
  }

  lemma SuffixStep(s: seq<Part>, t: seq<Part>)
    requires |s| >= |t| > 0
    ensures s[|s| - |t|..] == t <==> s[..|s| - 1][|s| - |t|..] == t[..|t| - 1] && s[|s| - 1] == t[|t| - 1]
  {
    var end := s[|s| - |t|..];
    assert end == s[..|s| - 1][|s| - |t|..] + [s[|s| - 1]];
    assert t == t[..|t| - 1] + [t[|t| - 1]];
    assert end[..|t| - 1] == s[..|s| - 1][|s| - |t|..] && end[|t| - 1] == s[|s| - 1];
  }

  /** Two ids meet exactly when the shorter list of parts ends the longer one and the rest of it is spelled by the name. */
  lemma {:induction false} UnderEqualIff(a: string, s: seq<Part>, b: string, t: seq<Part>)
    requires |s| >= |t|
    ensures Under(a, s) == Under(b, t) <==> s[|s| - |t|..] == t && Under(a, s[..|s| - |t|]) == b
  {
    hide Under;
    if t == [] {
      assert s[..|s|] == s;
      UnderNone(b);
    } else {
      UnderStep(a, s, b, t);
      SuffixStep(s, t);
      UnderEqualIff(a, s[..|s| - 1], b, t[..|t| - 1]);
      assert s[..|s| - 1][..|s| - |t|] == s[..|s| - |t|];
    }
  }

  // -------- runs of components whose ids spell out their parts

  ghost predicate Disjoint(a: seq<Component>, b: seq<Component>) {
    forall x, y :: x in a && y in b ==> x.id != y.id
  }

  ghost predicate AllHeaded(head: string, cs: seq<Component>) {
    forall x :: x in cs ==> head + "_" <= x.id
  }

  ghost predicate Suffixed(base: string, suffixes: seq<seq<Part>>, cs: seq<Component>) {
    |suffixes| == |cs| && forall k :: 0 <= k < |cs| ==> cs[k].id == Under(base, suffixes[k])
  }

  ghost predicate NoRepeats(suffixes: seq<seq<Part>>) {
    forall j, k :: 0 <= j < k < |suffixes| ==> suffixes[j] != suffixes[k]
  }

  lemma SuffixedDistinct(base: string, suffixes: seq<seq<Part>>, cs: seq<Component>)
    requires Suffixed(base, suffixes, cs) && NoRepeats(suffixes)
    ensures DistinctIds(cs)
  {
    forall j, k | 0 <= j < k < |cs| ensures cs[j].id != cs[k].id {
      SuffixesMeet(base, suffixes[j], suffixes[k]);
    }
  }

  lemma SuffixesMeet(base: string, s: seq<Part>, t: seq<Part>)
    requires s != t
    ensures Under(base, s) != Under(base, t)
  {
    if |s| >= |t| {
      LongerUnder(base, s, t);
    } else {
      LongerUnder(base, t, s);
    }
  }

  lemma LongerUnder(base: string, s: seq<Part>, t: seq<Part>)
    requires s != t && |s| >= |t|
    ensures Under(base, s) != Under(base, t)
  {
    UnderEqualIff(base, s, base, t);
    UnderLength(base, s[..|s| - |t|]);
    assert |s| == |t| ==> s[0..] == s;
  }

  lemma {:induction false} UnderLength(base: string, parts: seq<Part>)
    ensures |Under(base, parts)| >= |base| + |parts|
  {
    if parts != [] {
      UnderLength(base, parts[..|parts| - 1]);
    }
  }

  lemma SuffixedDisjointIff(a: string, ss: seq<seq<Part>>, xs: seq<Component>, b: string, ts: seq<seq<Part>>, ys: seq<Component>)
    requires Suffixed(a, ss, xs) && Suffixed(b, ts, ys)
    ensures Disjoint(xs, ys) <==> forall s, t :: s in ss && t in ts ==> Under(a, s) != Under(b, t)
  {
    hide Under;
    if Disjoint(xs, ys) {
      forall s, t | s in ss && t in ts ensures Under(a, s) != Under(b, t) {
        var j :| 0 <= j < |ss| && ss[j] == s;
        var k :| 0 <= k < |ts| && ts[k] == t;
        assert xs[j] in xs && ys[k] in ys;
      }
    } else {
      var x, y :| x in xs && y in ys && x.id == y.id;
      var j :| 0 <= j < |xs| && xs[j] == x;
      var k :| 0 <= k < |ys| && ys[k] == y;
      assert ss[j] in ss && ts[k] in ts;
    }
  }

  lemma IdHeaded(head: string, name: string, parts: seq<Part>)
    requires Clean(head)
    ensures head + "_" <= Under(MakeId([head] + [name]), parts)
  {
    hide Under, Format, MakeId;
    TagShape(head, name);
    CleanFormat(head);
    UnderAfter(head + "_", Format(name), parts);
    assert MakeId([head] + [name]) == head + "_" + Format(name);
  }

  lemma SuffixedHeaded(head: string, name: string, suffixes: seq<seq<Part>>, cs: seq<Component>)
    requires Clean(head) && Suffixed(MakeId([head] + [name]), suffixes, cs)
    ensures AllHeaded(head, cs)
  {
    hide Under, MakeId;
    forall x | x in cs ensures head + "_" <= x.id {
      var k :| 0 <= k < |cs| && cs[k] == x;
      IdHeaded(head, name, suffixes[k]);
    }
  }

  /** The part of an id that all ids of its kind share does not matter for whether two meet. */
  lemma TagsMeetIff(head: string, a: string, s: seq<Part>, b: string, t: seq<Part>)
    ensures Under(MakeId([head] + [a]), s) == Under(MakeId([head] + [b]), t) <==> Under(Format(a), s) == Under(Format(b), t)
  {
    hide Under, Format, MakeId;
    TagShape(head, a);
    TagShape(head, b);
    UnderAfter(Format(head) + "_", Format(a), s);
    UnderAfter(Format(head) + "_", Format(b), t);
    SameAfter(Format(head) + "_", Under(Format(a), s), Under(Format(b), t));
  }

  lemma SameAfter(p: string, a: string, b: string)
    ensures p + a == p + b <==> a == b
  {
    if p + a == p + b {
      assert (p + a)[|p|..] == a && (p + b)[|p|..] == b;
    }
  }

  // -------- concatenations and tables

  lemma DistinctConcatIff(a: seq<Component>, b: seq<Component>)
    ensures DistinctIds(a + b) <==> DistinctIds(a) && DistinctIds(b) && Disjoint(a, b)
  {
    var c := a + b;
    assert forall i :: 0 <= i < |a| ==> c[i] == a[i];
    assert forall j :: 0 <= j < |b| ==> c[|a| + j] == b[j];
    if DistinctIds(c) {
      forall x, y | x in a && y in b ensures x.id != y.id {
        var i :| 0 <= i < |a| && a[i] == x;
        var j :| 0 <= j < |b| && b[j] == y;
        assert c[i].id != c[|a| + j].id;
      }
      forall i, j | 0 <= i < j < |b| ensures b[i].id != b[j].id {
        assert c[|a| + i].id != c[|a| + j].id;
      }
    }
    if DistinctIds(a) && DistinctIds(b) && Disjoint(a, b) {
      forall i, j | 0 <= i < j < |c| ensures c[i].id != c[j].id {
        if i < |a| <= j {
          assert a[i] in a && b[j - |a|] in b;
        }
      }
    }
  }

  lemma DisjointSymmetric(a: seq<Component>, b: seq<Component>)
    ensures Disjoint(a, b) <==> Disjoint(b, a)
  {
  }

  lemma NothingDistinct()
    ensures DistinctIds([])
  {
  }

  lemma FlattenDisjointIff(names: seq<string>, table: Table, b: seq<Component>)
    requires forall n :: n in names ==> n in table
    ensures Disjoint(FlattenNames(names, table), b) <==> forall n :: n in names ==> Disjoint(table[n], b)
  {
    var all := FlattenNames(names, table);
    forall x ensures x in all <==> exists n :: n in names && x in table[n] {
      FlattenMember(names, table, x);
    }
    hide FlattenNames;
    if Disjoint(all, b) {
      forall n, x, y | n in names && x in table[n] && y in b ensures x.id != y.id {
        assert x in all;
      }
    }
  }

  ghost predicate BlocksApart(names: set<string>, table: Table)
    requires names <= table.Keys
  {
    forall m, n :: m in names && n in names && m != n ==> Disjoint(table[m], table[n])
  }

  lemma {:induction false} FlattenDistinctIff(names: seq<string>, table: Table)
    requires forall n :: n in names ==> n in table
    requires forall i, j :: 0 <= i < j < |names| ==> names[i] != names[j]
    requires forall n :: n in table ==> DistinctIds(table[n])
    ensures DistinctIds(FlattenNames(names, table)) <==> BlocksApart((set n | n in names), table)
  {
    hide DistinctIds, Disjoint;
    if names == [] {
      NothingDistinct();
    } else {
      var init, last := names[..|names| - 1], names[|names| - 1];
      assert names == init + [last] && last !in init;
      FlattenDistinctIff(init, table);
      FlattenDisjointIff(init, table, table[last]);
      DistinctConcatIff(FlattenNames(init, table), table[last]);
      forall n | n in init ensures Disjoint(table[last], table[n]) <==> Disjoint(table[n], table[last]) {
        DisjointSymmetric(table[last], table[n]);
      }
    }
  }

  /** The components of a table have distinct ids exactly when no two adapters share one. */
  lemma TableDistinctIff(table: Table, head: string)
    requires forall n :: n in table ==> DistinctIds(table[n]) && AllHeaded(head, table[n])
    ensures DistinctIds(Flatten(table)) <==> BlocksApart(table.Keys, table)
    ensures AllHeaded(head, Flatten(table))
  {
    hide DistinctIds, FlattenNames;
    var names := Listing(table.Keys);
    FlattenDistinctIff(names, table);
    assert (set n | n in names) == table.Keys;
    forall x | x in Flatten(table) ensures head + "_" <= x.id {
      FlattenMember(names, table, x);
    }
  }
}
