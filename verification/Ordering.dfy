/** The byte order on strings used by `sort.Strings`, and the sorted listings of string sets. */
module Ordering {

  predicate Leq(a: string, b: string) {
    |a| == 0 || (|b| != 0 && (a[0] < b[0] || (a[0] == b[0] && Leq(a[1..], b[1..]))))
  }

  predicate Less(a: string, b: string) {
    a != b && Leq(a, b)
  }

  lemma {:induction false} LeqTotal(a: string, b: string)
    ensures Leq(a, b) || Leq(b, a)
  {
    if |a| != 0 && |b| != 0 {
      LeqTotal(a[1..], b[1..]);
    }
  }

  lemma {:induction false} LeqAntisymmetric(a: string, b: string)
    requires Leq(a, b) && Leq(b, a)
    ensures a == b
  {
    if |a| != 0 && |b| != 0 {
      LeqAntisymmetric(a[1..], b[1..]);
      assert a == [a[0]] + a[1..] && b == [b[0]] + b[1..];
    }
  }

  lemma {:induction false} LeqTransitive(a: string, b: string, c: string)
    requires Leq(a, b) && Leq(b, c)
    ensures Leq(a, c)
  {
    if |a| != 0 && a[0] == b[0] == c[0] {
      LeqTransitive(a[1..], b[1..], c[1..]);
    }
  }

  ghost predicate Sorted(l: seq<string>) {
    forall i, j :: 0 <= i < j < |l| ==> Leq(l[i], l[j])
  }

  /** `l` lists exactly the members of `s`, once each and in order. */
  ghost predicate IsListing(l: seq<string>, s: set<string>) {
    && (forall i, j :: 0 <= i < j < |l| ==> Less(l[i], l[j]))
    && (forall x :: x in l <==> x in s)
  }

  /** A set has one listing: sorting erases every trace of the order in which a map or set was walked. */
  lemma {:induction false} ListingUnique(l: seq<string>, m: seq<string>, s: set<string>)
    requires IsListing(l, s) && IsListing(m, s)
    ensures l == m
    decreases |l|
  {
    ListingEmpty(l, s);
    ListingEmpty(m, s);
    if |l| != 0 {
      assert l[0] in l && m[0] in m;
      if l[0] != m[0] {
        var i :| 0 <= i < |m| && m[i] == l[0];
        var j :| 0 <= j < |l| && l[j] == m[0];
        LeqAntisymmetric(l[0], m[0]);
      }
      ListingTail(l, s);
      ListingTail(m, s);
      ListingUnique(l[1..], m[1..], s - {l[0]});
      assert l == [l[0]] + l[1..] && m == [m[0]] + m[1..];
    }
  }

  lemma ListingEmpty(l: seq<string>, s: set<string>)
    requires IsListing(l, s)
    ensures |l| == 0 <==> s == {}
  {
    if |l| != 0 {
      assert l[0] in l;
    }
    forall x | x in s ensures |l| != 0 {
      assert x in l;
    }
  }

  lemma ListingTail(l: seq<string>, s: set<string>)
    requires IsListing(l, s) && |l| > 0
    ensures IsListing(l[1..], s - {l[0]})
  {
    forall x ensures x in l[1..] <==> x in s - {l[0]} {
      if x in s && x != l[0] {
        var i :| 0 <= i < |l| && l[i] == x;
        assert l[1..][i - 1] == x;
      }
      if x in l[1..] {
        var i :| 0 <= i < |l[1..]| && l[1..][i] == x;
        assert l[i + 1] == x;
      }
    }
  }

  /** Position at which `x` belongs in a listing that does not hold it. */
  method FindSlot(l: seq<string>, x: string) returns (k: nat)
    requires forall i, j :: 0 <= i < j < |l| ==> Less(l[i], l[j])
    requires x !in l
    ensures k <= |l|
    ensures forall i :: 0 <= i < k ==> Less(l[i], x)
    ensures forall i :: k <= i < |l| ==> Less(x, l[i])
  {
    k := 0;
    while k < |l| && Leq(l[k], x)
      invariant k <= |l|
      invariant forall i :: 0 <= i < k ==> Less(l[i], x)
    {
      k := k + 1;
    }
    if k < |l| {
      LeqTotal(l[k], x);
      forall i | k < i < |l| ensures Less(x, l[i]) {
        LeqTransitive(x, l[k], l[i]);
        assert l[i] in l;
      }
    }
  }

  /** The sorted member list of a set, whatever order the set is walked in. */
  method ListSet(s: set<string>) returns (l: seq<string>)
    ensures IsListing(l, s)
    ensures l == Listing(s)
  {
    l := [];
    var todo := s;
    while todo != {}
      invariant todo <= s
      invariant IsListing(l, s - todo)
      decreases todo
    {
      var x :| x in todo;
      var k := FindSlot(l, x);
      ListingInsert(l, s - todo, x, k);
      l := l[..k] + [x] + l[k..];
      assert s - todo + {x} == s - (todo - {x});
      todo := todo - {x};
    }
    assert s - todo == s;
    ListingUnique(l, Listing(s), s);
  }

  lemma ListingInsert(l: seq<string>, s: set<string>, x: string, k: nat)
    requires IsListing(l, s) && x !in s && k <= |l|
    requires forall i :: 0 <= i < k ==> Less(l[i], x)
    requires forall i :: k <= i < |l| ==> Less(x, l[i])
    ensures IsListing(l[..k] + [x] + l[k..], s + {x})
  {
    var m := l[..k] + [x] + l[k..];
    assert forall y :: y in l <==> y in l[..k] || y in l[k..] by {
      assert l == l[..k] + l[k..];
    }
  }

  lemma {:induction false} ListingExists(s: set<string>) returns (l: seq<string>)
    ensures IsListing(l, s)
    decreases |s|
  {
    if s == {} {
      l := [];
    } else {
      var x :| x in s;
      var rest := ListingExists(s - {x});
      var k := 0;
      while k < |rest| && Leq(rest[k], x)
        invariant k <= |rest|
        invariant forall i :: 0 <= i < k ==> Less(rest[i], x)
      {
        assert rest[k] in rest;
        k := k + 1;
      }
      forall i | k <= i < |rest| ensures Less(x, rest[i]) {
        assert rest[i] in rest;
        LeqTotal(rest[k], x);
        if k < i { LeqTransitive(x, rest[k], rest[i]); }
      }
      ListingInsert(rest, s - {x}, x, k);
      assert s - {x} + {x} == s;
      l := rest[..k] + [x] + rest[k..];
    }
  }

  /** The listing of a set as a function; `ListSet` computes it. */
  ghost function Listing(s: set<string>): (l: seq<string>)
    ensures IsListing(l, s)
  {
    assert exists l :: IsListing(l, s) by { var l := ListingExists(s); }
    var l :| IsListing(l, s);
    l
  }

  // -------- sorting lists

  function InsertSorted(x: string, s: seq<string>): seq<string> {
    if s == [] then [x]
    else if Leq(x, s[0]) then [x] + s
    else [s[0]] + InsertSorted(x, s[1..])
  }

  function Sort(s: seq<string>): seq<string> {
    if s == [] then [] else InsertSorted(s[0], Sort(s[1..]))
  }

  lemma {:induction false} InsertMultiset(x: string, s: seq<string>)
    ensures multiset(InsertSorted(x, s)) == multiset(s) + multiset{x}
  {
    if s != [] && !Leq(x, s[0]) {
      InsertMultiset(x, s[1..]);
      assert s == [s[0]] + s[1..];
    }
  }

  lemma SortedCons(x: string, s: seq<string>)
    requires Sorted(s) && forall y :: y in s ==> Leq(x, y)
    ensures Sorted([x] + s)
  {
    var l := [x] + s;
    forall i, j | 0 <= i < j < |l| ensures Leq(l[i], l[j]) {
      assert l[j] == s[j - 1] && s[j - 1] in s;
    }
  }

  lemma {:induction false} InsertKeepsSorted(x: string, s: seq<string>)
    requires Sorted(s)
    ensures Sorted(InsertSorted(x, s))
  {
    if s == [] {
    } else if Leq(x, s[0]) {
      forall y | y in s ensures Leq(x, y) {
        var j :| 0 <= j < |s| && s[j] == y;
        if j > 0 { LeqTransitive(x, s[0], s[j]); }
      }
      SortedCons(x, s);
    } else {
      LeqTotal(x, s[0]);
      var rest := InsertSorted(x, s[1..]);
      InsertKeepsSorted(x, s[1..]);
      InsertMultiset(x, s[1..]);
      forall y | y in rest ensures Leq(s[0], y) {
        assert y in multiset(rest);
        assert y == x || y in s[1..];
      }
      SortedCons(s[0], rest);
    }
  }

  lemma {:induction false} SortProperties(s: seq<string>)
    ensures Sorted(Sort(s)) && multiset(Sort(s)) == multiset(s)
    ensures forall x :: x in Sort(s) <==> x in s
  {
    if s != [] {
      SortProperties(s[1..]);
      InsertMultiset(s[0], Sort(s[1..]));
      InsertKeepsSorted(s[0], Sort(s[1..]));
      assert s == [s[0]] + s[1..];
    }
    forall x ensures x in Sort(s) <==> x in s {
      assert x in Sort(s) <==> x in multiset(Sort(s));
    }
  }

  /** A multiset of strings has one sorted order, so any sorting algorithm gives the same list. */
  lemma {:induction false} SortedUnique(a: seq<string>, b: seq<string>)
    requires Sorted(a) && Sorted(b) && multiset(a) == multiset(b)
    ensures a == b
  {
    if a == [] {
      assert |multiset(b)| == 0;
    } else {
      assert a[0] in multiset(a);
      HeadIsLeast(b, a[0]);
      assert b[0] in multiset(b);
      HeadIsLeast(a, b[0]);
      LeqAntisymmetric(a[0], b[0]);
      TailMultiset(a);
      TailMultiset(b);
      SortedUnique(a[1..], b[1..]);
      assert a == [a[0]] + a[1..] && b == [b[0]] + b[1..];
    }
  }

  lemma TailMultiset<T>(a: seq<T>)
    requires a != []
    ensures multiset(a[1..]) == multiset(a) - multiset{a[0]}
  {
    assert a == [a[0]] + a[1..];
  }

  lemma HeadIsLeast(a: seq<string>, x: string)
    requires Sorted(a) && x in multiset(a)
    ensures a != [] && Leq(a[0], x)
  {
    var j :| 0 <= j < |a| && a[j] == x;
    LeqReflexive(x);
  }

  lemma LeqReflexive(a: string)
    ensures Leq(a, a)
  {
    LeqTotal(a, a);
  }
}
