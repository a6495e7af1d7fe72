/** Lists of status conditions, kept by condition type. */
module Conditions {
  import opened Wrappers

  datatype Truth = True | False | Unknown

  datatype Condition = Condition(kind: string, status: Truth, reason: string, message: string, since: int)

  /** A condition before it is given a transition time. */
  datatype Verdict = Verdict(kind: string, status: Truth, reason: string, message: string)

  function Stamp(v: Verdict, since: int): Condition {
    Condition(v.kind, v.status, v.reason, v.message, since)
  }

  /** The first condition of a type; with unique types, the only one. */
  function Find(items: seq<Condition>, kind: string): Option<Condition> {
    if items == [] then None
    else if items[0].kind == kind then Some(items[0])
    else Find(items[1..], kind)
  }

  ghost predicate Unique(items: seq<Condition>) {
    forall i, j :: 0 <= i < j < |items| ==> items[i].kind != items[j].kind
  }

  ghost function Kinds(items: seq<Condition>): set<string> {
    set c | c in items :: c.kind
  }

  // -------- SetCondition

  /** The time a verdict takes over from the list: it moves only when the status does. */
  function Since(items: seq<Condition>, v: Verdict, now: int): int {
    match Find(items, v.kind)
    case Some(c) => if c.status == v.status then c.since else now
    case None => now
  }

  function Changes(items: seq<Condition>, v: Verdict): bool {
    match Find(items, v.kind)
    case Some(c) => c.status != v.status || c.reason != v.reason || c.message != v.message
    case None => true
  }

  function Set(items: seq<Condition>, v: Verdict, now: int): seq<Condition> {
    if items == [] then [Stamp(v, now)]
    else if items[0].kind == v.kind then [Stamp(v, if items[0].status == v.status then items[0].since else now)] + items[1..]
    else [items[0]] + Set(items[1..], v, now)
  }

  // -------- PruneConditions

  /** One copy of the condition for every wanted type equal to its own. */
  function Copies(c: Condition, wanted: seq<string>): seq<Condition> {
    if wanted == [] then []
    else Copies(c, wanted[..|wanted| - 1]) + if wanted[|wanted| - 1] == c.kind then [c] else []
  }

  function Kept(items: seq<Condition>, wanted: seq<string>): seq<Condition> {
    if items == [] then [] else Kept(items[..|items| - 1], wanted) + Copies(items[|items| - 1], wanted)
  }

  function Without(items: seq<Condition>, kind: string): seq<Condition> {
    if items == [] then []
    else Without(items[..|items| - 1], kind) + if items[|items| - 1].kind != kind then [items[|items| - 1]] else []
  }

  /** A condition list that callers share and rewrite in place. */
  class ConditionList {
    var items: seq<Condition>

    constructor (items: seq<Condition>)
      ensures this.items == items
    {
      this.items := items;
    }

    method SetCondition(v: Verdict, now: int) returns (changed: bool)
      modifies this
      ensures items == Set(old(items), v, now)
      ensures changed == Changes(old(items), v)
    {
      for i := 0 to |items|
        invariant forall k :: 0 <= k < i ==> items[k].kind != v.kind
        invariant items == old(items)
      {
        var condition := items[i];
        if condition.kind == v.kind {
          var since := now;
          if condition.status == v.status {
            since := condition.since;
          }
          changed := condition.status != v.status || condition.reason != v.reason || condition.message != v.message;
          SetAt(items, v, now, i);
          items := items[i := Stamp(v, since)];
          return;
        }
      }
      SetMissing(items, v, now);
      items := items + [Stamp(v, now)];
      changed := true;
    }

    method PruneConditions(wanted: seq<string>)
      modifies this
      ensures items == Kept(old(items), wanted)
    {
      var keepers: seq<Condition> := [];
      for i := 0 to |items|
        invariant items == old(items)
        invariant keepers == Kept(items[..i], wanted)
      {
        ghost var before := keepers;
        for j := 0 to |wanted|
          invariant items == old(items)
          invariant keepers == before + Copies(items[i], wanted[..j])
        {
          assert wanted[..j + 1][..j] == wanted[..j];
          if items[i].kind == wanted[j] {
            keepers := keepers + [items[i]];
          }
        }
        assert wanted[..|wanted|] == wanted;
        assert items[..i + 1][..i] == items[..i];
      }
      assert items[..|items|] == items;
      items := keepers;
    }

    method RemoveConditionByType(kind: string)
      modifies this
      ensures items == Without(old(items), kind)
    {
      var kept: seq<Condition> := [];
      for i := 0 to |items|
        invariant items == old(items)
        invariant kept == Without(items[..i], kind)
      {
        assert items[..i + 1][..i] == items[..i];
        if items[i].kind != kind {
          kept := kept + [items[i]];
        }
      }
      assert items[..|items|] == items;
      items := kept;
    }
  }

  lemma {:induction false} SetAt(items: seq<Condition>, v: Verdict, now: int, i: nat)
    requires i < |items| && items[i].kind == v.kind && forall k :: 0 <= k < i ==> items[k].kind != v.kind
    ensures Set(items, v, now) == items[i := Stamp(v, if items[i].status == v.status then items[i].since else now)]
    ensures Find(items, v.kind) == Some(items[i])
  {
    if i > 0 {
      SetAt(items[1..], v, now, i - 1);
      assert items == [items[0]] + items[1..];
    }
  }

  lemma {:induction false} SetMissing(items: seq<Condition>, v: Verdict, now: int)
    requires forall k :: 0 <= k < |items| ==> items[k].kind != v.kind
    ensures Set(items, v, now) == items + [Stamp(v, now)] && Find(items, v.kind) == None
  {
    if items != [] {
      SetMissing(items[1..], v, now);
      assert items == [items[0]] + items[1..];
    }
  }

  // -------- looking conditions up

  lemma {:induction false} FindIn(items: seq<Condition>, kind: string)
    ensures Find(items, kind).Some? <==> kind in Kinds(items)
    ensures Find(items, kind).Some? ==> Find(items, kind).value in items && Find(items, kind).value.kind == kind
  {
    if items != [] {
      FindIn(items[1..], kind);
      assert items == [items[0]] + items[1..];
    }
  }

  lemma FindUnique(items: seq<Condition>, c: Condition)
    requires Unique(items) && c in items
    ensures Find(items, c.kind) == Some(c)
  {
    FindIn(items, c.kind);
    var i :| 0 <= i < |items| && items[i] == c;
    assert c.kind in Kinds(items);
    var j :| 0 <= j < |items| && items[j] == Find(items, c.kind).value;
    assert i == j;
  }

  /** Setting a condition touches its own type and no other. */
  lemma {:induction false} SetFind(items: seq<Condition>, v: Verdict, now: int, kind: string)
    ensures Find(Set(items, v, now), kind) == if kind == v.kind then Some(Stamp(v, Since(items, v, now))) else Find(items, kind)
  {
    if items != [] && items[0].kind != v.kind {
      SetFind(items[1..], v, now, kind);
    }
  }

  lemma SetKinds(items: seq<Condition>, v: Verdict, now: int)
    ensures Kinds(Set(items, v, now)) == Kinds(items) + {v.kind}
  {
    forall k ensures k in Kinds(Set(items, v, now)) <==> k in Kinds(items) + {v.kind} {
      SetFind(items, v, now, k);
      FindIn(items, k);
      FindIn(Set(items, v, now), k);
    }
  }

  /** Types stay unique. */
  lemma {:induction false} SetUnique(items: seq<Condition>, v: Verdict, now: int)
    requires Unique(items)
    ensures Unique(Set(items, v, now))
  {
    if items != [] && items[0].kind != v.kind {
      SetUnique(items[1..], v, now);
      SetKinds(items[1..], v, now);
      var rest := Set(items[1..], v, now);
      forall j | 0 <= j < |rest| ensures rest[j].kind != items[0].kind {
        assert rest[j].kind in Kinds(rest);
      }
    }
  }

  lemma {:induction false} KeptFind(items: seq<Condition>, wanted: seq<string>)
    requires Unique(items) && forall i, j :: 0 <= i < j < |wanted| ==> wanted[i] != wanted[j]
    ensures Unique(Kept(items, wanted))
    ensures forall c :: c in Kept(items, wanted) <==> c in items && c.kind in wanted
  {
    if items != [] {
      var init, last := items[..|items| - 1], items[|items| - 1];
      assert items == init + [last];
      KeptFind(init, wanted);
      CopiesOnce(last, wanted);
      var kept := Kept(init, wanted);
      forall c | c in kept ensures c.kind != last.kind {
        assert c in init;
      }
    }
  }

  lemma {:induction false} CopiesOnce(c: Condition, wanted: seq<string>)
    requires forall i, j :: 0 <= i < j < |wanted| ==> wanted[i] != wanted[j]
    ensures Copies(c, wanted) == if c.kind in wanted then [c] else []
  {
    if wanted != [] {
      var init, last := wanted[..|wanted| - 1], wanted[|wanted| - 1];
      assert wanted == init + [last];
      CopiesOnce(c, init);
    }
  }

  lemma {:induction false} WithoutFind(items: seq<Condition>, kind: string)
    ensures forall c :: c in Without(items, kind) <==> c in items && c.kind != kind
    ensures Unique(items) ==> Unique(Without(items, kind))
  {
    if items != [] {
      var init, last := items[..|items| - 1], items[|items| - 1];
      assert items == init + [last];
      WithoutFind(init, kind);
    }
  }

  // -------- a whole list of verdicts

  function SetAll(items: seq<Condition>, vs: seq<Verdict>, now: int): seq<Condition> {
    if vs == [] then items else Set(SetAll(items, vs[..|vs| - 1], now), vs[|vs| - 1], now)
  }

  ghost predicate Distinct(vs: seq<Verdict>) {
    forall i, j :: 0 <= i < j < |vs| ==> vs[i].kind != vs[j].kind
  }

  lemma {:induction false} SetAllKinds(items: seq<Condition>, vs: seq<Verdict>, now: int)
    ensures Kinds(SetAll(items, vs, now)) == Kinds(items) + (set v | v in vs :: v.kind)
    ensures Unique(items) ==> Unique(SetAll(items, vs, now))
  {
    if vs != [] {
      var init, last := vs[..|vs| - 1], vs[|vs| - 1];
      assert vs == init + [last];
      SetAllKinds(items, init, now);
      SetKinds(SetAll(items, init, now), last, now);
      if Unique(items) {
        SetUnique(SetAll(items, init, now), last, now);
      }
    }
  }

  lemma {:induction false} SetAllElsewhere(items: seq<Condition>, vs: seq<Verdict>, now: int, kind: string)
    requires forall v :: v in vs ==> v.kind != kind
    ensures Find(SetAll(items, vs, now), kind) == Find(items, kind)
  {
    if vs != [] {
      var init, last := vs[..|vs| - 1], vs[|vs| - 1];
      assert vs == init + [last];
      SetAllElsewhere(items, init, now, kind);
      SetFind(SetAll(items, init, now), last, now, kind);
    }
  }

  /** Each verdict shows up under its type, its time taken over from the original list. */
  lemma {:induction false} SetAllFind(items: seq<Condition>, vs: seq<Verdict>, now: int, v: Verdict)
    requires Distinct(vs) && v in vs
    ensures Find(SetAll(items, vs, now), v.kind) == Some(Stamp(v, Since(items, v, now)))
  {
    var init, last := vs[..|vs| - 1], vs[|vs| - 1];
    assert vs == init + [last];
    SetFind(SetAll(items, init, now), last, now, v.kind);
    if v in init {
      SetAllFind(items, init, now, v);
    } else {
      SetAllElsewhere(items, init, now, v.kind);
    }
  }

  // -------- isValid

  /** How many of the conditions have a type with this prefix and are True. */
  function CountTrue(items: seq<Condition>, prefix: string): nat {
    if items == [] then 0
    else CountTrue(items[..|items| - 1], prefix)
         + if prefix <= items[|items| - 1].kind && items[|items| - 1].status == True then 1 else 0
  }

  predicate AllTrue(items: seq<Condition>, prefix: string, expected: nat) {
    |items| == expected && CountTrue(items, prefix) == expected
  }

  method IsValid(prefix: string, conditions: seq<Condition>, expConditions: nat) returns (valid: bool)
    ensures valid <==> |conditions| == expConditions && forall c :: c in conditions ==> prefix <= c.kind && c.status == True
    ensures valid == AllTrue(conditions, prefix, expConditions)
  {
    CountAll(conditions, prefix);
    if |conditions| != expConditions {
      return false;
    }
    var conditionTrue := 0;
    for i := 0 to |conditions|
      invariant conditionTrue == CountTrue(conditions[..i], prefix)
    {
      assert conditions[..i + 1][..i] == conditions[..i];
      if prefix <= conditions[i].kind && conditions[i].status == True {
        conditionTrue := conditionTrue + 1;
      }
    }
    assert conditions[..|conditions|] == conditions;
    return conditionTrue == expConditions;
  }

  lemma {:induction false} CountAll(items: seq<Condition>, prefix: string)
    ensures CountTrue(items, prefix) <= |items|
    ensures CountTrue(items, prefix) == |items| <==> forall c :: c in items ==> prefix <= c.kind && c.status == True
  {
    if items != [] {
      CountAll(items[..|items| - 1], prefix);
      assert items == items[..|items| - 1] + [items[|items| - 1]];
    }
  }

  /** As many conditions as types when types are unique. */
  lemma {:induction false} KindsCount(items: seq<Condition>)
    requires Unique(items)
    ensures |items| == |Kinds(items)|
  {
    if items != [] {
      var init, last := items[..|items| - 1], items[|items| - 1];
      assert items == init + [last];
      KindsCount(init);
      assert Kinds(items) == Kinds(init) + {last.kind};
    }
  }

  lemma {:induction false} VerdictKindsCount(vs: seq<Verdict>)
    requires Distinct(vs)
    ensures |set v | v in vs :: v.kind| == |vs|
  {
    if vs != [] {
      var init, last := vs[..|vs| - 1], vs[|vs| - 1];
      assert vs == init + [last];
      VerdictKindsCount(init);
      assert (set v | v in vs :: v.kind) == (set v | v in init :: v.kind) + {last.kind};
    }
  }

  /** Every wanted type gets a verdict. */
  ghost predicate Answers(vs: seq<Verdict>, wanted: seq<string>) {
    && Distinct(vs)
    && (forall i, j :: 0 <= i < j < |wanted| ==> wanted[i] != wanted[j])
    && (forall w :: w in wanted ==> exists v :: v in vs && v.kind == w)
  }

  lemma RefreshedKinds(prior: seq<Condition>, wanted: seq<string>, vs: seq<Verdict>, now: int)
    requires Unique(prior) && Answers(vs, wanted)
    ensures Unique(SetAll(Kept(prior, wanted), vs, now))
    ensures Kinds(SetAll(Kept(prior, wanted), vs, now)) == set v | v in vs :: v.kind
    ensures |SetAll(Kept(prior, wanted), vs, now)| == |vs|
  {
    var kept := Kept(prior, wanted);
    KeptFind(prior, wanted);
    SetAllKinds(kept, vs, now);
    VerdictKindsCount(vs);
    KindsCount(SetAll(kept, vs, now));
    assert Kinds(SetAll(kept, vs, now)) == set v | v in vs :: v.kind;
  }

  /** A condition of the refreshed list repeats the verdict of its type. */
  lemma RefreshedCondition(prior: seq<Condition>, wanted: seq<string>, vs: seq<Verdict>, now: int, c: Condition) returns (v: Verdict)
    requires Unique(prior) && Answers(vs, wanted) && c in SetAll(Kept(prior, wanted), vs, now)
    ensures v in vs && c.kind == v.kind && c.status == v.status && c.reason == v.reason && c.message == v.message
  {
    RefreshedKinds(prior, wanted, vs, now);
    var items := SetAll(Kept(prior, wanted), vs, now);
    assert c.kind in Kinds(items);
    v :| v in vs && v.kind == c.kind;
    SetAllFind(Kept(prior, wanted), vs, now, v);
    FindUnique(items, c);
  }

  lemma RefreshedVerdict(prior: seq<Condition>, wanted: seq<string>, vs: seq<Verdict>, now: int, v: Verdict) returns (c: Condition)
    requires Unique(prior) && Answers(vs, wanted) && v in vs
    ensures c in SetAll(Kept(prior, wanted), vs, now)
    ensures c.kind == v.kind && c.status == v.status && c.reason == v.reason && c.message == v.message
  {
    var items := SetAll(Kept(prior, wanted), vs, now);
    SetAllFind(Kept(prior, wanted), vs, now, v);
    FindIn(items, v.kind);
    c := Find(items, v.kind).value;
  }

  /**
   Pruned to types that all get a verdict and then set, a list passes exactly when every verdict is True,
   whatever it held before.
   */
  lemma ListGate(prior: seq<Condition>, wanted: seq<string>, vs: seq<Verdict>, prefix: string, now: int)
    requires Unique(prior) && Answers(vs, wanted) && forall v :: v in vs ==> prefix <= v.kind
    ensures AllTrue(SetAll(Kept(prior, wanted), vs, now), prefix, |vs|) <==> forall v :: v in vs ==> v.status == True
  {
    hide SetAll, Kept, CountTrue, Unique, Answers;
    var items := SetAll(Kept(prior, wanted), vs, now);
    CountAll(items, prefix);
    RefreshedKinds(prior, wanted, vs, now);
    forall v | v in vs ensures exists c :: c in items && c.status == v.status {
      var c := RefreshedVerdict(prior, wanted, vs, now, v);
    }
    forall c | c in items ensures prefix <= c.kind && exists v :: v in vs && c.status == v.status {
      var v := RefreshedCondition(prior, wanted, vs, now, c);
    }
  }

  /** The time of a condition after prune and set: kept exactly when its type survived the pruning and its status stays. */
  lemma TransitionTime(prior: seq<Condition>, wanted: seq<string>, vs: seq<Verdict>, now: int, v: Verdict)
    requires Unique(prior) && Distinct(vs) && v in vs && forall i, j :: 0 <= i < j < |wanted| ==> wanted[i] != wanted[j]
    ensures Find(SetAll(Kept(prior, wanted), vs, now), v.kind) ==
            Some(Stamp(v, if v.kind in wanted then Since(prior, v, now) else now))
  {
    var kept := Kept(prior, wanted);
    SetAllFind(kept, vs, now, v);
    KeptFind(prior, wanted);
    FindIn(kept, v.kind);
    FindIn(prior, v.kind);
    if v.kind in wanted && Find(prior, v.kind).Some? {
      FindUnique(kept, Find(prior, v.kind).value);
    } else {
      assert v.kind !in Kinds(kept);
    }
  }
}
