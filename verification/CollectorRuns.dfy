/**
 `runCollectors`: one goroutine per collector sends its result to a buffered channel and then leaves the wait group; when
 all have left, the channel is closed and drained.
 */
module CollectorRuns {
  datatype Runner = Idle | Collecting | Sent | Left

  /** `channel` holds everything sent so far, by collector, and `drained` of it is in the results. */
  datatype State = State(runners: seq<Runner>, at: nat, wg: nat, channel: seq<nat>, closed: bool, drained: nat)

  datatype Move = Launch | Send(runner: nat) | Leave(runner: nat) | Close | Drain

  function Init(n: nat): State {
    State(seq(n, _ => Idle), 0, 0, [], false, 0)
  }

  /** The buffer has room for as many results as there are collectors. */
  predicate HasRoom(s: State) {
    |s.channel| - s.drained < |s.runners|
  }

  predicate Enabled(s: State, m: Move) {
    match m
    case Launch => s.at < |s.runners|
    case Send(i) => i < |s.runners| && s.runners[i] == Collecting && HasRoom(s) && !s.closed
    case Leave(i) => i < |s.runners| && s.runners[i] == Sent && s.wg > 0
    case Close => s.at == |s.runners| && s.wg == 0 && !s.closed
    case Drain => s.closed && s.drained < |s.channel|
  }

  function Apply(s: State, m: Move): State
    requires Enabled(s, m)
  {
    match m
    case Launch => s.(runners := s.runners[s.at := Collecting], at := s.at + 1, wg := s.wg + 1)
    case Send(i) => s.(runners := s.runners[i := Sent], channel := s.channel + [i])
    case Leave(i) => s.(runners := s.runners[i := Left], wg := s.wg - 1)
    case Close => s.(closed := true)
    case Drain => s.(drained := s.drained + 1)
  }

  function Out(r: Runner): nat {
    if r == Collecting || r == Sent then 1 else 0
  }

  function Outstanding(rs: seq<Runner>): nat {
    if rs == [] then 0 else Outstanding(rs[..|rs| - 1]) + Out(rs[|rs| - 1])
  }

  lemma {:induction false} OutstandingUpdate(rs: seq<Runner>, i: nat, r: Runner)
    requires i < |rs|
    ensures Outstanding(rs[i := r]) + Out(rs[i]) == Outstanding(rs) + Out(r)
  {
    var n := |rs| - 1;
    if i < n {
      OutstandingUpdate(rs[..n], i, r);
      assert rs[i := r][..n] == rs[..n][i := r];
    } else {
      assert rs[i := r][..n] == rs[..n];
    }
  }

  lemma {:induction false} OutstandingOf(rs: seq<Runner>)
    ensures Outstanding(rs) == 0 <==> forall i :: 0 <= i < |rs| ==> Out(rs[i]) == 0
  {
    if rs != [] {
      OutstandingOf(rs[..|rs| - 1]);
      assert forall i :: 0 <= i < |rs| - 1 ==> rs[..|rs| - 1][i] == rs[i];
    }
  }

  lemma {:induction false} OutstandingNew(n: nat)
    ensures Outstanding(seq(n, _ => Idle)) == 0
  {
    if n > 0 {
      OutstandingNew(n - 1);
      assert seq(n, _ => Idle)[..n - 1] == seq(n - 1, _ => Idle);
    }
  }

  ghost predicate Distinct(s: seq<nat>) {
    forall i, j :: 0 <= i < j < |s| ==> s[i] != s[j]
  }

  ghost predicate Inv(s: State) {
    && s.at <= |s.runners|
    && (forall k :: 0 <= k < |s.runners| ==> (s.runners[k] == Idle <==> k >= s.at))
    && s.wg == Outstanding(s.runners)
    && Distinct(s.channel)
    && (forall k :: 0 <= k < |s.runners| ==> (k in s.channel <==> s.runners[k] == Sent || s.runners[k] == Left))
    && (forall k :: k in s.channel ==> k < |s.runners|)
    && (s.closed ==> s.at == |s.runners| && s.wg == 0)
    && s.drained <= |s.channel| && (s.drained > 0 ==> s.closed)
  }

  lemma InvInit(n: nat)
    ensures Inv(Init(n))
  {
    OutstandingNew(n);
  }

  lemma InvStep(s: State, m: Move)
    requires Inv(s) && Enabled(s, m)
    ensures Inv(Apply(s, m))
  {
    hide Outstanding;
    match m
    case Launch => OutstandingUpdate(s.runners, s.at, Collecting); StillOpen(s, s.at);
    case Send(i) => OutstandingUpdate(s.runners, i, Sent); StillOpen(s, i);
    case Leave(i) => OutstandingUpdate(s.runners, i, Left); StillOpen(s, i);
    case Close =>
    case Drain =>
  }

  lemma StillOpen(s: State, i: nat)
    requires Inv(s) && i < |s.runners| && s.runners[i] != Left
    ensures !s.closed
  {
    OutstandingOf(s.runners);
  }

  function Below(n: nat): (r: set<nat>)
    ensures |r| == n && forall x: nat {:trigger x in r} :: x in r <==> x < n
  {
    if n == 0 then {} else Below(n - 1) + {n - 1}
  }

  function Elements(l: seq<nat>): set<nat> {
    set x: nat | x in l
  }

  /** A list of distinct numbers below `n` that misses one of them is shorter than `n`. */
  lemma Pigeonhole(l: seq<nat>, n: nat, missing: nat)
    requires Distinct(l) && missing < n && missing !in l && forall x :: x in l ==> x < n
    ensures |l| < n
  {
    DistinctCount(l);
    SubsetCount(Elements(l), Below(n) - {missing});
  }

  lemma {:induction false} DistinctCount(l: seq<nat>)
    requires Distinct(l)
    ensures |Elements(l)| == |l|
  {
    if l != [] {
      var init, last := l[..|l| - 1], l[|l| - 1];
      DistinctCount(init);
      assert l == init + [last];
      assert last !in init;
      assert Elements(l) == Elements(init) + {last};
    }
  }

  lemma {:induction false} SubsetCount(a: set<nat>, b: set<nat>)
    requires a <= b
    ensures |a| <= |b|
    decreases a
  {
    if a != {} {
      var x :| x in a;
      SubsetCount(a - {x}, b - {x});
    }
  }

  /** A collector that is done never waits for room in the channel. */
  lemma SendNeverBlocks(s: State, i: nat)
    requires Inv(s) && i < |s.runners| && s.runners[i] == Collecting
    ensures Enabled(s, Send(i))
  {
    StillOpen(s, i);
    Pigeonhole(s.channel, |s.runners|, i);
  }

  predicate Over(s: State) {
    s.closed && s.drained == |s.channel|
  }

  /** Until the results are drained, some move is possible. */
  lemma NoDeadlock(s: State) returns (m: Move)
    requires Inv(s) && !Over(s)
    ensures Enabled(s, m)
  {
    OutstandingOf(s.runners);
    if s.closed {
      m := Drain;
    } else if s.at < |s.runners| {
      m := Launch;
    } else if s.wg == 0 {
      m := Close;
    } else {
      var i :| 0 <= i < |s.runners| && Out(s.runners[i]) == 1;
      if s.runners[i] == Collecting {
        SendNeverBlocks(s, i);
        m := Send(i);
      } else {
        m := Leave(i);
      }
    }
  }

  /** The results hold exactly one entry per collector. */
  lemma OneResultEach(s: State)
    requires Inv(s) && Over(s)
    ensures |s.channel| == |s.runners|
    ensures Distinct(s.channel) && forall k: nat :: k in s.channel <==> k < |s.runners|
  {
    OutstandingOf(s.runners);
    forall k: nat | k < |s.runners| ensures k in s.channel {
      assert Out(s.runners[k]) == 0;
    }
    DistinctCount(s.channel);
    assert Elements(s.channel) == Below(|s.runners|);
  }

  /** Moves left, at most: launch, send, leave and drain for each collector, and one close. */
  function MovesLeft(s: State): int {
    4 * |s.runners| + 1 - s.at - |s.channel| - (s.at - s.wg) - s.drained - if s.closed then 1 else 0
  }

  lemma MovesFinite(s: State, m: Move)
    requires Inv(s) && Enabled(s, m)
    ensures MovesLeft(Apply(s, m)) == MovesLeft(s) - 1 && MovesLeft(s) > 0
  {
    InvStep(s, m);
    var t := Apply(s, m);
    DistinctCount(t.channel);
    SubsetCount(Elements(t.channel), Below(|t.runners|));
  }
}
