/**
 Worker pools as must-gather runs them: a loop counts each item in a wait group, takes a semaphore slot and starts a
 goroutine; a goroutine gives its slot back and then leaves the wait group; the loop's owner waits for the group.
 */
module Pools {
  import opened Wrappers

  /** The life of one item; its body is what the goroutine has come to. */
  datatype Worker<B> = NotStarted | Counted | Acquired | Running(body: B) | Released(body: B) | Finished(body: B)

  /** `at` is the item the loop works on; `started` logs the items whose goroutine was started. */
  datatype Pool<B> = Pool(workers: seq<Worker<B>>, at: nat, sem: nat, wg: nat, started: seq<nat>, returned: bool)

  datatype Move<B> = Count | Acquire | Start | Work(worker: nat, body: B) | Release(worker: nat) | Finish(worker: nat) | Return

  function NewPool<B>(n: nat): Pool<B> {
    Pool(seq(n, _ => NotStarted), 0, 0, 0, [], false)
  }

  /** What the channel and the wait group allow; sending into a full semaphore channel blocks. */
  predicate Enabled<B>(p: Pool<B>, m: Move<B>, capacity: nat) {
    match m
    case Count => p.at < |p.workers| && p.workers[p.at].NotStarted?
    case Acquire => p.at < |p.workers| && p.workers[p.at].Counted? && p.sem < capacity
    case Start => p.at < |p.workers| && p.workers[p.at].Acquired?
    case Work(i, body) => i < |p.workers| && p.workers[i].Running?
    case Release(i) => i < |p.workers| && p.workers[i].Running? && p.sem > 0
    case Finish(i) => i < |p.workers| && p.workers[i].Released? && p.wg > 0
    case Return => p.at == |p.workers| && p.wg == 0 && !p.returned
  }

  function Apply<B>(p: Pool<B>, m: Move<B>, init: B, capacity: nat): Pool<B>
    requires Enabled(p, m, capacity)
  {
    match m
    case Count => p.(workers := p.workers[p.at := Counted], wg := p.wg + 1)
    case Acquire => p.(workers := p.workers[p.at := Acquired], sem := p.sem + 1)
    case Start => p.(workers := p.workers[p.at := Running(init)], at := p.at + 1, started := p.started + [p.at])
    case Work(i, body) => p.(workers := p.workers[i := Running(body)])
    case Release(i) => p.(workers := p.workers[i := Released(p.workers[i].body)], sem := p.sem - 1)
    case Finish(i) => p.(workers := p.workers[i := Finished(p.workers[i].body)], wg := p.wg - 1)
    case Return => p.(returned := true)
  }

  // -------- counting workers

  function Holds<B>(w: Worker<B>): nat {
    if w.Acquired? || w.Running? then 1 else 0
  }

  function Holding<B>(ws: seq<Worker<B>>): nat {
    if ws == [] then 0 else Holding(ws[..|ws| - 1]) + Holds(ws[|ws| - 1])
  }

  function Lives<B>(w: Worker<B>): nat {
    if w.NotStarted? || w.Finished? then 0 else 1
  }

  function Living<B>(ws: seq<Worker<B>>): nat {
    if ws == [] then 0 else Living(ws[..|ws| - 1]) + Lives(ws[|ws| - 1])
  }

  function IsRunning<B>(w: Worker<B>): nat {
    if w.Running? then 1 else 0
  }

  /** How many goroutines are at work. */
  function Active<B>(ws: seq<Worker<B>>): nat {
    if ws == [] then 0 else Active(ws[..|ws| - 1]) + IsRunning(ws[|ws| - 1])
  }

  lemma {:induction false} CountsUpdate<B>(ws: seq<Worker<B>>, i: nat, w: Worker<B>)
    requires i < |ws|
    ensures Holding(ws[i := w]) + Holds(ws[i]) == Holding(ws) + Holds(w)
    ensures Living(ws[i := w]) + Lives(ws[i]) == Living(ws) + Lives(w)
  {
    var n := |ws| - 1;
    if i < n {
      CountsUpdate(ws[..n], i, w);
      assert ws[i := w][..n] == ws[..n][i := w];
    } else {
      assert ws[i := w][..n] == ws[..n];
    }
  }

  lemma {:induction false} CountsOf<B>(ws: seq<Worker<B>>)
    ensures Active(ws) <= Holding(ws)
    ensures Holding(ws) > 0 ==> exists i :: 0 <= i < |ws| && Holds(ws[i]) == 1
    ensures Living(ws) > 0 ==> exists i :: 0 <= i < |ws| && Lives(ws[i]) == 1
    ensures Living(ws) == 0 ==> forall i :: 0 <= i < |ws| ==> Lives(ws[i]) == 0
    ensures Holding(ws) == 0 ==> forall i :: 0 <= i < |ws| ==> Holds(ws[i]) == 0
  {
    if ws != [] {
      var init := ws[..|ws| - 1];
      CountsOf(init);
      if Holding(init) > 0 {
        var i :| 0 <= i < |init| && Holds(init[i]) == 1;
        assert Holds(ws[i]) == 1;
      }
      if Living(init) > 0 {
        var i :| 0 <= i < |init| && Lives(init[i]) == 1;
        assert Lives(ws[i]) == 1;
      }
      assert forall i :: 0 <= i < |init| ==> init[i] == ws[i];
    }
  }

  lemma {:induction false} CountsNew<B>(n: nat)
    ensures Holding<B>(seq(n, _ => NotStarted)) == 0 && Living<B>(seq(n, _ => NotStarted)) == 0
  {
    if n > 0 {
      CountsNew<B>(n - 1);
      assert seq<Worker<B>>(n, _ => NotStarted)[..n - 1] == seq(n - 1, _ => NotStarted);
    }
  }

  // -------- the invariant

  ghost predicate Inv<B>(p: Pool<B>, capacity: nat) {
    && p.at <= |p.workers|
    && (forall k :: 0 <= k < p.at ==> p.workers[k].Running? || p.workers[k].Released? || p.workers[k].Finished?)
    && (p.at < |p.workers| ==> p.workers[p.at].NotStarted? || p.workers[p.at].Counted? || p.workers[p.at].Acquired?)
    && (forall k :: p.at < k < |p.workers| ==> p.workers[k].NotStarted?)
    && p.sem == Holding(p.workers) <= capacity
    && p.wg == Living(p.workers)
    && |p.started| == p.at && (forall k :: 0 <= k < p.at ==> p.started[k] == k)
    && (p.returned ==> p.at == |p.workers| && p.wg == 0)
  }

  lemma InvInit<B>(n: nat, capacity: nat)
    ensures Inv(NewPool<B>(n), capacity)
  {
    CountsNew<B>(n);
  }

  lemma InvStep<B>(p: Pool<B>, m: Move<B>, init: B, capacity: nat)
    requires Inv(p, capacity) && Enabled(p, m, capacity)
    ensures Inv(Apply(p, m, init, capacity), capacity)
  {
    hide Holding, Living;
    match m
    case Count => CountsUpdate(p.workers, p.at, Counted);
    case Acquire => CountsUpdate(p.workers, p.at, Acquired);
    case Start => CountsUpdate(p.workers, p.at, Running(init));
    case Work(i, body) => CountsUpdate(p.workers, i, Running(body)); NotReturned(p, i, capacity);
    case Release(i) => CountsUpdate(p.workers, i, Released(p.workers[i].body)); NotReturned(p, i, capacity);
    case Finish(i) => CountsUpdate(p.workers, i, Finished(p.workers[i].body)); NotReturned(p, i, capacity);
    case Return =>
  }

  lemma NotReturned<B>(p: Pool<B>, i: nat, capacity: nat)
    requires Inv(p, capacity) && i < |p.workers| && Lives(p.workers[i]) == 1
    ensures p.wg > 0 && !p.returned && (p.workers[i].Running? || p.workers[i].Released? ==> i < p.at)
    ensures Holds(p.workers[i]) == 1 ==> p.sem > 0
  {
    CountsOf(p.workers);
  }

  /** No more goroutines are at work than there are slots. */
  lemma Bounded<B>(p: Pool<B>, capacity: nat)
    requires Inv(p, capacity)
    ensures Active(p.workers) <= capacity
  {
    CountsOf(p.workers);
  }

  /** When the wait is over, every item was started exactly once, in order, and is finished. */
  lemma AllHandled<B>(p: Pool<B>, capacity: nat)
    requires Inv(p, capacity) && p.returned
    ensures forall k :: 0 <= k < |p.workers| ==> p.workers[k].Finished?
    ensures p.started == seq(|p.workers|, k => k)
  {
    CountsOf(p.workers);
    forall k | 0 <= k < |p.workers| ensures p.workers[k].Finished? {
      assert Lives(p.workers[k]) == 0;
    }
  }

  /** Until the wait is over, the loop or the owner can move, or some goroutine is still on its way. */
  lemma Lively<B>(p: Pool<B>, capacity: nat) returns (m: Move<B>, working: Option<nat>)
    requires Inv(p, capacity) && capacity > 0 && !p.returned
    ensures working.None? ==> Enabled(p, m, capacity) && !m.Work? && !m.Release?
    ensures working.Some? ==> working.value < |p.workers| && p.workers[working.value].Running? && p.sem > 0
  {
    CountsOf(p.workers);
    working, m := None, Return;
    if p.at < |p.workers| {
      if p.workers[p.at].NotStarted? {
        m := Count;
      } else if p.workers[p.at].Acquired? {
        m := Start;
      } else {
        m := Acquire;
        if p.sem == capacity {
          var i :| 0 <= i < |p.workers| && Holds(p.workers[i]) == 1;
          working := Some(i);
        }
      }
    } else if p.wg > 0 {
      var i :| 0 <= i < |p.workers| && Lives(p.workers[i]) == 1;
      if p.workers[i].Running? {
        NotReturned(p, i, capacity);
        working := Some(i);
      } else {
        m := Finish(i);
      }
    }
  }

  // -------- termination

  function WorkerRank<B>(w: Worker<B>, most: nat, rank: B -> nat): nat {
    match w
    case NotStarted => 5 + most
    case Counted => 4 + most
    case Acquired => 3 + most
    case Running(body) => 2 + rank(body)
    case Released(_) => 1
    case Finished(_) => 0
  }

  function Rank<B>(ws: seq<Worker<B>>, most: nat, rank: B -> nat): nat {
    if ws == [] then 0 else Rank(ws[..|ws| - 1], most, rank) + WorkerRank(ws[|ws| - 1], most, rank)
  }

  /** What is left to do in a pool whose bodies take at most `most`. */
  function PoolRank<B>(p: Pool<B>, most: nat, rank: B -> nat): nat {
    Rank(p.workers, most, rank) + if p.returned then 0 else 1
  }

  lemma {:induction false} RankUpdate<B>(ws: seq<Worker<B>>, i: nat, w: Worker<B>, most: nat, rank: B -> nat)
    requires i < |ws|
    ensures Rank(ws[i := w], most, rank) + WorkerRank(ws[i], most, rank) == Rank(ws, most, rank) + WorkerRank(w, most, rank)
  {
    var n := |ws| - 1;
    if i < n {
      RankUpdate(ws[..n], i, w, most, rank);
      assert ws[i := w][..n] == ws[..n][i := w];
    } else {
      assert ws[i := w][..n] == ws[..n];
    }
  }

  /** Every move leaves less to do, provided a body at work does so too. */
  lemma RankFalls<B>(p: Pool<B>, m: Move<B>, init: B, capacity: nat, most: nat, rank: B -> nat)
    requires Enabled(p, m, capacity) && rank(init) <= most
    requires m.Work? ==> rank(m.body) < rank(p.workers[m.worker].body)
    ensures PoolRank(Apply(p, m, init, capacity), most, rank) < PoolRank(p, most, rank)
  {
    match m
    case Count => RankUpdate(p.workers, p.at, Counted, most, rank);
    case Acquire => RankUpdate(p.workers, p.at, Acquired, most, rank);
    case Start => RankUpdate(p.workers, p.at, Running(init), most, rank);
    case Work(i, body) => RankUpdate(p.workers, i, Running(body), most, rank);
    case Release(i) => RankUpdate(p.workers, i, Released(p.workers[i].body), most, rank);
    case Finish(i) => RankUpdate(p.workers, i, Finished(p.workers[i].body), most, rank);
    case Return =>
  }

  lemma {:induction false} RankNew<B>(n: nat, most: nat, rank: B -> nat)
    ensures PoolRank(NewPool<B>(n), most, rank) == n * (5 + most) + 1
  {
    if n > 0 {
      RankNew(n - 1, most, rank);
      assert seq<Worker<B>>(n, _ => NotStarted)[..n - 1] == seq(n - 1, _ => NotStarted);
    }
  }
}
