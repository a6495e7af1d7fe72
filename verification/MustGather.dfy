/** Namespace inspection and collector runs of must-gather as steps of concurrent goroutines. */
module MustGather {
  import opened Wrappers
  import opened Pools

  const MAX_NAMESPACES := 5
  const MAX_RESOURCES := 10
  const MAX_PODS := 10

  /** What there is to inspect: how many kinds of resource, and how many pods each namespace would list. */
  datatype Work = Work(resources: nat, pods: seq<nat>)

  /**
   The goroutine of one namespace. Its resource pool is over before pods are listed. In the end it has no resource pool
   when the namespace could not be fetched, and no pod pool when its pods could not be listed.
   */
  datatype Inspection =
    | Fetching
    | Resources(resources: Pool<()>)
    | Listing(resources: Pool<()>)
    | Pods(resources: Pool<()>, pods: Pool<()>)
    | Ended(fetched: Option<Pool<()>>, listed: Option<Pool<()>>)

  /** A goroutine for one resource or pod runs through without further steps of its own. */
  ghost predicate LeafStep(p: Pool<()>, q: Pool<()>, capacity: nat) {
    exists m: Move<()> :: !m.Work? && Enabled(p, m, capacity) && q == Apply(p, m, (), capacity)
  }

  /** Fetching the namespace and listing its pods may fail, which ends the inspection. */
  ghost predicate InspectionStep(b: Inspection, c: Inspection, resources: nat, pods: nat) {
    match b
    case Fetching => c == Ended(None, None) || c == Resources(NewPool(resources))
    case Resources(p) => (c.Resources? && LeafStep(p, c.resources, MAX_RESOURCES)) || (p.returned && c == Listing(p))
    case Listing(p) => c == Ended(Some(p), None) || c == Pods(p, NewPool(pods))
    case Pods(r, p) => (c.Pods? && c.resources == r && LeafStep(p, c.pods, MAX_PODS)) || (p.returned && c == Ended(Some(r), Some(p)))
    case Ended(_, _) => false
  }

  type System = Pool<Inspection>

  function Init(work: Work): System {
    NewPool(|work.pods|)
  }

  ghost predicate Allowed(work: Work, s: System, m: Move<Inspection>)
    requires |s.workers| == |work.pods| && Enabled(s, m, MAX_NAMESPACES)
  {
    && (m.Work? ==> InspectionStep(s.workers[m.worker].body, m.body, work.resources, work.pods[m.worker]))
    && (m.Release? ==> s.workers[m.worker].body.Ended?)
  }

  ghost predicate Step(work: Work, s: System, t: System) {
    |s.workers| == |work.pods| &&
    exists m :: Enabled(s, m, MAX_NAMESPACES) && Allowed(work, s, m) && t == Apply(s, m, Fetching, MAX_NAMESPACES)
  }

  // -------- the invariant

  /** A pool over `n` items that has been waited for, if `over`. */
  ghost predicate PoolInv(p: Pool<()>, capacity: nat, n: nat, over: bool) {
    Inv(p, capacity) && |p.workers| == n && (over ==> p.returned)
  }

  ghost predicate InspectionInv(b: Inspection, resources: nat, pods: nat) {
    match b
    case Fetching => true
    case Resources(p) => PoolInv(p, MAX_RESOURCES, resources, false)
    case Listing(p) => PoolInv(p, MAX_RESOURCES, resources, true)
    case Pods(r, p) => PoolInv(r, MAX_RESOURCES, resources, true) && PoolInv(p, MAX_PODS, pods, false)
    case Ended(r, p) =>
      && (r.Some? ==> PoolInv(r.value, MAX_RESOURCES, resources, true))
      && (p.Some? ==> r.Some? && PoolInv(p.value, MAX_PODS, pods, true))
  }

  predicate HasBody(w: Worker<Inspection>) {
    w.Running? || w.Released? || w.Finished?
  }

  /** The invariant of one goroutine; it gives its slot back only at its end. */
  ghost predicate WorkerInv(w: Worker<Inspection>, resources: nat, pods: nat) {
    && (HasBody(w) ==> InspectionInv(w.body, resources, pods))
    && (w.Released? || w.Finished? ==> w.body.Ended?)
  }

  ghost predicate SystemInv(work: Work, s: System) {
    && |s.workers| == |work.pods| && Inv(s, MAX_NAMESPACES)
    && (forall k :: 0 <= k < |s.workers| ==> WorkerInv(s.workers[k], work.resources, work.pods[k]))
  }

  lemma LeafInv(p: Pool<()>, q: Pool<()>, capacity: nat)
    requires Inv(p, capacity) && LeafStep(p, q, capacity)
    ensures Inv(q, capacity) && |q.workers| == |p.workers|
  {
    var m: Move<()> :| !m.Work? && Enabled(p, m, capacity) && q == Apply(p, m, (), capacity);
    InvStep(p, m, (), capacity);
  }

  lemma InspectionInvStep(b: Inspection, c: Inspection, resources: nat, pods: nat)
    requires InspectionInv(b, resources, pods) && InspectionStep(b, c, resources, pods)
    ensures InspectionInv(c, resources, pods)
  {
    hide Inv, LeafStep;
    InvInit<()>(resources, MAX_RESOURCES);
    InvInit<()>(pods, MAX_PODS);
    if b.Resources? && c.Resources? { LeafInv(b.resources, c.resources, MAX_RESOURCES); }
    if b.Pods? && c.Pods? { LeafInv(b.pods, c.pods, MAX_PODS); }
  }

  lemma SystemInvInit(work: Work)
    ensures SystemInv(work, Init(work))
  {
    InvInit<Inspection>(|work.pods|, MAX_NAMESPACES);
  }

  lemma SystemInvStep(work: Work, s: System, t: System)
    requires SystemInv(work, s) && Step(work, s, t)
    ensures SystemInv(work, t)
  {
    var m :| Enabled(s, m, MAX_NAMESPACES) && Allowed(work, s, m) && t == Apply(s, m, Fetching, MAX_NAMESPACES);
    InvStep(s, m, Fetching, MAX_NAMESPACES);
    if m.Work? {
      assert WorkerInv(s.workers[m.worker], work.resources, work.pods[m.worker]);
      InspectionInvStep(s.workers[m.worker].body, m.body, work.resources, work.pods[m.worker]);
    }
    hide Inv, InspectionInv, InspectionStep, Holding, Living;
    assert InspectionInv(Fetching, work.resources, if s.at < |work.pods| then work.pods[s.at] else 0) by {
      FetchingInv(work.resources, if s.at < |work.pods| then work.pods[s.at] else 0);
    }
  }

  lemma FetchingInv(resources: nat, pods: nat)
    ensures InspectionInv(Fetching, resources, pods)
  {
  }

  /** Bounds in every state: five namespaces at work, in each at most ten resources or ten pods. */
  lemma ConcurrencyBounded(work: Work, s: System, k: nat)
    requires SystemInv(work, s) && k < |s.workers|
    ensures Active(s.workers) <= 5
    ensures s.workers[k].Running? && s.workers[k].body.Resources? ==> Active(s.workers[k].body.resources.workers) <= 10
    ensures s.workers[k].Running? && s.workers[k].body.Pods? ==> Active(s.workers[k].body.pods.workers) <= 10
  {
    Bounded(s, MAX_NAMESPACES);
    assert WorkerInv(s.workers[k], work.resources, work.pods[k]);
    hide Inv, Active;
    if s.workers[k].Running? && s.workers[k].body.Resources? { Bounded(s.workers[k].body.resources, MAX_RESOURCES); }
    if s.workers[k].Running? && s.workers[k].body.Pods? { Bounded(s.workers[k].body.pods, MAX_PODS); }
  }

  /** All `n` items of the pool were started, each exactly once, and are finished. */
  ghost predicate Complete(p: Pool<()>, n: nat) {
    && |p.workers| == n && p.started == seq(n, j => j)
    && forall j :: 0 <= j < n ==> p.workers[j].Finished?
  }

  lemma OverComplete(p: Pool<()>, capacity: nat, n: nat)
    requires PoolInv(p, capacity, n, true)
    ensures Complete(p, n)
  {
    AllHandled(p, capacity);
  }

  /** While pods are collected, every resource of the namespace has been started once and is finished. */
  lemma ResourcesBeforePods(work: Work, s: System, k: nat)
    requires SystemInv(work, s) && k < |s.workers| && s.workers[k].Running? && s.workers[k].body.Pods?
    ensures Complete(s.workers[k].body.resources, work.resources)
  {
    assert WorkerInv(s.workers[k], work.resources, work.pods[k]);
    hide PoolInv, Complete;
    OverComplete(s.workers[k].body.resources, MAX_RESOURCES, work.resources);
  }

  /** An inspection ends with everything done that it got to: its resources once fetched, its pods once listed. */
  lemma EndedComplete(work: Work, s: System, k: nat)
    requires SystemInv(work, s) && k < |s.workers| && HasBody(s.workers[k]) && s.workers[k].body.Ended?
    ensures s.workers[k].body.fetched.Some? ==> Complete(s.workers[k].body.fetched.value, work.resources)
    ensures s.workers[k].body.listed.Some? ==> Complete(s.workers[k].body.listed.value, work.pods[k])
  {
    assert WorkerInv(s.workers[k], work.resources, work.pods[k]);
    hide PoolInv, Complete;
    var b := s.workers[k].body;
    if b.fetched.Some? { OverComplete(b.fetched.value, MAX_RESOURCES, work.resources); }
    if b.listed.Some? { OverComplete(b.listed.value, MAX_PODS, work.pods[k]); }
  }

  /** When collection returns, every namespace was started exactly once and has come to its end. */
  lemma EveryNamespaceOnce(work: Work, s: System)
    requires SystemInv(work, s) && s.returned
    ensures s.started == seq(|work.pods|, j => j)
    ensures forall j :: 0 <= j < |work.pods| ==> s.workers[j].Finished? && s.workers[j].body.Ended?
  {
    AllHandled(s, MAX_NAMESPACES);
    forall j | 0 <= j < |work.pods| ensures s.workers[j].Finished? && s.workers[j].body.Ended? {
      assert WorkerInv(s.workers[j], work.resources, work.pods[j]);
    }
  }

  // -------- what an inspection got to stays known

  /** The namespace was fetched, so its resources are collected. */
  predicate Fetched(w: Worker<Inspection>) {
    HasBody(w) && !w.body.Fetching? && (w.body.Ended? ==> w.body.fetched.Some?)
  }

  /** The pods of the namespace were listed, so their logs are collected. */
  predicate Listed(w: Worker<Inspection>) {
    HasBody(w) && (w.body.Pods? || (w.body.Ended? && w.body.listed.Some?))
  }

  lemma GotToStays(work: Work, s: System, t: System, k: nat)
    requires Step(work, s, t) && k < |s.workers|
    ensures |t.workers| == |s.workers|
    ensures Fetched(s.workers[k]) ==> Fetched(t.workers[k])
    ensures Listed(s.workers[k]) ==> Listed(t.workers[k])
  {
    hide LeafStep, Inv;
    var m :| Enabled(s, m, MAX_NAMESPACES) && Allowed(work, s, m) && t == Apply(s, m, Fetching, MAX_NAMESPACES);
  }

  // -------- no deadlock

  lemma LeafLively(p: Pool<()>, capacity: nat) returns (q: Pool<()>)
    requires Inv(p, capacity) && capacity > 0 && !p.returned
    ensures LeafStep(p, q, capacity)
  {
    var m, working := Lively(p, capacity);
    if working.Some? {
      m := Release(working.value);
    }
    q := Apply(p, m, (), capacity);
  }

  lemma InspectionLively(b: Inspection, work: Work, pods: nat) returns (c: Inspection)
    requires InspectionInv(b, work.resources, pods) && !b.Ended?
    ensures InspectionStep(b, c, work.resources, pods)
  {
    hide Inv, LeafStep;
    match b {
      case Fetching => c := Ended(None, None);
      case Listing(p) => c := Ended(Some(p), None);
      case Resources(p) =>
        if p.returned {
          c := Listing(p);
        } else {
          var q := LeafLively(p, MAX_RESOURCES);
          c := Resources(q);
        }
      case Pods(r, p) =>
        if p.returned {
          c := Ended(Some(r), Some(p));
        } else {
          var q := LeafLively(p, MAX_PODS);
          c := Pods(r, q);
        }
    }
  }

  /** Until collection returns, some step is possible. */
  lemma NoDeadlock(work: Work, s: System) returns (t: System)
    requires SystemInv(work, s) && !s.returned
    ensures Step(work, s, t)
  {
    hide InspectionStep, InspectionInv;
    var m, working := Lively(s, MAX_NAMESPACES);
    hide Inv;
    if working.Some? {
      var i := working.value;
      assert WorkerInv(s.workers[i], work.resources, work.pods[i]);
      if s.workers[i].body.Ended? {
        m := Release(i);
      } else {
        var c := InspectionLively(s.workers[i].body, work, work.pods[i]);
        m := Move.Work(i, c);
      }
    }
    assert Enabled(s, m, MAX_NAMESPACES) && Allowed(work, s, m);
    t := Apply(s, m, Fetching, MAX_NAMESPACES);
  }

  // -------- termination

  function Most(pods: seq<nat>): (r: nat)
    ensures forall k :: 0 <= k < |pods| ==> pods[k] <= r
  {
    if pods == [] then 0
    else
      var init := Most(pods[..|pods| - 1]);
      if pods[|pods| - 1] > init then pods[|pods| - 1] else init
  }

  function LeafRank(b: ()): nat { 0 }

  function InspectionRank(b: Inspection, work: Work): nat {
    match b
    case Fetching => 5 * work.resources + 5 * Most(work.pods) + 6
    case Resources(p) => PoolRank(p, 0, LeafRank) + 5 * Most(work.pods) + 4
    case Listing(p) => 5 * Most(work.pods) + 3
    case Pods(r, p) => PoolRank(p, 0, LeafRank) + 1
    case Ended(_, _) => 0
  }

  function MostSteps(work: Work): nat {
    5 * work.resources + 5 * Most(work.pods) + 6
  }

  function SystemRank(work: Work, s: System): nat {
    PoolRank(s, MostSteps(work), b => InspectionRank(b, work))
  }

  lemma LeafRankFalls(p: Pool<()>, q: Pool<()>, capacity: nat)
    requires LeafStep(p, q, capacity)
    ensures PoolRank(q, 0, LeafRank) < PoolRank(p, 0, LeafRank)
  {
    var m: Move<()> :| !m.Work? && Enabled(p, m, capacity) && q == Apply(p, m, (), capacity);
    RankFalls(p, m, (), capacity, 0, LeafRank);
  }

  lemma InspectionRankFalls(b: Inspection, c: Inspection, work: Work, k: nat)
    requires k < |work.pods| && InspectionStep(b, c, work.resources, work.pods[k])
    ensures InspectionRank(c, work) < InspectionRank(b, work)
  {
    hide LeafStep, PoolRank;
    RankNew<()>(work.resources, 0, LeafRank);
    RankNew<()>(work.pods[k], 0, LeafRank);
    if b.Resources? && c.Resources? { LeafRankFalls(b.resources, c.resources, MAX_RESOURCES); }
    if b.Pods? && c.Pods? { LeafRankFalls(b.pods, c.pods, MAX_PODS); }
  }

  /** Every step leaves less to do. */
  lemma SystemRankFalls(work: Work, s: System, t: System)
    requires Step(work, s, t)
    ensures SystemRank(work, t) < SystemRank(work, s)
  {
    hide InspectionStep, InspectionRank, Most;
    var m :| Enabled(s, m, MAX_NAMESPACES) && Allowed(work, s, m) && t == Apply(s, m, Fetching, MAX_NAMESPACES);
    if m.Work? {
      InspectionRankFalls(s.workers[m.worker].body, m.body, work, m.worker);
    }
    FetchingRank(work);
    RankFalls(s, m, Fetching, MAX_NAMESPACES, MostSteps(work), b => InspectionRank(b, work));
  }

  lemma FetchingRank(work: Work)
    ensures InspectionRank(Fetching, work) == MostSteps(work)
  {
  }

  // -------- whole runs

  ghost predicate Run(work: Work, states: seq<System>) {
    && |states| > 0 && states[0] == Init(work)
    && forall k :: 0 <= k < |states| - 1 ==> Step(work, states[k], states[k + 1])
  }

  lemma {:induction false} RunInv(work: Work, states: seq<System>, k: nat)
    requires Run(work, states) && k < |states|
    ensures SystemInv(work, states[k])
    ensures k + SystemRank(work, states[k]) <= SystemRank(work, Init(work))
  {
    if k == 0 {
      SystemInvInit(work);
    } else {
      RunInv(work, states, k - 1);
      var s, t := states[k - 1], states[k];
      assert Step(work, s, t);
      hide Step, SystemInv, SystemRank;
      SystemInvStep(work, s, t);
      SystemRankFalls(work, s, t);
    }
  }

  lemma RunWidth(work: Work, states: seq<System>, i: nat)
    requires Run(work, states) && i < |states|
    ensures |states[i].workers| == |work.pods|
  {
    RunInv(work, states, i);
    hide Run, SystemRank;
  }

  lemma RunStep(work: Work, states: seq<System>, k: nat)
    requires Run(work, states) && k + 1 < |states|
    ensures Step(work, states[k], states[k + 1])
  {
  }

  lemma {:induction false} GotToLater(work: Work, states: seq<System>, i: nat, j: nat, k: nat)
    requires Run(work, states) && i <= j < |states| && k < |work.pods|
    ensures |states[i].workers| == |work.pods| == |states[j].workers|
    ensures Fetched(states[i].workers[k]) ==> Fetched(states[j].workers[k])
    ensures Listed(states[i].workers[k]) ==> Listed(states[j].workers[k])
  {
    hide Run, Step, Fetched, Listed;
    RunWidth(work, states, i);
    if i < j {
      GotToLater(work, states, i, j - 1, k);
      RunStep(work, states, j - 1);
      GotToStays(work, states[j - 1], states[j], k);
    }
  }

  /** At `last` the inspection of namespace `k` is over, with all resources done if it was fetched by `s`, and all pods if they were listed. */
  ghost predicate DoneSince(work: Work, s: System, last: System, k: nat)
    requires k < |work.pods|
  {
    && |s.workers| == |work.pods| == |last.workers|
    && last.workers[k].Finished? && last.workers[k].body.Ended?
    && var end := last.workers[k].body;
       && (Fetched(s.workers[k]) ==> end.fetched.Some? && Complete(end.fetched.value, work.resources))
       && (Listed(s.workers[k]) ==> end.listed.Some? && Complete(end.listed.value, work.pods[k]))
  }

  ghost predicate AllDone(work: Work, states: seq<System>, last: System) {
    forall i, k :: 0 <= i < |states| && 0 <= k < |work.pods| ==> DoneSince(work, states[i], last, k)
  }

  lemma ReturnedDone(work: Work, states: seq<System>, i: nat, k: nat)
    requires Run(work, states) && states[|states| - 1].returned && i < |states| && k < |work.pods|
    ensures DoneSince(work, states[i], states[|states| - 1], k)
  {
    var last := states[|states| - 1];
    RunInv(work, states, |states| - 1);
    GotToLater(work, states, i, |states| - 1, k);
    EveryNamespaceOnce(work, last);
    hide SystemInv, Run, Complete;
    EndedComplete(work, last, k);
  }

  ghost predicate Stuck(work: Work, s: System) {
    forall t :: !Step(work, s, t)
  }

  /**
   Every run is finite, with a bound known in advance, and can only stop by returning. Every namespace was then handled
   exactly once, and all resources of those ever fetched and all pods of those ever listed were collected exactly once.
   */
  lemma RunsReturn(work: Work, states: seq<System>)
    requires Run(work, states)
    ensures |states| <= |work.pods| * (5 + MostSteps(work)) + 2
    ensures Stuck(work, states[|states| - 1]) ==> states[|states| - 1].returned
    ensures states[|states| - 1].returned ==> states[|states| - 1].started == seq(|work.pods|, j => j)
    ensures states[|states| - 1].returned ==> AllDone(work, states, states[|states| - 1])
  {
    var last := states[|states| - 1];
    RunInv(work, states, |states| - 1);
    RankNew<Inspection>(|work.pods|, MostSteps(work), b => InspectionRank(b, work));
    if last.returned {
      forall i, k | 0 <= i < |states| && 0 <= k < |work.pods| ensures DoneSince(work, states[i], last, k) {
        ReturnedDone(work, states, i, k);
      }
    }
    hide SystemInv, Step, AllDone, Run;
    if !last.returned {
      var t := NoDeadlock(work, last);
    } else {
      EveryNamespaceOnce(work, last);
    }
  }
}
