/**
 The reconciler and the collector workload: a forwarder runs as a DaemonSet or as a Deployment. Every call to the API
 server may fail before or after it took effect, and a reconcile may stop at any of its errors.
 */
module Workload {
  import opened Wrappers
  import opened Calls
  import opened Api
  import opened Conditions
  import opened Components
  import opened Migration
  import opened Checks
  import opened Permissions
  import opened Gate
  import opened GateProofs
  import Conf

  /** Which objects the API server holds for the forwarder. */
  datatype Workloads = Workloads(daemonSet: bool, deployment: bool)

  /**
   How the calls of one reconcile turn out; `prepared` and `finished` stand for the steps around generation, `same` says
   that the workload found is as it should be.
   */
  datatype Attempt = Attempt(
    fetched: bool, initialized: bool, world: World, now: int,
    check: Call, remove: Call, prepared: bool, find: Call, same: bool, write: Call, finished: bool, patch: Call, errorText: string)

  /** The types of the inputs, as `InputTypes` collects them. */
  function InputTypes(inputs: seq<InputSpec>): set<InputType> {
    set i | i in inputs :: i.kind
  }

  predicate DeployAsDeployment(annotated: bool, inputs: seq<InputSpec>) {
    annotated && InputTypes(inputs) == {Receiver}
  }

  /** With the annotation, a forwarder with inputs is a Deployment exactly when all of them are receivers. */
  lemma DeploymentExact(annotated: bool, inputs: seq<InputSpec>)
    ensures DeployAsDeployment(annotated, inputs) <==> annotated && inputs != [] && forall i :: i in inputs ==> i.kind == Receiver
  {
    if inputs != [] {
      assert inputs[0].kind in InputTypes(inputs);
    }
    forall i | i in inputs ensures i.kind in InputTypes(inputs) {
    }
  }

  predicate MustUndeployCollector(conditions: seq<Condition>) {
    exists c :: c in conditions && c.kind == AUTHORIZED && c.status == False
  }

  // -------- what a reconcile does to the workloads

  datatype Course = Untouched | Undeploy(asDeployment: bool) | Deploy(asDeployment: bool, generated: bool)

  function Has(w: Workloads, deployment: bool): bool {
    if deployment then w.deployment else w.daemonSet
  }

  function With(w: Workloads, deployment: bool, exist: bool): Workloads {
    if deployment then w.(deployment := exist) else w.(daemonSet := exist)
  }

  function Removed(w: Workloads, deployment: bool, a: Attempt): Workloads {
    if a.check == Done && a.remove.Took() then With(w, deployment, false) else w
  }

  predicate RemoveOk(w: Workloads, deployment: bool, a: Attempt) {
    a.check == Done && (Has(w, deployment) ==> a.remove == Done)
  }

  /** What is there and as it should be is not written. */
  predicate ApplyOk(w: Workloads, deployment: bool, a: Attempt) {
    a.find == Done && (a.write == Done || (Has(w, deployment) && a.same))
  }

  function After(w: Workloads, c: Course, a: Attempt): Workloads {
    match c
    case Untouched => w
    case Undeploy(d) => Removed(w, d, a)
    case Deploy(d, generated) =>
      var cleared := Removed(w, !d, a);
      if RemoveOk(w, !d, a) && a.prepared && generated && a.find == Done && a.write.Took() then With(cleared, d, true) else cleared
  }

  predicate Succeeds(w: Workloads, c: Course, a: Attempt) {
    c.Deploy? && RemoveOk(w, !c.asDeployment, a) && a.prepared && c.generated && ApplyOk(w, c.asDeployment, a) && a.finished
  }

  /** The Ready condition that a reconcile on this course ends with. */
  function ReadyAfter(w: Workloads, c: Course, a: Attempt): Verdict {
    if !c.Deploy? then REJECTED
    else if !RemoveOk(w, !c.asDeployment, a) then Verdict(READY, False, "FailureToRemoveStaleWorkload", a.errorText)
    else if a.prepared && !c.generated then PANICKED
    else if !Succeeds(w, c, a) then Verdict(READY, False, "DeploymentError", a.errorText)
    else Verdict(READY, True, "ReconciliationComplete", "")
  }

  // -------- the reconciler

  datatype Store = Store(present: bool, deleting: bool, unmanaged: bool, annotated: bool, spec: ForwarderSpec, status: Status, workloads: Workloads)

  predicate Managed(s: Store, a: Attempt) {
    a.fetched && s.present && !s.deleting && !s.unmanaged
  }

  class Cluster {
    const name: string
    var store: Store

    constructor (name: string, store: Store)
      ensures this.name == name && this.store == store
    {
      this.name, this.store := name, store;
    }

    /** `RemoveDaemonset` and `RemoveDeployment`: a get, and a delete of what is there. */
    method Remove(deployment: bool, a: Attempt) returns (ok: bool)
      modifies this
      ensures store == old(store).(workloads := Removed(old(store.workloads), deployment, a))
      ensures ok <==> RemoveOk(old(store.workloads), deployment, a)
    {
      if a.check != Done {
        return false;
      }
      if !Has(store.workloads, deployment) {
        return true;
      }
      if a.remove.Took() {
        store := store.(workloads := With(store.workloads, deployment, false));
      }
      return a.remove == Done;
    }

    /** `ReconcileDaemonset` and `ReconcileDeployment`: create what is missing, update what is there and differs. */
    method Apply(deployment: bool, a: Attempt) returns (ok: bool)
      modifies this
      ensures store == old(store).(workloads := if a.find == Done && a.write.Took() then With(old(store.workloads), deployment, true)
                                                else old(store.workloads))
      ensures ok <==> ApplyOk(old(store.workloads), deployment, a)
    {
      if a.find != Done {
        return false;
      }
      if Has(store.workloads, deployment) {
        return a.same || a.write == Done;
      }
      if a.write.Took() {
        store := store.(workloads := With(store.workloads, deployment, true));
      }
      return a.write == Done;
    }

    /** The deferred status update. */
    method UpdateStatus(f: Forwarder, ready: Verdict, a: Attempt)
      requires f.Valid()
      modifies this, f.Lists()
      ensures store == old(store).(status := Patched(old(store.status), old(f.Snapshot()), ready, a))
    {
      var changed := f.conditions.SetCondition(ready, a.now);
      if a.patch.Took() {
        store := store.(status := Merge(store.status, f.Snapshot()));
      }
    }

    /** `Reconcile`; None when it ends without touching the status. */
    method Reconcile(a: Attempt) returns (ready: Option<Truth>, ghost course: Course)
      modifies this
      ensures store == old(store).(status := store.status, workloads := After(old(store.workloads), course, a))
      ensures ready == Some(True) <==> Succeeds(old(store.workloads), course, a)
      ensures ready.None? ==> store == old(store)
      ensures Reconciled(old(store), name, a, course, store.status)
    {
      hide UniqueStatus, UniqueSpec, Refreshed, Stopped, Unique, Compile, PipelinesPanic, IsMigration, MigrationPanics, DeployAsDeployment,
           MustUndeployCollector, Removed, Kept, KindsOf, Patched, After, ReadyAfter, InputNames, Succeeds, REJECTED, PANICKED, UNMANAGED, RunsOn;
      course := Untouched;
      UntouchedKeeps(store.workloads, a);
      if !a.fetched || !store.present || store.deleting {
        return None, course;
      }
      var f := new Forwarder(name, store.spec, store.status);
      if store.unmanaged {
        f.RemoveStaleStatuses();
        assert f.Snapshot() == StaleRemoved(store.status, store.spec);
        UpdateStatus(f, UNMANAGED, a);
        return Some(Unknown), course;
      }
      ready := Some(False);
      if !a.initialized {
        f.RemoveStaleStatuses();
        assert f.Snapshot() == StaleRemoved(store.status, store.spec);
        var migrated := f.Initialize();
        UpdateStatus(f, if migrated.Panic? then PANICKED else InitializationFailed(a), a);
        return;
      }
      var truth;
      truth, course := Manage(f, a);
      ready := Some(truth);
    }

    /** From validation on. */
    method Manage(f: Forwarder, a: Attempt) returns (ready: Truth, ghost course: Course)
      requires f.Valid() && f.name == name && f.spec == store.spec && f.Snapshot() == store.status
      modifies this, f`spec, f.Lists()
      ensures store == old(store).(status := store.status, workloads := After(old(store.workloads), course, a))
      ensures ready == True <==> Succeeds(old(store.workloads), course, a)
      ensures if MigrationPanics(old(store.spec)) then
                course == Untouched && store.status == Patched(old(store.status), StaleRemoved(old(store.status), old(store.spec)), PANICKED, a)
              else RunsOn(old(store), name, a, course, store.status)
    {
      hide UniqueStatus, UniqueSpec, Refreshed, Stopped, Unique, Compile, PipelinesPanic, IsMigration, MigrationPanics, DeployAsDeployment,
           MustUndeployCollector, Removed, Kept, KindsOf, Patched, After, ReadyAfter, InputNames, Succeeds, REJECTED, PANICKED, RunsOn, StaleRemoved;
      course, ready := Untouched, False;
      UntouchedKeeps(store.workloads, a);
      assert StaleRemoved(store.status, store.spec) == Pruned(store.status, InputNames(store.spec.inputs), store.spec) by { StaleIsPruned(store.status, store.spec); }
      hide Pruned;
      var refreshed, order, done := Refresh(f, a.world, a.now);
      ghost var after := f.Snapshot();
      if refreshed.Panic? {
        UpdateStatus(f, PANICKED, a);
        if !MigrationPanics(old(store.spec)) {
          StoppedRunsOn(old(store), name, a, f.spec, order, done, after);
        }
        return;
      }
      var deployment := DeployAsDeployment(store.annotated, f.spec.inputs);
      if !refreshed.value {
        course := Reject(f, deployment, a);
        ChosenRunsOn(old(store), name, a, course, f.spec, order, false, after);
        return;
      }
      var verdict;
      verdict, course := DeployCollector(f.spec, deployment, a);
      ChosenRunsOn(old(store), name, a, course, f.spec, order, true, after);
      UpdateStatus(f, verdict, a);
      ready := verdict.status;
    }

    /** The spec does not pass; its collector goes when permissions are missing. */
    method Reject(f: Forwarder, deployment: bool, a: Attempt) returns (ghost course: Course)
      requires f.Valid()
      modifies this, f.Lists()
      ensures course == if MustUndeployCollector(old(f.conditions.items)) then Undeploy(deployment) else Untouched
      ensures store == old(store).(status := Patched(old(store.status), old(f.Snapshot()), ReadyAfter(old(store.workloads), course, a), a),
                                   workloads := After(old(store.workloads), course, a))
      ensures !Succeeds(old(store.workloads), course, a)
    {
      hide MustUndeployCollector, Removed, Patched, After, ReadyAfter, Succeeds;
      course := Untouched;
      if MustUndeployCollector(f.conditions.items) {
        course := Undeploy(deployment);
        var removed := Remove(deployment, a);
      }
      NotDeployed(old(store.workloads), course, a);
      UpdateStatus(f, REJECTED, a);
    }

    /** `RemoveStaleWorkload` and `ReconcileCollector` */
    method DeployCollector(spec: ForwarderSpec, deployment: bool, a: Attempt) returns (ready: Verdict, ghost course: Course)
      modifies this
      ensures course == Deploy(deployment, Compile(spec).Ok?)
      ensures store == old(store).(workloads := After(old(store.workloads), course, a))
      ensures ready == ReadyAfter(old(store.workloads), course, a)
      ensures ready.status == True <==> Succeeds(old(store.workloads), course, a)
    {
      hide Compile;
      course := Deploy(deployment, Compile(spec).Ok?);
      var removed := Remove(!deployment, a);
      if !removed {
        return Verdict(READY, False, "FailureToRemoveStaleWorkload", a.errorText), course;
      }
      if !a.prepared {
        return Verdict(READY, False, "DeploymentError", a.errorText), course;
      }
      var config := Conf.Conf(spec);
      if config.Panic? {
        return PANICKED, course;
      }
      var applied := Apply(deployment, a);
      if !applied || !a.finished {
        return Verdict(READY, False, "DeploymentError", a.errorText), course;
      }
      return Verdict(READY, True, "ReconciliationComplete", ""), course;
    }
  }

  lemma UntouchedKeeps(w: Workloads, a: Attempt)
    ensures After(w, Untouched, a) == w && !Succeeds(w, Untouched, a)
  {
  }

  lemma NotDeployed(w: Workloads, c: Course, a: Attempt)
    requires !c.Deploy?
    ensures After(w, c, a) == (if c.Undeploy? then Removed(w, c.asDeployment, a) else w) && !Succeeds(w, c, a)
    ensures ReadyAfter(w, c, a) == REJECTED
  {
  }

  // -------- the stored status

  const UNMANAGED := Verdict(READY, Unknown, "ManagementStateUnmanaged", "Updates are ignored when the managementState is Unmanaged")

  const REJECTED := Verdict(READY, False, "ValidationFailure", "collector not ready")

  /** The Ready condition that the deferred update writes while a panic unwinds. */
  const PANICKED := Verdict(READY, False, "UnknownState", "")

  function InitializationFailed(a: Attempt): Verdict {
    Verdict(READY, False, "InitializationFailed", a.errorText)
  }

  /** The Ready condition is set, and the whole status merged into the stored one if the patch takes. */
  function Patched(stored: Status, written: Status, ready: Verdict, a: Attempt): Status {
    if a.patch.Took() then Merge(stored, written.(conditions := Set(written.conditions, ready, a.now))) else stored
  }

  ghost function StaleRemoved(stored: Status, spec: ForwarderSpec): Status {
    Pruned(stored, InputNames(spec.inputs), spec)
  }

  /** All that one reconcile does: the course it takes with the workloads and the status it stores. */
  ghost predicate Reconciled(s: Store, name: string, a: Attempt, course: Course, status: Status) {
    if !a.fetched || !s.present || s.deleting then course == Untouched && status == s.status
    else if s.unmanaged then course == Untouched && status == Patched(s.status, StaleRemoved(s.status, s.spec), UNMANAGED, a)
    else if MigrationPanics(s.spec) then course == Untouched && status == Patched(s.status, StaleRemoved(s.status, s.spec), PANICKED, a)
    else if !a.initialized then
      course == Untouched && status == Patched(s.status, StaleRemoved(s.status, s.spec), InitializationFailed(a), a)
    else RunsOn(s, name, a, course, status)
  }

  /** Past initialization: the refresh stops at a missing section, or comes to a verdict and the course follows it. */
  ghost predicate RunsOn(s: Store, name: string, a: Attempt, course: Course, status: Status) {
    || (course == Untouched && exists migrated, order, done, after ::
          StoppedAt(s, name, a, migrated, order, done, after) && status == Patched(s.status, after, PANICKED, a))
    || exists migrated, order, valid, after ::
         ChosenBy(s, name, a, course, migrated, order, valid, after) && status == Patched(s.status, after, ReadyAfter(s.workloads, course, a), a)
  }

  lemma StaleIsPruned(stored: Status, spec: ForwarderSpec)
    ensures StaleRemoved(stored, spec) == Pruned(stored, InputNames(spec.inputs), spec)
  {
  }

  lemma StoppedRunsOn(s: Store, name: string, a: Attempt, migrated: ForwarderSpec, order: seq<FilterSpec>, done: nat, after: Status)
    requires Stopped(s.status, s.spec, name, a.world, a.now, migrated, order, done, after)
    ensures RunsOn(s, name, a, Untouched, Patched(s.status, after, PANICKED, a))
  {
    hide Stopped, Patched, PANICKED;
    assert StoppedAt(s, name, a, migrated, order, done, after);
  }

  lemma ChosenRunsOn(s: Store, name: string, a: Attempt, course: Course, migrated: ForwarderSpec, order: seq<FilterSpec>, valid: bool, after: Status)
    requires Refreshed(s.status, s.spec, name, a.world, a.now, migrated, order, valid, after) && course == Chosen(s.annotated, migrated, valid, after)
    ensures RunsOn(s, name, a, course, Patched(s.status, after, ReadyAfter(s.workloads, course, a), a))
  {
    hide Refreshed, Chosen, Patched, ReadyAfter;
    assert ChosenBy(s, name, a, course, migrated, order, valid, after);
  }

  ghost predicate StoppedAt(s: Store, name: string, a: Attempt, migrated: ForwarderSpec, order: seq<FilterSpec>, done: nat, after: Status) {
    Stopped(s.status, s.spec, name, a.world, a.now, migrated, order, done, after)
  }

  ghost function Chosen(annotated: bool, migrated: ForwarderSpec, valid: bool, after: Status): Course {
    var deployment := DeployAsDeployment(annotated, migrated.inputs);
    if valid then Deploy(deployment, Compile(migrated).Ok?)
    else if MustUndeployCollector(after.conditions) then Undeploy(deployment)
    else Untouched
  }

  /** The check of the pipelines runs into a missing section once the inputs are migrated. */
  ghost predicate ChecksPanic(spec: ForwarderSpec, name: string) {
    exists inputs :: IsMigration(spec, name, inputs) && PipelinesPanic(spec.pipelines, spec.(inputs := inputs))
  }

  ghost predicate ChosenBy(s: Store, name: string, a: Attempt, course: Course, migrated: ForwarderSpec, order: seq<FilterSpec>, valid: bool, after: Status) {
    Refreshed(s.status, s.spec, name, a.world, a.now, migrated, order, valid, after) && course == Chosen(s.annotated, migrated, valid, after)
  }

  /** A managed reconcile that validates deploys; one that fails on permissions undeploys; all others leave the workloads alone. */
  ghost predicate CourseOf(s: Store, name: string, a: Attempt, course: Course) {
    if !Managed(s, a) || !a.initialized || MigrationPanics(s.spec) then course == Untouched
    else
      || (course == Untouched && ChecksPanic(s.spec, name))
      || exists migrated, order, valid, after :: ChosenBy(s, name, a, course, migrated, order, valid, after)
  }

  lemma ReconciledCourse(s: Store, name: string, a: Attempt, course: Course, status: Status)
    requires Reconciled(s, name, a, course, status)
    ensures CourseOf(s, name, a, course)
  {
    hide Refreshed, Patched, MigrationPanics, IsMigration, PipelinesPanic, HostNamePanics, Chosen, Partly, ReadyAfter;
    if Managed(s, a) && a.initialized && !MigrationPanics(s.spec) {
      if migrated, order, valid, after :|
        ChosenBy(s, name, a, course, migrated, order, valid, after) && status == Patched(s.status, after, ReadyAfter(s.workloads, course, a), a)
      {
      } else {
        var migrated, order, done, after :| StoppedAt(s, name, a, migrated, order, done, after) && status == Patched(s.status, after, PANICKED, a);
        assert migrated == s.spec.(inputs := migrated.inputs);
        PanicAt(migrated, done);
      }
    }
  }

  lemma PanicAt(spec: ForwarderSpec, k: nat)
    requires k < |spec.pipelines| && HostNamePanics(spec.pipelines[k], spec)
    ensures PipelinesPanic(spec.pipelines, spec)
  {
    hide HostNamePanics;
    assert spec.pipelines[k] in spec.pipelines;
  }

  lemma PatchedUnique(stored: Status, written: Status, ready: Verdict, a: Attempt)
    requires UniqueStatus(stored) && UniqueStatus(written)
    ensures UniqueStatus(Patched(stored, written, ready, a))
  {
    hide Unique, Set;
    SetUnique(written.conditions, ready, a.now);
    var all := written.(conditions := Set(written.conditions, ready, a.now));
    assert UniqueStatus(all);
    MergeUnique(stored, all);
  }

  /** A reconcile keeps the condition types of the stored status unique. */
  lemma ReconciledUnique(s: Store, name: string, a: Attempt, course: Course, status: Status)
    requires Reconciled(s, name, a, course, status) && UniqueStatus(s.status) && UniqueSpec(s.spec)
    ensures UniqueStatus(status)
  {
    hide Refreshed, Stopped, Patched, MigrationPanics, UniqueStatus, UniqueSpec, Chosen, ReadyAfter, Pruned, InputNames;
    PrunedUnique(s.status, s.spec);
    if !a.fetched || !s.present || s.deleting {
    } else if s.unmanaged {
      PatchedUnique(s.status, StaleRemoved(s.status, s.spec), UNMANAGED, a);
    } else if MigrationPanics(s.spec) {
      PatchedUnique(s.status, StaleRemoved(s.status, s.spec), PANICKED, a);
    } else if !a.initialized {
      PatchedUnique(s.status, StaleRemoved(s.status, s.spec), InitializationFailed(a), a);
    } else if migrated, order, valid, after :|
      ChosenBy(s, name, a, course, migrated, order, valid, after) && status == Patched(s.status, after, ReadyAfter(s.workloads, course, a), a)
    {
      TypesStayUnique(s.status, s.spec, name, a.world, a.now, migrated, order, valid, after);
      PatchedUnique(s.status, after, ReadyAfter(s.workloads, course, a), a);
    } else {
      var migrated, order, done, after :| StoppedAt(s, name, a, migrated, order, done, after) && status == Patched(s.status, after, PANICKED, a);
      StoppedUnique(s.status, s.spec, name, a.world, a.now, migrated, order, done, after);
      PatchedUnique(s.status, after, PANICKED, a);
    }
  }

  // -------- the stored Ready condition

  lemma PatchedReady(stored: Status, written: Status, ready: Verdict, a: Attempt)
    requires a.patch.Took() && ready.kind == READY && Find(written.conditions, READY) == Find(stored.conditions, READY)
    ensures Find(Patched(stored, written, ready, a).conditions, READY) == Some(Stamp(ready, Since(stored.conditions, ready, a.now)))
  {
    SetFind(written.conditions, ready, a.now, READY);
    assert Set(written.conditions, ready, a.now) != [];
  }

  lemma StoppedReady(prior: Status, spec: ForwarderSpec, name: string, world: World, now: int,
                     migrated: ForwarderSpec, order: seq<FilterSpec>, done: nat, after: Status)
    requires Stopped(prior, spec, name, world, now, migrated, order, done, after) && UniqueStatus(prior)
    ensures Find(after.conditions, READY) == Find(prior.conditions, READY)
  {
    OwnTypesDiffer();
    CheckedAt(prior.conditions, migrated, world, now, READY);
  }

  /**
   A patch that takes stores one Ready verdict, whose time moves exactly when its status flips. It is True exactly when the
   reconcile went through, and Unknown exactly when the forwarder is not managed.
   */
  lemma ReadyTime(s: Store, name: string, a: Attempt, course: Course, status: Status) returns (ready: Verdict)
    requires Reconciled(s, name, a, course, status) && UniqueStatus(s.status)
    requires a.fetched && s.present && !s.deleting && a.patch.Took()
    ensures Find(status.conditions, READY) == Some(Stamp(ready, Since(s.status.conditions, ready, a.now)))
    ensures ready.status == True <==> !s.unmanaged && Succeeds(s.workloads, course, a)
    ensures ready.status == Unknown <==> s.unmanaged
  {
    hide Refreshed, Stopped, Patched, MigrationPanics, UniqueSpec, Chosen, InputNames, Kept, KindsOf, Succeeds, RemoveOk;
    var stale := StaleRemoved(s.status, s.spec);
    UntouchedKeeps(s.workloads, a);
    if s.unmanaged || MigrationPanics(s.spec) || !a.initialized {
      ready := if s.unmanaged then UNMANAGED else if MigrationPanics(s.spec) then PANICKED else InitializationFailed(a);
      PatchedReady(s.status, stale, ready, a);
    } else if migrated, order, valid, after :|
      ChosenBy(s, name, a, course, migrated, order, valid, after) && status == Patched(s.status, after, ReadyAfter(s.workloads, course, a), a)
    {
      ready := ReadyAfter(s.workloads, course, a);
      ReadyVerdicts(s.workloads, course, a);
      hide ReadyAfter;
      OwnTypesDiffer();
      OwnTimes(s.status, s.spec, name, a.world, a.now, migrated, order, valid, after, READY);
      PatchedReady(s.status, after, ready, a);
    } else {
      var migrated, order, done, after :| StoppedAt(s, name, a, migrated, order, done, after) && status == Patched(s.status, after, PANICKED, a);
      ready := PANICKED;
      StoppedReady(s.status, s.spec, name, a.world, a.now, migrated, order, done, after);
      PatchedReady(s.status, after, ready, a);
    }
  }

  lemma ReadyVerdicts(w: Workloads, c: Course, a: Attempt)
    ensures ReadyAfter(w, c, a).kind == READY && ReadyAfter(w, c, a).status != Unknown
    ensures ReadyAfter(w, c, a).status == True <==> Succeeds(w, c, a)
  {
  }

  // -------- one reconcile

  ghost predicate Exclusive(w: Workloads) {
    !(w.daemonSet && w.deployment)
  }

  /** Wherever the calls fail, a reconcile that finds at most one kind of workload leaves at most one. */
  lemma StaysExclusive(w: Workloads, course: Course, a: Attempt)
    requires Exclusive(w)
    ensures Exclusive(After(w, course, a))
  {
  }

  /** Even from both kinds, a successful reconcile leaves exactly the selected one. */
  lemma SuccessLeavesSelected(w: Workloads, course: Course, a: Attempt)
    requires Succeeds(w, course, a)
    ensures After(w, course, a) == Workloads(!course.asDeployment, course.asDeployment)
  {
  }

  /** When its calls succeed, undeploying removes the collector exactly when the other kind was not there. */
  lemma UndeployExact(w: Workloads, course: Course, a: Attempt)
    requires course.Undeploy? && a.check == Done && a.remove == Done
    ensures After(w, course, a) == Workloads(false, false) <==> !Has(w, !course.asDeployment)
  {
  }

  /** What the course says in terms of the spec: deploying means it passes, undeploying that permissions are missing. */
  lemma CourseExact(s: Store, name: string, a: Attempt, course: Course) returns (migrated: ForwarderSpec)
    requires CourseOf(s, name, a, course) && UniqueStatus(s.status) && UniqueSpec(s.spec)
    requires Managed(s, a) && a.initialized && !MigrationPanics(s.spec) && !ChecksPanic(s.spec, name)
    ensures migrated == s.spec.(inputs := migrated.inputs) && IsMigration(s.spec, name, migrated.inputs)
    ensures course.Deploy? <==> SpecPasses(migrated, a.world)
    ensures course.Undeploy? <==> !Permitted(migrated, a.world)
    ensures course != Untouched ==> course.asDeployment == DeployAsDeployment(s.annotated, migrated.inputs)
    ensures course.Deploy? ==> (course.generated <==> Compile(migrated).Ok?)
  {
    var m, order, valid, after :| ChosenBy(s, name, a, course, m, order, valid, after);
    migrated := m;
    hide SpecPasses, Compile, DeployAsDeployment, UniqueSpec, Permitted, MustUndeployCollector;
    GateExact(s.status, s.spec, name, a.world, a.now, m, order, valid, after);
    DeniedExact(s.status, s.spec, name, a.world, a.now, m, order, valid, after);
    PassingPermitted(m, a.world);
    hide Refreshed;
  }

  lemma PassingPermitted(spec: ForwarderSpec, world: World)
    ensures SpecPasses(spec, world) ==> Permitted(spec, world)
  {
    hide Permitted;
  }

  lemma DeniedExact(prior: Status, spec: ForwarderSpec, name: string, world: World, now: int,
                    migrated: ForwarderSpec, order: seq<FilterSpec>, valid: bool, after: Status)
    requires Refreshed(prior, spec, name, world, now, migrated, order, valid, after) && UniqueStatus(prior)
    ensures MustUndeployCollector(after.conditions) <==> !Permitted(migrated, world)
  {
    assert after.conditions == Set(CheckedConditions(prior.conditions, migrated, world, now), ValidVerdict(valid), now);
    hide Refreshed, MustUndeployCollector, Permitted, CheckedConditions, Set;
    DeniedConditions(prior.conditions, migrated, world, now, valid);
  }

  lemma DeniedConditions(items: seq<Condition>, spec: ForwarderSpec, world: World, now: int, valid: bool)
    requires Unique(items)
    ensures MustUndeployCollector(Set(CheckedConditions(items, spec, world, now), ValidVerdict(valid), now)) <==> !Permitted(spec, world)
  {
    var checked := CheckedConditions(items, spec, world, now);
    AuthorizedExact(items, spec, world, now);
    AccessFound(items, spec, world, now);
    OwnTypesDiffer();
    ValidKind(valid);
    hide CheckedConditions, Permitted, Set, Unique, ValidVerdict, Find;
    SetUnique(checked, ValidVerdict(valid), now);
    SetFind(checked, ValidVerdict(valid), now, AUTHORIZED);
    var all := Set(checked, ValidVerdict(valid), now);
    FindIn(all, AUTHORIZED);
    forall c | c in all && c.kind == AUTHORIZED ensures Find(all, AUTHORIZED) == Some(c) {
      FindUnique(all, c);
    }
  }

  lemma AccessFound(items: seq<Condition>, spec: ForwarderSpec, world: World, now: int)
    requires Unique(items)
    ensures Find(CheckedConditions(items, spec, world, now), AUTHORIZED).Some?
    ensures Find(CheckedConditions(items, spec, world, now), AUTHORIZED).value.status == if Permitted(spec, world) then True else False
  {
    hide CheckedConditions, Permitted, AccessVerdict, Unique;
    CheckedAt(items, spec, world, now, AUTHORIZED);
    AccessExact(spec, world);
  }

  /** A reconcile that reports Ready deployed a spec that passes, generated its configuration, and left the kind it selects. */
  lemma ReadyMeans(s: Store, name: string, a: Attempt, course: Course) returns (migrated: ForwarderSpec)
    requires CourseOf(s, name, a, course) && UniqueStatus(s.status) && UniqueSpec(s.spec) && Succeeds(s.workloads, course, a)
    ensures IsMigration(s.spec, name, migrated.inputs) && migrated == s.spec.(inputs := migrated.inputs)
    ensures SpecPasses(migrated, a.world) && Compile(migrated).Ok?
    ensures After(s.workloads, course, a) ==
            Workloads(!DeployAsDeployment(s.annotated, migrated.inputs), DeployAsDeployment(s.annotated, migrated.inputs))
  {
    hide SpecPasses, Compile, DeployAsDeployment, UniqueSpec, Refreshed;
    var m, order, valid, after :| ChosenBy(s, name, a, course, m, order, valid, after);
    migrated := m;
    GateExact(s.status, s.spec, name, a.world, a.now, m, order, valid, after);
    RefreshedMigration(s.status, s.spec, name, a.world, a.now, m, order, valid, after);
  }

  lemma RefreshedMigration(prior: Status, spec: ForwarderSpec, name: string, world: World, now: int,
                           migrated: ForwarderSpec, order: seq<FilterSpec>, valid: bool, after: Status)
    requires Refreshed(prior, spec, name, world, now, migrated, order, valid, after)
    ensures IsMigration(spec, name, migrated.inputs) && migrated == spec.(inputs := migrated.inputs)
  {
  }

  // -------- whole runs

  datatype Event =
    | Reconcile(attempt: Attempt, course: Course)
    | Edit(annotated: bool, unmanaged: bool, spec: ForwarderSpec)
    | Delete
    | Vanish
    | LoseWorkload(deployment: bool)

  /** Edits are admitted only with unique names; workloads may disappear at any time, but only the reconciler creates them. */
  ghost predicate Step(name: string, s: Store, e: Event, t: Store) {
    match e
    case Reconcile(a, course) =>
      && Reconciled(s, name, a, course, t.status)
      && t == s.(status := t.status, workloads := After(s.workloads, course, a))
    case Edit(annotated, unmanaged, spec) => UniqueSpec(spec) && t == s.(present := true, annotated := annotated, unmanaged := unmanaged, spec := spec)
    case Delete => t == s.(deleting := true)
    case Vanish => t == s.(present := false, deleting := false, status := Status([], [], [], [], []))
    case LoseWorkload(deployment) => t == s.(workloads := With(s.workloads, deployment, false))
  }

  ghost predicate Run(name: string, states: seq<Store>, events: seq<Event>) {
    && |states| == |events| + 1
    && states[0].workloads == Workloads(false, false)
    && states[0].status == Status([], [], [], [], []) && UniqueSpec(states[0].spec)
    && (forall k :: 0 <= k < |events| ==> Step(name, states[k], events[k], states[k + 1]))
  }

  /** Over any run, a DaemonSet and a Deployment of one forwarder never both exist, and condition types stay unique. */
  lemma {:induction false} RunSafe(name: string, states: seq<Store>, events: seq<Event>, k: nat)
    requires Run(name, states, events) && k < |states|
    ensures Exclusive(states[k].workloads) && UniqueStatus(states[k].status) && UniqueSpec(states[k].spec)
  {
    if k > 0 {
      RunSafe(name, states, events, k - 1);
      hide Run, Reconciled, UniqueSpec;
      StepSafe(name, states[k - 1], events[k - 1], states[k]) by { StepOfRun(name, states, events, k - 1); }
    }
  }

  lemma StepOfRun(name: string, states: seq<Store>, events: seq<Event>, k: nat)
    requires Run(name, states, events) && k < |events|
    ensures Step(name, states[k], events[k], states[k + 1])
  {
  }

  lemma StepSafe(name: string, s: Store, e: Event, t: Store)
    requires Step(name, s, e, t) && Exclusive(s.workloads) && UniqueStatus(s.status) && UniqueSpec(s.spec)
    ensures Exclusive(t.workloads) && UniqueStatus(t.status) && UniqueSpec(t.spec)
  {
    hide Reconciled, UniqueSpec;
    if e.Reconcile? {
      StaysExclusive(s.workloads, e.course, e.attempt);
      ReconciledUnique(s, name, e.attempt, e.course, t.status);
    }
  }

  /** At every Ready reconcile of a run exactly the selected kind is there, for a spec that passes every check. */
  lemma RunReady(name: string, states: seq<Store>, events: seq<Event>, k: nat) returns (migrated: ForwarderSpec)
    requires Run(name, states, events) && k < |events|
    requires events[k].Reconcile? && Succeeds(states[k].workloads, events[k].course, events[k].attempt)
    ensures IsMigration(states[k].spec, name, migrated.inputs) && SpecPasses(migrated, events[k].attempt.world) && Compile(migrated).Ok?
    ensures states[k + 1].workloads ==
            Workloads(!DeployAsDeployment(states[k].annotated, migrated.inputs), DeployAsDeployment(states[k].annotated, migrated.inputs))
  {
    RunSafe(name, states, events, k);
    StepOfRun(name, states, events, k);
    ReconciledCourse(states[k], name, events[k].attempt, events[k].course, states[k + 1].status);
    hide Run, CourseOf, Reconciled, UniqueSpec, UniqueStatus, SpecPasses, Compile, DeployAsDeployment, IsMigration;
    migrated := ReadyMeans(states[k], name, events[k].attempt, events[k].course);
  }

  /** Reconciles of unmanaged or deleted forwarders change neither workload. */
  lemma RunUntouched(name: string, states: seq<Store>, events: seq<Event>, k: nat)
    requires Run(name, states, events) && k < |events| && events[k].Reconcile?
    requires !Managed(states[k], events[k].attempt)
    ensures states[k + 1].workloads == states[k].workloads
  {
    assert Step(name, states[k], events[k], states[k + 1]);
    ReconciledCourse(states[k], name, events[k].attempt, events[k].course, states[k + 1].status);
  }

  predicate ShowsReady(status: Status) {
    Find(status.conditions, READY).Some? && Find(status.conditions, READY).value.status == True
  }

  lemma NothingShown(name: string, states: seq<Store>, events: seq<Event>)
    requires Run(name, states, events)
    ensures |states| == |events| + 1 && !ShowsReady(states[0].status)
  {
  }

  /** The reconcile of event `j` went through and its status was stored. */
  ghost predicate WentThrough(states: seq<Store>, events: seq<Event>, j: nat)
    requires |states| == |events| + 1 && j < |events|
  {
    events[j].Reconcile? && events[j].attempt.patch.Took() && Succeeds(states[j].workloads, events[j].course, events[j].attempt)
  }

  /** What is stored at point `k` is what the reconcile of event `j` stored, and that one went through. */
  ghost predicate StemsFrom(states: seq<Store>, events: seq<Event>, k: nat, j: nat)
    requires |states| == |events| + 1 && k < |states|
  {
    j < k && WentThrough(states, events, j) && forall i :: j < i <= k ==> states[i].status == states[j + 1].status
  }

  lemma StemsOn(states: seq<Store>, events: seq<Event>, k: nat, j: nat)
    requires |states| == |events| + 1 && 0 < k < |states|
    ensures WentThrough(states, events, k - 1) ==> StemsFrom(states, events, k, k - 1)
    ensures StemsFrom(states, events, k - 1, j) && states[k].status == states[k - 1].status ==> StemsFrom(states, events, k, j)
  {
    hide WentThrough;
  }

  /** A stored Ready that is True is never made up: it stems from a reconcile that went through and was stored last. */
  lemma {:induction false} RunReadyStems(name: string, states: seq<Store>, events: seq<Event>, k: nat) returns (j: nat)
    requires Run(name, states, events) && k < |states|
    requires ShowsReady(states[k].status)
    ensures StemsFrom(states, events, k, j)
  {
    NothingShown(name, states, events);
    hide Run, UniqueStatus, UniqueSpec, Succeeds, Step, ShowsReady, Exclusive, StemsFrom;
    j := k - 1;
    StepOfRun(name, states, events, k - 1);
    RunSafe(name, states, events, k - 1);
    StepReady(name, states[k - 1], events[k - 1], states[k]);
    if !WentThrough(states, events, k - 1) {
      j := RunReadyStems(name, states, events, k - 1);
    }
    StemsOn(states, events, k, j);
  }

  lemma StepReady(name: string, s: Store, e: Event, t: Store)
    requires Step(name, s, e, t) && UniqueStatus(s.status)
    requires ShowsReady(t.status)
    ensures t.status == s.status || (e.Reconcile? && e.attempt.patch.Took() && Succeeds(s.workloads, e.course, e.attempt))
  {
    hide UniqueStatus, UniqueSpec, Succeeds, After;
    if e.Reconcile? && e.attempt.fetched && s.present && !s.deleting && e.attempt.patch.Took() {
      hide Reconciled;
      var ready := ReadyTime(s, name, e.attempt, e.course, t.status);
    } else {
      StatusKept(name, s, e, t);
    }
  }

  /** Only a patch that takes, or the end of the forwarder, changes the stored status. */
  lemma StatusKept(name: string, s: Store, e: Event, t: Store)
    requires Step(name, s, e, t) && t.status.conditions != []
    requires !(e.Reconcile? && e.attempt.fetched && s.present && !s.deleting && e.attempt.patch.Took())
    ensures t.status == s.status
  {
    hide Refreshed, Stopped, MigrationPanics, Chosen, ReadyAfter, After;
  }
}
