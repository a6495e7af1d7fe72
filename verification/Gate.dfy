/**
 The status gate: stale conditions are pruned, inputs migrated, every check writes its conditions, and the spec is
 valid when all lists are complete and True.
 */
module Gate {
  import opened Wrappers
  import opened Api
  import opened Conditions
  import opened Migration
  import opened Checks
  import opened Permissions

  // -------- what the validators write

  function KindsOf(l: ListName, names: seq<string>): (r: seq<string>)
    ensures |r| == |names| && forall k :: 0 <= k < |r| ==> r[k] == KindOf(l, names[k])
  {
    seq(|names|, k requires 0 <= k < |names| => KindOf(l, names[k]))
  }

  function InputNames(inputs: seq<InputSpec>): (r: seq<string>)
    ensures |r| == |inputs| && forall k :: 0 <= k < |r| ==> r[k] == inputs[k].name
  {
    seq(|inputs|, k requires 0 <= k < |inputs| => inputs[k].name)
  }

  function OutputNames(outputs: seq<OutputSpec>): (r: seq<string>)
    ensures |r| == |outputs| && forall k :: 0 <= k < |r| ==> r[k] == outputs[k].name
  {
    seq(|outputs|, k requires 0 <= k < |outputs| => outputs[k].name)
  }

  function FilterNames(filters: seq<FilterSpec>): (r: seq<string>)
    ensures |r| == |filters| && forall k :: 0 <= k < |r| ==> r[k] == filters[k].name
  {
    seq(|filters|, k requires 0 <= k < |filters| => filters[k].name)
  }

  function PipelineNames(pipelines: seq<PipelineSpec>): (r: seq<string>)
    ensures |r| == |pipelines| && forall k :: 0 <= k < |r| ==> r[k] == pipelines[k].name
  {
    seq(|pipelines|, k requires 0 <= k < |pipelines| => pipelines[k].name)
  }

  function InputVerdicts(inputs: seq<InputSpec>, world: World): (vs: seq<Verdict>)
    ensures |vs| == |inputs| && forall k :: 0 <= k < |vs| ==> vs[k] == InputVerdict(inputs[k], world)
  {
    seq(|inputs|, k requires 0 <= k < |inputs| => InputVerdict(inputs[k], world))
  }

  function OutputVerdicts(outputs: seq<OutputSpec>, pipelines: seq<PipelineSpec>, world: World): (vs: seq<Verdict>)
    ensures |vs| == |outputs| && forall k :: 0 <= k < |vs| ==> vs[k] == OutputVerdict(outputs[k], pipelines, world)
  {
    seq(|outputs|, k requires 0 <= k < |outputs| => OutputVerdict(outputs[k], pipelines, world))
  }

  function FilterVerdicts(filters: seq<FilterSpec>, world: World): (vs: seq<Verdict>)
    ensures |vs| == |filters| && forall k :: 0 <= k < |vs| ==> vs[k] == FilterVerdict(filters[k], world)
  {
    seq(|filters|, k requires 0 <= k < |filters| => FilterVerdict(filters[k], world))
  }

  predicate PipelinesPanic(pipelines: seq<PipelineSpec>, spec: ForwarderSpec) {
    exists p :: p in pipelines && HostNamePanics(p, spec)
  }

  /** The complaints gathered up to and including the last of `pipelines`; nothing clears them in between. */
  function Gathered(pipelines: seq<PipelineSpec>, spec: ForwarderSpec): seq<string>
    requires !PipelinesPanic(pipelines, spec)
  {
    if pipelines == [] then []
    else
      assert pipelines[|pipelines| - 1] in pipelines;
      Gathered(pipelines[..|pipelines| - 1], spec) + PipelineMessages(pipelines[|pipelines| - 1], spec)
  }

  /** Each pipeline is judged by its own complaints and those of all pipelines before it. */
  function PipelineVerdicts(pipelines: seq<PipelineSpec>, spec: ForwarderSpec): (vs: seq<Verdict>)
    requires !PipelinesPanic(pipelines, spec)
    ensures |vs| == |pipelines|
    ensures forall k {:trigger vs[k]} :: 0 <= k < |vs| ==> vs[k].kind == KindOf(PipelineList, pipelines[k].name)
  {
    if pipelines == [] then []
    else
      var n := |pipelines| - 1;
      PipelineVerdicts(pipelines[..n], spec) + [Judge(PipelineList, pipelines[n].name, "pipeline", Gathered(pipelines, spec))]
  }

  // -------- the validators

  method ValidateInputs(status: ConditionList, inputs: seq<InputSpec>, world: World, now: int)
    modifies status
    ensures status.items == SetAll(old(status.items), InputVerdicts(inputs, world), now)
  {
    var results: seq<Verdict> := [];
    for i := 0 to |inputs|
      invariant results == InputVerdicts(inputs[..i], world)
      invariant status.items == old(status.items)
    {
      results := results + [InputVerdict(inputs[i], world)];
    }
    assert inputs[..|inputs|] == inputs;
    SetEach(status, results, now);
  }

  method SetEach(status: ConditionList, vs: seq<Verdict>, now: int)
    modifies status
    ensures status.items == SetAll(old(status.items), vs, now)
  {
    for i := 0 to |vs|
      invariant status.items == SetAll(old(status.items), vs[..i], now)
    {
      assert vs[..i + 1][..i] == vs[..i];
      var changed := status.SetCondition(vs[i], now);
    }
    assert vs[..|vs|] == vs;
  }

  method ValidateOutputs(status: ConditionList, outputs: seq<OutputSpec>, pipelines: seq<PipelineSpec>, world: World, now: int)
    modifies status
    ensures status.items == SetAll(old(status.items), OutputVerdicts(outputs, pipelines, world), now)
  {
    for i := 0 to |outputs|
      invariant status.items == SetAll(old(status.items), OutputVerdicts(outputs[..i], pipelines, world), now)
    {
      var changed := status.SetCondition(OutputVerdict(outputs[i], pipelines, world), now);
      var vs := OutputVerdicts(outputs[..i + 1], pipelines, world);
      assert vs[..i] == OutputVerdicts(outputs[..i], pipelines, world);
    }
    assert outputs[..|outputs|] == outputs;
  }

  /** Filters come out of a map, so their order is arbitrary. */
  method ValidateFilters(status: ConditionList, filters: map<string, FilterSpec>, world: World, now: int) returns (ghost order: seq<FilterSpec>)
    requires forall n :: n in filters ==> filters[n].name == n
    modifies status
    ensures ListsFilters(order, filters)
    ensures status.items == SetAll(old(status.items), FilterVerdicts(order, world), now)
  {
    hide ListsFilters, FilterVerdict, Set;
    order := [];
    var todo := filters.Keys;
    ghost var done: map<string, FilterSpec> := map[];
    assert ListsFilters([], map[]) by { NoFiltersListed(); }
    while todo != {}
      invariant todo <= filters.Keys && done.Keys == filters.Keys - todo
      invariant forall n :: n in done ==> done[n] == filters[n]
      invariant ListsFilters(order, done)
      invariant status.items == SetAll(old(status.items), FilterVerdicts(order, world), now)
      decreases todo
    {
      var n :| n in todo;
      var changed := status.SetCondition(FilterVerdict(filters[n], world), now);
      FilterVerdictsSnoc(order, filters[n], world);
      ListsFiltersSnoc(order, done, filters[n]);
      order := order + [filters[n]];
      done := done[n := filters[n]];
      todo := todo - {n};
    }
    assert done == filters;
  }

  lemma FilterVerdictsSnoc(order: seq<FilterSpec>, f: FilterSpec, world: World)
    ensures FilterVerdicts(order + [f], world) == FilterVerdicts(order, world) + [FilterVerdict(f, world)]
    ensures FilterVerdicts(order + [f], world)[..|order|] == FilterVerdicts(order, world)
  {
  }

  lemma NoFiltersListed()
    ensures ListsFilters([], map[])
  {
  }

  ghost predicate ListsFilters(order: seq<FilterSpec>, m: map<string, FilterSpec>) {
    && (forall i, j :: 0 <= i < j < |order| ==> order[i].name != order[j].name)
    && (forall n :: n in m ==> m[n].name == n && m[n] in order)
    && (forall f :: f in order ==> f.name in m && m[f.name] == f)
  }

  lemma ListsFiltersSnoc(order: seq<FilterSpec>, m: map<string, FilterSpec>, f: FilterSpec)
    requires ListsFilters(order, m) && f.name !in m
    ensures ListsFilters(order + [f], m[f.name := f])
  {
    var more := order + [f];
    forall a, b | 0 <= a < b < |more| ensures more[a].name != more[b].name {
      assert more[a] in order;
    }
  }

  /** The first `done` pipelines have their conditions; it stops early when a check runs into a missing section. */
  method ValidatePipelines(status: ConditionList, spec: ForwarderSpec, now: int) returns (r: Outcome<()>, ghost done: nat)
    modifies status
    ensures r.Panic? <==> PipelinesPanic(spec.pipelines, spec)
    ensures done <= |spec.pipelines| && (r.Ok? ==> spec.pipelines[..done] == spec.pipelines)
    ensures r.Panic? ==> done < |spec.pipelines| && HostNamePanics(spec.pipelines[done], spec)
    ensures !PipelinesPanic(spec.pipelines[..done], spec)
    ensures status.items == SetAll(old(status.items), PipelineVerdicts(spec.pipelines[..done], spec), now)
  {
    hide HostNamePanics, PipelineMessages;
    var pipelines := spec.pipelines;
    var messages: seq<string> := [];
    for i := 0 to |pipelines|
      invariant !PipelinesPanic(pipelines[..i], spec)
      invariant messages == Gathered(pipelines[..i], spec)
      invariant status.items == SetAll(old(status.items), PipelineVerdicts(pipelines[..i], spec), now)
    {
      assert pipelines[i] in pipelines;
      if HostNamePanics(pipelines[i], spec) {
        return Panic, i;
      }
      assert pipelines[..i + 1] == pipelines[..i] + [pipelines[i]];
      assert pipelines[..i + 1][..i] == pipelines[..i];
      messages := messages + PipelineMessages(pipelines[i], spec);
      var changed := status.SetCondition(Judge(PipelineList, pipelines[i].name, "pipeline", messages), now);
      ghost var vs := PipelineVerdicts(pipelines[..i + 1], spec);
      assert vs[..i] == PipelineVerdicts(pipelines[..i], spec);
    }
    assert pipelines[..|pipelines|] == pipelines;
    r, done := Ok(()), |pipelines|;
  }

  // -------- the forwarder

  function SetOrRemove(items: seq<Condition>, kind: string, v: Option<Verdict>, now: int): seq<Condition> {
    if v.Some? then Set(items, v.value, now) else Without(items, kind)
  }

  /** The forwarder's own conditions once annotations and permissions are checked. */
  ghost function CheckedConditions(items: seq<Condition>, spec: ForwarderSpec, world: World, now: int): seq<Condition> {
    Set(AnnotationConditions(items, world, now), AccessVerdict(spec, world), now)
  }

  function AnnotationConditions(items: seq<Condition>, world: World, now: int): seq<Condition> {
    SetOrRemove(SetOrRemove(items, LOG_LEVEL, LogLevelVerdict(world), now), MAX_UNAVAILABLE, MaxUnavailableVerdict(world), now)
  }

  function ValidVerdict(valid: bool): Verdict {
    if valid then Verdict(VALID, True, "ValidationSuccess", "")
    else Verdict(VALID, False, "ValidationFailure", "one or more conditions [inputs, outputs, pipelines, filters] have failed validation")
  }

  datatype Status = Status(conditions: seq<Condition>, inputs: seq<Condition>, outputs: seq<Condition>, filters: seq<Condition>, pipelines: seq<Condition>)

  class Forwarder {
    const name: string
    var spec: ForwarderSpec
    const conditions: ConditionList
    const inputConditions: ConditionList
    const outputConditions: ConditionList
    const filterConditions: ConditionList
    const pipelineConditions: ConditionList

    constructor (name: string, spec: ForwarderSpec, status: Status)
      ensures this.name == name && this.spec == spec && Valid() && fresh(Lists())
      ensures Snapshot() == status
    {
      this.name, this.spec := name, spec;
      conditions := new ConditionList(status.conditions);
      inputConditions := new ConditionList(status.inputs);
      outputConditions := new ConditionList(status.outputs);
      filterConditions := new ConditionList(status.filters);
      pipelineConditions := new ConditionList(status.pipelines);
    }

    function Snapshot(): Status
      reads Lists()
    {
      Status(conditions.items, inputConditions.items, outputConditions.items, filterConditions.items, pipelineConditions.items)
    }

    ghost function Lists(): set<ConditionList> {
      {conditions, inputConditions, outputConditions, filterConditions, pipelineConditions}
    }

    ghost predicate Valid() {
      |Lists()| == 5
    }

    /** Conditions of anything the persisted spec does not name are dropped. */
    method RemoveStaleStatuses()
      requires Valid()
      modifies Lists()
      ensures conditions.items == old(conditions.items)
      ensures inputConditions.items == Kept(old(inputConditions.items), KindsOf(InputList, InputNames(spec.inputs)))
      ensures outputConditions.items == Kept(old(outputConditions.items), KindsOf(OutputList, OutputNames(spec.outputs)))
      ensures filterConditions.items == Kept(old(filterConditions.items), KindsOf(FilterList, FilterNames(spec.filters)))
      ensures pipelineConditions.items == Kept(old(pipelineConditions.items), KindsOf(PipelineList, PipelineNames(spec.pipelines)))
    {
      inputConditions.PruneConditions(KindsOf(InputList, InputNames(spec.inputs)));
      outputConditions.PruneConditions(KindsOf(OutputList, OutputNames(spec.outputs)));
      filterConditions.PruneConditions(KindsOf(FilterList, FilterNames(spec.filters)));
      pipelineConditions.PruneConditions(KindsOf(PipelineList, PipelineNames(spec.pipelines)));
    }

    method Initialize() returns (r: Outcome<()>)
      modifies `spec
      ensures r.Panic? <==> MigrationPanics(old(spec))
      ensures r.Panic? ==> spec == old(spec)
      ensures r.Ok? ==> spec == old(spec).(inputs := spec.inputs) && IsMigration(old(spec), name, spec.inputs)
    {
      var inputs := MigrateInputs(spec, name);
      if inputs.Panic? {
        return Panic;
      }
      spec := spec.(inputs := inputs.value);
      r := Ok(());
    }

    method ValidateConditions(world: World, now: int) returns (r: Outcome<()>)
      modifies conditions
      ensures r.Panic? <==> world.account == Found && ReadsSectionlessReceiver(spec)
      ensures conditions.items == if r.Ok? then CheckedConditions(old(conditions.items), spec, world, now)
                                  else AnnotationConditions(old(conditions.items), world, now)
    {
      hide ReadsSectionlessReceiver, AccessVerdict;
      var level, unavailable := LogLevelVerdict(world), MaxUnavailableVerdict(world);
      if level.Some? {
        var changed := conditions.SetCondition(level.value, now);
      } else {
        conditions.RemoveConditionByType(LOG_LEVEL);
      }
      if unavailable.Some? {
        var changed := conditions.SetCondition(unavailable.value, now);
      } else {
        conditions.RemoveConditionByType(MAX_UNAVAILABLE);
      }
      var access := ValidatePermissions(spec, world);
      if access.Panic? {
        return Panic;
      }
      var changed := conditions.SetCondition(access.value, now);
      r := Ok(());
    }

    method IsAuthorized() returns (authorized: bool)
      ensures authorized <==> exists c :: c in conditions.items && c.kind == AUTHORIZED && c.status == True
    {
      for i := 0 to |conditions.items|
        invariant forall k :: 0 <= k < i ==> !(conditions.items[k].kind == AUTHORIZED && conditions.items[k].status == True)
      {
        if conditions.items[i].kind == AUTHORIZED && conditions.items[i].status == True {
          return true;
        }
      }
      return false;
    }

    method IsValidSpec() returns (valid: bool)
      ensures valid <==>
                && (exists c :: c in conditions.items && c.kind == AUTHORIZED && c.status == True)
                && AllTrue(inputConditions.items, Prefix(InputList), |spec.inputs|)
                && AllTrue(outputConditions.items, Prefix(OutputList), |spec.outputs|)
                && AllTrue(pipelineConditions.items, Prefix(PipelineList), |spec.pipelines|)
                && AllTrue(filterConditions.items, Prefix(FilterList), |spec.filters|)
    {
      var authorized := IsAuthorized();
      var inputs := IsValid(Prefix(InputList), inputConditions.items, |spec.inputs|);
      var outputs := IsValid(Prefix(OutputList), outputConditions.items, |spec.outputs|);
      var pipelines := IsValid(Prefix(PipelineList), pipelineConditions.items, |spec.pipelines|);
      var filters := IsValid(Prefix(FilterList), filterConditions.items, |spec.filters|);
      valid := authorized && inputs && outputs && pipelines && filters;
    }
  }
}
