/** Configuration generation in its phases: adapters, pipelines, sources, transforms, sinks. */
module Conf {
  import opened Wrappers
  import opened Ordering
  import opened Ids
  import opened Api
  import opened Components
  import opened Adapters
  import Selection

  lemma AssembleSnoc(cs: seq<Component>, c: Component)
    ensures Assemble(cs + [c]) == Put(Assemble(cs), c)
  {
    assert (cs + [c])[..|cs|] == cs;
  }

  /** `AddSources`, `AddTransforms` and `AddSinks`: entries are written one after the other. */
  method AddAll(config: Config, ghost done: seq<Component>, cs: seq<Component>) returns (r: Config)
    requires config == Assemble(done)
    ensures r == Assemble(done + cs)
  {
    r := config;
    assert done + cs[..0] == done;
    for j := 0 to |cs|
      invariant r == Assemble(done + cs[..j])
    {
      AssembleSnoc(done + cs[..j], cs[j]);
      assert done + cs[..j + 1] == done + cs[..j] + [cs[j]];
      r := Put(r, cs[j]);
    }
    assert cs[..|cs|] == cs;
  }

  // -------- sources

  method NewContainerSource(input: Input, includes: seq<string>, excludes: seq<string>) returns (r: Outcome<Chain>)
    modifies input
    ensures r.Panic? <==> MaxRecordsPerSecond(input.spec).Panic?
    ensures r.Ok? ==> r.value == ContainerChain(input.spec, Selector(includes, excludes)) && input.ids == old(input.ids) + [r.value.Last()]
  {
    var base := MakeInputId([input.spec.name, "container"]);
    var metaId := MakeId([base, "meta"]);
    var ids, labels := [base, metaId], [Source(KubernetesLogs(Selector(includes, excludes))), Normalize("container")];
    var id := metaId;
    var limit := MaxRecordsPerSecond(input.spec);
    if limit.Panic? {
      return Panic;
    }
    if limit.value.Some? {
      id := MakeId([base, "throttle"]);
      ids, labels := ids + [id], labels + [InputThrottle(limit.value.value)];
    }
    input.ids := input.ids + [id];
    r := Ok(Chain(ids, labels));
  }

  method NewSourceAndMeta(input: Input, chain: Chain)
    requires chain.Valid()
    modifies input
    ensures input.ids == old(input.ids) + [chain.Last()]
  {
    input.ids := input.ids + [chain.Last()];
  }

  /** One source, its transforms, and the id that pipelines read. */
  method NewSource(input: Input) returns (r: Outcome<seq<Chain>>)
    requires input.ids == []
    modifies input
    ensures r.Panic? <==> SourcePanics(input.spec)
    ensures r.Ok? ==> r.value == InputChains(input.spec) && input.ids == LastIds(r.value)
  {
    var i := input.spec;
    match i.kind
    case Application =>
      var includes, excludes := Selection.ApplicationGlobs(i.application);
      var c := NewContainerSource(input, includes, excludes);
      if c.Panic? { return Panic; }
      r := Ok([c.value]);
      OneLastId(c.value);
    case Infrastructure =>
      r := NewInfrastructureSource(input);
    case Audit =>
      var chains := NewAuditSource(input);
      r := Ok(chains);
    case Receiver =>
      if i.receiver.None? { return Panic; }
      NewSourceAndMeta(input, ReceiverChain(i, i.receiver.value));
      OneLastId(ReceiverChain(i, i.receiver.value));
      r := Ok([ReceiverChain(i, i.receiver.value)]);
  }

  method NewInfrastructureSource(input: Input) returns (r: Outcome<seq<Chain>>)
    requires input.ids == [] && input.spec.kind == Infrastructure
    modifies input
    ensures r.Panic? <==> SourcePanics(input.spec)
    ensures r.Ok? ==> r.value == InputChains(input.spec) && input.ids == LastIds(r.value)
  {
    var i := input.spec;
    var chains: seq<Chain> := [];
    var sources := InfrastructureSources(i);
    if ContainerLogs in sources {
      var includes, excludes := Selection.InfrastructureGlobs();
      var c := NewContainerSource(input, includes, excludes);
      if c.Panic? { return Panic; }
      OneLastId(c.value);
      chains := [c.value];
    }
    if NodeLogs in sources {
      NewSourceAndMeta(input, JournalChain(i));
      LastIdsSnoc(chains, JournalChain(i));
      chains := chains + [JournalChain(i)];
    }
    r := Ok(chains);
  }

  method NewAuditSource(input: Input) returns (chains: seq<Chain>)
    requires input.ids == [] && input.spec.kind == Audit
    modifies input
    ensures chains == InputChains(input.spec) && input.ids == LastIds(chains)
  {
    hide AuditChain, LastIds, AuditSources;
    assert LastIds([]) == [] by { NoLastIds(); }
    var sources := AuditSources(input.spec);
    chains := [];
    if Auditd in sources {
      chains := AppendAudit(input, chains, Auditd);
    }
    if KubeAPI in sources {
      chains := AppendAudit(input, chains, KubeAPI);
    }
    if OpenShiftAPI in sources {
      chains := AppendAudit(input, chains, OpenShiftAPI);
    }
    if OVN in sources {
      chains := AppendAudit(input, chains, OVN);
    }
  }

  lemma NoLastIds()
    ensures LastIds([]) == []
  {
  }

  method AppendAudit(input: Input, chains: seq<Chain>, source: AuditSource) returns (r: seq<Chain>)
    requires (forall c :: c in chains ==> c.Valid()) && input.ids == LastIds(chains)
    modifies input
    ensures r == chains + [AuditChain(input.spec, source)]
    ensures (forall c :: c in r ==> c.Valid()) && input.ids == LastIds(r)
  {
    var c := AuditChain(input.spec, source);
    NewSourceAndMeta(input, c);
    LastIdsSnoc(chains, c);
    r := chains + [c];
  }

  lemma LastIdsSnoc(chains: seq<Chain>, c: Chain)
    requires (forall x :: x in chains ==> x.Valid()) && c.Valid()
    ensures forall x :: x in chains + [c] ==> x.Valid()
    ensures LastIds(chains + [c]) == LastIds(chains) + [c.Last()]
  {
    assert (chains + [c])[..|chains|] == chains;
  }

  lemma OneLastId(c: Chain)
    requires c.Valid()
    ensures LastIds([c]) == [c.Last()]
  {
    LastIdsSnoc([], c);
  }

  lemma FlattenSnoc(names: seq<string>, table: Table, i: nat)
    requires i < |names| && forall n :: n in names ==> n in table
    ensures FlattenNames(names[..i + 1], table) == FlattenNames(names[..i], table) + table[names[i]]
  {
    assert names[..i + 1][..i] == names[..i];
  }

  lemma ConcatAssociative(a: seq<Component>, b: seq<Component>, c: seq<Component>)
    ensures (a + b) + c == a + (b + c)
  {
  }

  /** Adds the components of all adapters in sorted name order. */
  method AddTable(config: Config, ghost done: seq<Component>, table: Table) returns (r: Config)
    requires config == Assemble(done)
    ensures r == Assemble(done + Flatten(table))
  {
    var names := ListSet(table.Keys);
    r := config;
    ghost var all := done;
    for i := 0 to |names|
      invariant all == done + FlattenNames(names[..i], table)
      invariant r == Assemble(all)
    {
      r := AddAll(r, all, table[names[i]]);
      FlattenSnoc(names, table, i);
      ConcatAssociative(done, FlattenNames(names[..i], table), table[names[i]]);
      all := all + table[names[i]];
    }
    assert names[..|names|] == names;
  }

  // -------- adapters

  ghost predicate AdaptersOf(m: map<string, Input>, specs: map<string, InputSpec>) {
    && m.Keys == specs.Keys
    && Injective(m)
    && (forall n :: n in m ==> m[n].spec == specs[n])
  }

  ghost predicate OutputAdaptersOf(m: map<string, Output>, specs: map<string, OutputSpec>) {
    && m.Keys == specs.Keys
    && Injective(m)
    && (forall n :: n in m ==> m[n].spec == specs[n])
  }

  method MakeInputs(inputs: seq<InputSpec>) returns (m: map<string, Input>)
    ensures AdaptersOf(m, InputMap(inputs)) && fresh(m.Values)
    ensures forall n :: n in m ==> m[n].ids == []
  {
    m := map[];
    for i := 0 to |inputs|
      invariant AdaptersOf(m, InputMap(inputs[..i])) && fresh(m.Values)
      invariant forall n :: n in m ==> m[n].ids == []
    {
      assert inputs[..i + 1][..i] == inputs[..i];
      var a := new Input(inputs[i]);
      assert a !in m.Values;
      assert forall n :: n in m ==> m[n] in m.Values;
      m := m[inputs[i].name := a];
    }
    assert inputs[..|inputs|] == inputs;
  }

  method MakeOutputs(outputs: seq<OutputSpec>) returns (m: map<string, Output>)
    ensures OutputAdaptersOf(m, OutputMap(outputs)) && fresh(m.Values)
    ensures forall n :: n in m ==> m[n].inputIds == []
  {
    m := map[];
    for i := 0 to |outputs|
      invariant OutputAdaptersOf(m, OutputMap(outputs[..i])) && fresh(m.Values)
      invariant forall n :: n in m ==> m[n].inputIds == []
    {
      assert outputs[..i + 1][..i] == outputs[..i];
      var a := new Output(outputs[i]);
      assert a !in m.Values;
      assert forall n :: n in m ==> m[n] in m.Values;
      m := m[outputs[i].name := a];
    }
    assert outputs[..|outputs|] == outputs;
  }

  /** What the filters built so far are to read from; nothing writes a filter once its pipeline is wired. */
  type Wiring = map<PipelineFilter, seq<InputComponent>>

  ghost predicate Holds(wiring: Wiring)
    reads wiring.Keys
  {
    forall f :: f in wiring ==> f.next == wiring[f]
  }

  /** The filters of pipeline `k`: its stages in order, each reading from the one before, the first from the inputs. */
  ghost predicate IsWired(filters: seq<PipelineFilter>, wiring: Wiring, spec: ForwarderSpec, k: nat, inputs: map<string, Input>) {
    && k < |spec.pipelines| && PipelineResolves(spec, spec.pipelines[k])
    && |filters| == |Stages(spec, k)|
    && (forall j :: 0 <= j < |filters| ==> filters[j] in wiring && filters[j].id == Stages(spec, k)[j].id && filters[j].work == Stages(spec, k)[j].work)
    && wiring[filters[0]] == HeadNext(inputs, spec.pipelines[k].inputRefs)
    && (forall j :: 0 < j < |filters| ==> wiring[filters[j]] == [FromFilter(filters[j - 1])])
  }

  lemma AllWiredInLarger(m: map<string, seq<PipelineFilter>>, wiring: Wiring, more: Wiring, spec: ForwarderSpec,
                         indexes: map<string, nat>, inputs: map<string, Input>)
    requires m.Keys == indexes.Keys && wiring.Keys !! more.Keys
    requires forall n :: n in m ==> IsWired(m[n], wiring, spec, indexes[n], inputs)
    ensures forall n :: n in m ==> IsWired(m[n], wiring + more, spec, indexes[n], inputs)
  {
    hide Stages, HeadNext, PipelineResolves;
  }

  lemma StillWired(filters: seq<PipelineFilter>, wiring: Wiring, more: Wiring, spec: ForwarderSpec, k: nat, inputs: map<string, Input>)
    requires IsWired(filters, more, spec, k, inputs)
    ensures IsWired(filters, wiring + more, spec, k, inputs)
  {
    hide FilterId, SystemOrder, HeadNext;
  }

  /** What the outputs hold after the first `i` pipelines, provided all filter refs resolve. */
  ghost predicate Collected(outputs: map<string, Output>, spec: ForwarderSpec, i: nat)
    reads outputs.Values
    requires i <= |spec.pipelines|
  {
    AllResolve(spec) ==> forall n :: n in outputs ==> outputs[n].inputIds == OutputInputs(spec, n, i)
  }

  method NextPipeline(spec: ForwarderSpec, i: nat, inputs: map<string, Input>, outputs: map<string, Output>)
    returns (r: Outcome<seq<PipelineFilter>>, ghost wiring: Wiring)
    requires i < |spec.pipelines| && Injective(outputs) && Collected(outputs, spec, i)
    modifies outputs.Values
    ensures r.Ok? <==> PipelineResolves(spec, spec.pipelines[i])
    ensures r.Ok? ==> fresh(wiring.Keys) && Holds(wiring) && IsWired(r.value, wiring, spec, i, inputs)
    ensures r.Ok? ==> Collected(outputs, spec, i + 1)
  {
    var made := NewPipeline(spec, i, spec.pipelines[i], inputs, outputs, FilterMap(spec.filters), spec.inputs);
    wiring := map[];
    if made.Panic? {
      return Panic, wiring;
    }
    wiring := map f | f in made.value.filters :: f.next;
    r := Ok(made.value.filters);
  }

  /** The pipeline adapters made from the first `i` specs, by name. */
  ghost predicate Made(m: map<string, seq<PipelineFilter>>, wiring: Wiring, spec: ForwarderSpec, i: nat, inputs: map<string, Input>)
    requires i <= |spec.pipelines|
  {
    && m.Keys == PipelineIndexes(spec.pipelines[..i]).Keys
    && (forall k :: 0 <= k < i ==> PipelineResolves(spec, spec.pipelines[k]))
    && (forall n :: n in m ==> IsWired(m[n], wiring, spec, PipelineIndexes(spec.pipelines[..i])[n], inputs))
  }

  lemma MadeNext(m: map<string, seq<PipelineFilter>>, wiring: Wiring, spec: ForwarderSpec, i: nat, inputs: map<string, Input>,
                 filters: seq<PipelineFilter>, more: Wiring)
    requires i < |spec.pipelines| && Made(m, wiring, spec, i, inputs) && wiring.Keys !! more.Keys
    requires PipelineResolves(spec, spec.pipelines[i]) && IsWired(filters, more, spec, i, inputs)
    ensures Made(m[spec.pipelines[i].name := filters], wiring + more, spec, i + 1, inputs)
  {
    hide IsWired, PipelineResolves;
    var indexes := PipelineIndexes(spec.pipelines[..i]);
    assert spec.pipelines[..i + 1][..i] == spec.pipelines[..i];
    assert PipelineIndexes(spec.pipelines[..i + 1]) == indexes[spec.pipelines[i].name := i];
    AllWiredInLarger(m, wiring, more, spec, indexes, inputs);
    StillWired(filters, wiring, more, spec, i, inputs);
  }

  lemma NoneMade(spec: ForwarderSpec, inputs: map<string, Input>)
    ensures Made(map[], map[], spec, 0, inputs)
  {
  }

  /** All pipelines in spec order; each wires its last filter to the outputs as it is made. */
  method MakePipelines(spec: ForwarderSpec, inputs: map<string, Input>, outputs: map<string, Output>)
    returns (r: Outcome<map<string, seq<PipelineFilter>>>, ghost wiring: Wiring)
    requires Injective(outputs) && forall n :: n in outputs ==> outputs[n].inputIds == []
    modifies outputs.Values
    ensures r.Ok? <==> AllResolve(spec)
    ensures r.Ok? ==> Holds(wiring) && r.value.Keys == PipelineIndexes(spec.pipelines).Keys
    ensures r.Ok? ==> forall n :: n in r.value ==> IsWired(r.value[n], wiring, spec, PipelineIndexes(spec.pipelines)[n], inputs)
    ensures r.Ok? ==> Collected(outputs, spec, |spec.pipelines|)
  {
    assert Collected(outputs, spec, 0);
    hide IsWired, Collected, Made, PipelineResolves, PipelineIndexes;
    var m: map<string, seq<PipelineFilter>> := map[];
    wiring := map[];
    NoneMade(spec, inputs);
    for i := 0 to |spec.pipelines|
      invariant Made(m, wiring, spec, i, inputs)
      invariant Holds(wiring)
      invariant Collected(outputs, spec, i)
    {
      assert spec.pipelines[i] in spec.pipelines;
      var made, more := NextPipeline(spec, i, inputs, outputs);
      if made.Panic? {
        return Panic, wiring;
      }
      MadeNext(m, wiring, spec, i, inputs, made.value, more);
      wiring := wiring + more;
      m := m[spec.pipelines[i].name := made.value];
    }
    AllMade(m, wiring, spec, inputs);
    r := Ok(m);
  }

  lemma AllMade(m: map<string, seq<PipelineFilter>>, wiring: Wiring, spec: ForwarderSpec, inputs: map<string, Input>)
    requires Made(m, wiring, spec, |spec.pipelines|, inputs)
    ensures AllResolve(spec) && m.Keys == PipelineIndexes(spec.pipelines).Keys
    ensures forall n :: n in m ==> IsWired(m[n], wiring, spec, PipelineIndexes(spec.pipelines)[n], inputs)
  {
    hide IsWired, PipelineResolves, PipelineIndexes;
    assert spec.pipelines[..|spec.pipelines|] == spec.pipelines;
  }

  // -------- generation

  /** `NewSource` has run for every input. */
  ghost predicate Filled(inputs: map<string, Input>, specs: map<string, InputSpec>)
    reads inputs.Values
  {
    inputs.Keys == specs.Keys && forall n :: n in inputs ==> inputs[n].ids == LastIds(InputChains(specs[n]))
  }

  method MakeSources(inputs: map<string, Input>, ghost specs: map<string, InputSpec>) returns (r: Outcome<Table>)
    requires AdaptersOf(inputs, specs) && forall n :: n in inputs ==> inputs[n].ids == []
    modifies inputs.Values
    ensures r.Panic? <==> exists n :: n in specs && SourcePanics(specs[n])
    ensures r.Ok? ==> Filled(inputs, specs) && r.value == InputTable(specs)
  {
    hide InputChains, ChainsComponents, LastIds, SourcePanics;
    var table: Table := map[];
    var todo := inputs.Keys;
    while todo != {}
      invariant todo <= inputs.Keys && table.Keys == inputs.Keys - todo
      invariant forall n :: n in todo ==> inputs[n].ids == []
      invariant forall n :: n in table ==> !SourcePanics(specs[n]) && inputs[n].ids == LastIds(InputChains(specs[n]))
      invariant forall n :: n in table ==> table[n] == ChainsComponents(InputChains(specs[n]))
      decreases todo
    {
      var n :| n in todo;
      assert inputs[n] in inputs.Values;
      var chains := NewSource(inputs[n]);
      if chains.Panic? {
        return Panic;
      }
      table := table[n := ChainsComponents(chains.value)];
      todo := todo - {n};
    }
    r := Ok(table);
  }

  lemma {:induction false} HeadIds(inputs: map<string, Input>, specs: map<string, InputSpec>, refs: seq<string>)
    requires Filled(inputs, specs)
    ensures AllInputIds(HeadNext(inputs, refs)) == UnsortedHeadInputs(specs, refs)
  {
    if refs != [] {
      HeadIds(inputs, specs, refs[..|refs| - 1]);
      var next := HeadNext(inputs, refs);
      assert next[..|next| - 1] == HeadNext(inputs, refs[..|refs| - 1]);
    }
  }

  /** The transforms of a pipeline, made once the input adapters are filled. */
  method Transforms(filters: seq<PipelineFilter>, ghost wiring: Wiring, ghost spec: ForwarderSpec, ghost k: nat,
                    ghost inputs: map<string, Input>) returns (cs: seq<Component>)
    requires Holds(wiring) && IsWired(filters, wiring, spec, k, inputs)
    requires Filled(inputs, InputMap(spec.inputs))
    ensures cs == StageComponents(spec, k)
  {
    hide Holds, Filled, Stages;
    cs := [];
    for i := 0 to |filters|
      invariant cs == StageComponents(spec, k)[..i]
    {
      var c := StageTransform(filters, i, wiring, spec, k, inputs);
      cs := cs + [c];
    }
  }

  method StageTransform(filters: seq<PipelineFilter>, i: nat, ghost wiring: Wiring, ghost spec: ForwarderSpec, ghost k: nat,
                        ghost inputs: map<string, Input>) returns (c: Component)
    requires i < |filters| && Holds(wiring) && IsWired(filters, wiring, spec, k, inputs)
    requires Filled(inputs, InputMap(spec.inputs))
    ensures c == StageComponent(spec, k, i)
  {
    hide FilterId, SystemOrder, InputChains, FactsOf, StageAt;
    var pf := filters[i];
    var node := pf.Transform();
    if i == 0 {
      HeadIds(inputs, InputMap(spec.inputs), spec.pipelines[k].inputRefs);
    } else {
      assert AllInputIds([FromFilter(filters[i - 1])]) == [filters[i - 1].id];
    }
    c := Component(TransformNode, pf.id, node);
  }

  method MakeTransforms(pipelines: map<string, seq<PipelineFilter>>, ghost wiring: Wiring, ghost spec: ForwarderSpec,
                        ghost indexes: map<string, nat>, ghost inputs: map<string, Input>) returns (table: Table)
    requires AllResolve(spec) && pipelines.Keys == indexes.Keys && forall n :: n in indexes ==> indexes[n] < |spec.pipelines|
    requires Holds(wiring) && forall n :: n in pipelines ==> IsWired(pipelines[n], wiring, spec, indexes[n], inputs)
    requires Filled(inputs, InputMap(spec.inputs))
    ensures table.Keys == indexes.Keys && forall n :: n in table ==> table[n] == StageComponents(spec, indexes[n])
  {
    hide IsWired, StageComponents, Stages, Filled, Holds;
    table := map[];
    var todo := pipelines.Keys;
    while todo != {}
      invariant todo <= pipelines.Keys && table.Keys == pipelines.Keys - todo
      invariant forall n :: n in table ==> table[n] == StageComponents(spec, indexes[n])
      decreases todo
    {
      var n :| n in todo;
      var cs := Transforms(pipelines[n], wiring, spec, indexes[n], inputs);
      table := table[n := cs];
      todo := todo - {n};
    }
  }

  method MakeSinks(outputs: map<string, Output>, ghost spec: ForwarderSpec) returns (table: Table)
    requires AllResolve(spec) && OutputAdaptersOf(outputs, OutputMap(spec.outputs))
    requires Collected(outputs, spec, |spec.pipelines|)
    ensures table == OutputTable(spec, OutputMap(spec.outputs))
  {
    table := map n | n in outputs :: OutputComponents(outputs[n].spec, outputs[n].inputIds);
  }

  method WriteConfig(sources: Table, transforms: Table, sinks: Table) returns (r: Config)
    ensures r == Assemble([MetricsSource()] + Flatten(sources) + Flatten(transforms) + Flatten(sinks) + MetricsOutput())
  {
    ghost var done := [MetricsSource()];
    r := AddAll(Config(map[], map[], map[]), [], [MetricsSource()]);
    r := AddTable(r, done, sources);
    done := done + Flatten(sources);
    r := AddTable(r, done, transforms);
    done := done + Flatten(transforms);
    r := AddTable(r, done, sinks);
    r := AddAll(r, done + Flatten(sinks), MetricsOutput());
  }

  /** The phases after the adapters are in place. */
  method Generate(spec: ForwarderSpec, inputs: map<string, Input>, pipelines: map<string, seq<PipelineFilter>>,
                  outputs: map<string, Output>, ghost wiring: Wiring, ghost indexes: map<string, nat>) returns (r: Outcome<Config>)
    requires AdaptersOf(inputs, InputMap(spec.inputs)) && forall n :: n in inputs ==> inputs[n].ids == []
    requires AllResolve(spec) && indexes == PipelineIndexes(spec.pipelines) && pipelines.Keys == indexes.Keys
    requires Holds(wiring) && forall n :: n in pipelines ==> IsWired(pipelines[n], wiring, spec, indexes[n], inputs)
    requires OutputAdaptersOf(outputs, OutputMap(spec.outputs)) && Collected(outputs, spec, |spec.pipelines|)
    modifies inputs.Values
    ensures r == Compile(spec)
  {
    hide IsWired, Collected, Filled, Holds, Stages, StageComponents, InputChains, AdaptersOf, OutputAdaptersOf, OutputComponents,
         OutputInputs, Assemble, InputMap, OutputMap, FilterMap, PipelineResolves, MetricsOutput, MetricsSource;
    var sources := MakeSources(inputs, InputMap(spec.inputs));
    if sources.Panic? {
      return Panic;
    }
    PipelineIndexesInRange(spec.pipelines);
    var transforms := MakeTransforms(pipelines, wiring, spec, indexes, inputs);
    assert transforms == PipelineTable(spec, indexes);
    var sinks := MakeSinks(outputs, spec);
    var config := WriteConfig(sources.value, transforms, sinks);
    r := Ok(config);
  }

  /** The whole generator: it yields exactly the compiled configuration, and panics exactly when that does. */
  method Conf(spec: ForwarderSpec) returns (r: Outcome<Config>)
    ensures r == Compile(spec)
  {
    var inputs := MakeInputs(spec.inputs);
    var outputs := MakeOutputs(spec.outputs);
    var pipelines, wiring := MakePipelines(spec, inputs, outputs);
    if pipelines.Panic? {
      return Panic;
    }
    r := Generate(spec, inputs, pipelines.value, outputs, wiring, PipelineIndexes(spec.pipelines));
  }
}
