/**
 Compilation preserves routing: the paths from sources to sinks in the generated configuration are exactly
 the (input, filters, output) routes of the spec.
 */
module Routes {
  import opened Wrappers
  import opened Ordering
  import opened Ids
  import opened Api
  import opened Components
  import opened Graph

  // -------- membership

  lemma {:induction false} FlattenMember(names: seq<string>, table: Table, c: Component)
    requires forall n :: n in names ==> n in table
    ensures c in FlattenNames(names, table) <==> exists n :: n in names && c in table[n]
  {
    if names != [] {
      var init, last := names[..|names| - 1], names[|names| - 1];
      FlattenMember(init, table, c);
      assert names == init + [last];
    }
  }

  lemma {:induction false} ChainsMember(chains: seq<Chain>, x: Component)
    requires forall c :: c in chains ==> c.Valid()
    ensures x in ChainsComponents(chains) <==> exists c :: c in chains && x in ChainComponents(c)
  {
    if chains != [] {
      var init, last := chains[..|chains| - 1], chains[|chains| - 1];
      ChainsMember(init, x);
      assert chains == init + [last];
    }
  }

  lemma {:induction false} LastIdsMember(chains: seq<Chain>, id: string)
    requires forall c :: c in chains ==> c.Valid()
    ensures id in LastIds(chains) <==> exists c :: c in chains && c.Last() == id
  {
    if chains != [] {
      var init, last := chains[..|chains| - 1], chains[|chains| - 1];
      LastIdsMember(init, id);
      assert chains == init + [last];
    }
  }

  lemma {:induction false} HeadMember(inputs: map<string, InputSpec>, refs: seq<string>, id: string)
    ensures id in UnsortedHeadInputs(inputs, refs) <==>
            exists n :: n in refs && n in inputs && id in LastIds(InputChains(inputs[n]))
  {
    hide InputChains;
    if refs != [] {
      var init, last := refs[..|refs| - 1], refs[|refs| - 1];
      HeadMember(inputs, init, id);
      assert refs == init + [last];
    }
  }

  lemma {:induction false} RepeatMember(x: string, n: nat, id: string)
    ensures id in Repeat(x, n) <==> n > 0 && id == x
  {
    if n > 0 {
      RepeatMember(x, n - 1, id);
    }
  }

  lemma {:induction false} CountMember(refs: seq<string>, name: string)
    ensures Count(refs, name) > 0 <==> name in refs
  {
    if refs != [] {
      CountMember(refs[..|refs| - 1], name);
      assert refs == refs[..|refs| - 1] + [refs[|refs| - 1]];
    }
  }

  lemma {:induction false} OutputInputMember(spec: ForwarderSpec, name: string, n: nat, id: string)
    requires AllResolve(spec) && n <= |spec.pipelines|
    ensures id in OutputInputs(spec, name, n) <==>
            exists k :: 0 <= k < n && name in spec.pipelines[k].outputRefs && id == LastStage(spec, k)
  {
    hide LastStage;
    if n > 0 {
      OutputInputMember(spec, name, n - 1, id);
      RepeatMember(LastStage(spec, n - 1), Count(spec.pipelines[n - 1].outputRefs, name), id);
      CountMember(spec.pipelines[n - 1].outputRefs, name);
    }
  }

  ghost predicate UniquePipelines(spec: ForwarderSpec) {
    forall i, j :: 0 <= i < j < |spec.pipelines| ==> spec.pipelines[i].name != spec.pipelines[j].name
  }

  lemma {:induction false} IndexOfUnique(pipelines: seq<PipelineSpec>, k: nat)
    requires k < |pipelines|
    requires forall i, j :: 0 <= i < j < |pipelines| ==> pipelines[i].name != pipelines[j].name
    ensures pipelines[k].name in PipelineIndexes(pipelines) && PipelineIndexes(pipelines)[pipelines[k].name] == k
  {
    var last := |pipelines| - 1;
    if k < last {
      IndexOfUnique(pipelines[..last], k);
    }
  }

  /** The components that belong to the spec, stage by stage. */
  ghost predicate OfInput(spec: ForwarderSpec, x: Component) {
    exists n, c :: n in InputMap(spec.inputs) && c in InputChains(InputMap(spec.inputs)[n]) && x in ChainComponents(c)
  }

  ghost predicate OfPipeline(spec: ForwarderSpec, x: Component)
    requires AllResolve(spec)
  {
    exists k :: 0 <= k < |spec.pipelines| && x in StageComponents(spec, k)
  }

  ghost predicate OfOutput(spec: ForwarderSpec, x: Component)
    requires AllResolve(spec)
  {
    exists o :: o in OutputMap(spec.outputs) && x in OutputParts(spec, o)
  }

  ghost function OutputParts(spec: ForwarderSpec, o: string): (parts: seq<Component>)
    requires AllResolve(spec) && o in OutputMap(spec.outputs)
    ensures |parts| > 0
  {
    OutputComponents(OutputMap(spec.outputs)[o], OutputInputs(spec, o, |spec.pipelines|))
  }

  lemma InputTableMember(inputs: map<string, InputSpec>, x: Component)
    ensures x in Flatten(InputTable(inputs)) <==>
            exists n, c :: n in inputs && c in InputChains(inputs[n]) && x in ChainComponents(c)
  {
    hide InputChains, ChainComponents;
    var table := InputTable(inputs);
    FlattenMember(Listing(table.Keys), table, x);
    forall n | n in inputs
      ensures x in table[n] <==> exists c :: c in InputChains(inputs[n]) && x in ChainComponents(c)
    {
      ChainsMember(InputChains(inputs[n]), x);
    }
  }

  lemma PipelineTableMember(spec: ForwarderSpec, indexes: map<string, nat>, x: Component)
    requires AllResolve(spec) && UniquePipelines(spec) && indexes == PipelineIndexes(spec.pipelines)
    requires forall n :: n in indexes ==> indexes[n] < |spec.pipelines|
    ensures x in Flatten(PipelineTable(spec, indexes)) <==> OfPipeline(spec, x)
  {
    hide StageComponents;
    var table := PipelineTable(spec, indexes);
    FlattenMember(Listing(table.Keys), table, x);
    forall k | 0 <= k < |spec.pipelines|
      ensures spec.pipelines[k].name in table && table[spec.pipelines[k].name] == StageComponents(spec, k)
    {
      IndexOfUnique(spec.pipelines, k);
    }
  }

  lemma OutputTableMember(spec: ForwarderSpec, outputs: map<string, OutputSpec>, x: Component)
    requires AllResolve(spec) && outputs == OutputMap(spec.outputs)
    ensures x in Flatten(OutputTable(spec, outputs)) <==> OfOutput(spec, x)
  {
    hide OutputComponents, OutputInputs;
    var table := OutputTable(spec, outputs);
    FlattenMember(Listing(table.Keys), table, x);
    forall o | o in outputs ensures table[o] == OutputParts(spec, o) {
    }
  }

  lemma ComponentMember(spec: ForwarderSpec, x: Component)
    requires AllResolve(spec) && UniquePipelines(spec)
    ensures x in AllComponents(spec) <==>
            x == MetricsSource() || OfInput(spec, x) || OfPipeline(spec, x) || OfOutput(spec, x) || x in MetricsOutput()
  {
    hide InputChains, StageComponents, OutputParts, ChainComponents;
    PipelineIndexesInRange(spec.pipelines);
    InputTableMember(InputMap(spec.inputs), x);
    PipelineTableMember(spec, PipelineIndexes(spec.pipelines), x);
    OutputTableMember(spec, OutputMap(spec.outputs), x);
  }

  // -------- the routes of the spec

  /** A chain of input `n` feeds pipeline `k`, which refers to output `o`. */
  ghost predicate Denotes(spec: ForwarderSpec, n: string, c: Chain, k: nat, o: string) {
    && n in InputMap(spec.inputs) && c in InputChains(InputMap(spec.inputs)[n])
    && k < |spec.pipelines| && n in spec.pipelines[k].inputRefs
    && o in spec.pipelines[k].outputRefs && o in OutputMap(spec.outputs)
  }

  ghost function SpecPath(spec: ForwarderSpec, n: string, c: Chain, k: nat, o: string): seq<Component>
    requires AllResolve(spec) && Denotes(spec, n, c, k, o)
  {
    assert spec.pipelines[k] in spec.pipelines;
    ChainComponents(c) + StageComponents(spec, k) + OutputParts(spec, o)
  }

  function MetricsPath(): seq<Component> {
    [MetricsSource()] + MetricsOutput()
  }

  ghost predicate IsSpecPath(spec: ForwarderSpec, path: seq<Component>)
    requires AllResolve(spec)
  {
    path == MetricsPath() || exists n, c, k, o :: Denotes(spec, n, c, k, o) && path == SpecPath(spec, n, c, k, o)
  }

  // -------- the blocks of the generated graph

  lemma ChainIsBlock(spec: ForwarderSpec, n: string, c: Chain)
    requires AllResolve(spec) && UniquePipelines(spec)
    requires n in InputMap(spec.inputs) && c in InputChains(InputMap(spec.inputs)[n])
    ensures c.Valid() && IsBlock(AllComponents(spec), ChainComponents(c))
  {
    hide InputChains, AllComponents;
    forall x | x in ChainComponents(c) ensures x in AllComponents(spec) {
      ComponentMember(spec, x);
    }
  }

  lemma StagesAreBlock(spec: ForwarderSpec, k: nat)
    requires AllResolve(spec) && UniquePipelines(spec) && k < |spec.pipelines|
    ensures spec.pipelines[k] in spec.pipelines
    ensures IsBlock(AllComponents(spec), StageComponents(spec, k))
  {
    hide AllComponents, SystemOrder, Stages, HeadInputs;
    var cs := StageComponents(spec, k);
    forall x | x in cs ensures x in AllComponents(spec) {
      ComponentMember(spec, x);
    }
    forall j | 0 < j < |cs| ensures cs[j].kind != SourceNode && cs[j].node.inputs == [cs[j - 1].id] {
      assert cs[j] == StageComponent(spec, k, j) && cs[j - 1] == StageComponent(spec, k, j - 1);
    }
  }

  lemma OutputIsBlock(spec: ForwarderSpec, o: string)
    requires AllResolve(spec) && UniquePipelines(spec) && o in OutputMap(spec.outputs)
    ensures IsBlock(AllComponents(spec), OutputParts(spec, o))
  {
    hide AllComponents, OutputInputs, MakeId, MakeOutputId;
    forall x | x in OutputParts(spec, o) ensures x in AllComponents(spec) {
      ComponentMember(spec, x);
    }
  }

  lemma MetricsIsBlock(spec: ForwarderSpec)
    requires AllResolve(spec) && UniquePipelines(spec)
    ensures IsBlock(AllComponents(spec), MetricsPath())
  {
    hide AllComponents;
    forall x | x in MetricsPath() ensures x in AllComponents(spec) {
      ComponentMember(spec, x);
    }
  }

  // -------- what the first component of each block reads

  lemma HeadStageReads(spec: ForwarderSpec, k: nat)
    requires AllResolve(spec) && k < |spec.pipelines| && spec.pipelines[k] in spec.pipelines
    ensures StageComponents(spec, k)[0].node.inputs == Sort(UnsortedHeadInputs(InputMap(spec.inputs), spec.pipelines[k].inputRefs))
  {
    hide InputChains, SystemOrder, StageAt, Sort, UnsortedHeadInputs;
    assert StageComponents(spec, k)[0] == StageComponent(spec, k, 0);
  }

  lemma StageHeadReads(spec: ForwarderSpec, k: nat, id: string)
    requires AllResolve(spec) && k < |spec.pipelines| && spec.pipelines[k] in spec.pipelines
    ensures id in StageComponents(spec, k)[0].node.inputs <==>
            exists n, c :: n in spec.pipelines[k].inputRefs && n in InputMap(spec.inputs) && c in InputChains(InputMap(spec.inputs)[n]) && c.Last() == id
  {
    var inputs, refs := InputMap(spec.inputs), spec.pipelines[k].inputRefs;
    HeadStageReads(spec, k);
    hide InputChains, StageComponents, Sort, InputMap, LastIds, UnsortedHeadInputs;
    SortProperties(UnsortedHeadInputs(inputs, refs));
    HeadMember(inputs, refs, id);
    forall n | n in inputs ensures id in LastIds(InputChains(inputs[n])) <==> exists c :: c in InputChains(inputs[n]) && c.Last() == id {
      LastIdsMember(InputChains(inputs[n]), id);
    }
  }

  lemma OutputHeadReads(spec: ForwarderSpec, o: string, id: string)
    requires AllResolve(spec) && o in OutputMap(spec.outputs)
    ensures id in OutputParts(spec, o)[0].node.inputs <==>
            exists k :: 0 <= k < |spec.pipelines| && o in spec.pipelines[k].outputRefs && id == LastStage(spec, k)
  {
    hide LastStage;
    var all := OutputInputs(spec, o, |spec.pipelines|);
    OutputInputMember(spec, o, |spec.pipelines|, id);
    SortProperties(all);
  }

  // -------- the theorem, on components

  lemma SourcesAtHeads(spec: ForwarderSpec)
    requires AllResolve(spec) && UniquePipelines(spec)
    ensures SourcesReadNothing(AllComponents(spec))
  {
    hide AllComponents, InputChains, OutputInputs, MakeId, MakeOutputId, HeadInputs, Stages;
    forall x | x in AllComponents(spec) && x.kind == SourceNode ensures x.node.inputs == [] {
      ComponentMember(spec, x);
    }
  }

  lemma StageKinds(spec: ForwarderSpec, k: nat)
    requires AllResolve(spec) && k < |spec.pipelines| && spec.pipelines[k] in spec.pipelines
    ensures |StageComponents(spec, k)| > 0
    ensures forall x :: x in StageComponents(spec, k) ==> x.kind == TransformNode
    ensures StageComponents(spec, k)[|StageComponents(spec, k)| - 1].id == LastStage(spec, k)
  {
    hide SystemOrder, HeadInputs;
    var cs := StageComponents(spec, k);
    assert cs[|cs| - 1] == StageComponent(spec, k, |cs| - 1);
  }

  lemma OutputKinds(spec: ForwarderSpec, o: string)
    requires AllResolve(spec) && o in OutputMap(spec.outputs)
    ensures |OutputParts(spec, o)| > 0 && OutputParts(spec, o)[0].kind != SourceNode
    ensures forall j :: 0 <= j < |OutputParts(spec, o)| ==> (OutputParts(spec, o)[j].kind == SinkNode <==> j == |OutputParts(spec, o)| - 1)
  {
    hide OutputInputs, MakeId, MakeOutputId;
  }

  lemma ChainEnds(c: Chain)
    requires c.Valid()
    ensures ChainComponents(c)[0].kind == SourceNode && ChainComponents(c)[|c.ids| - 1].id == c.Last()
  {
  }

  lemma SpecPathIsWalk(spec: ForwarderSpec, n: string, c: Chain, k: nat, o: string)
    requires AllResolve(spec) && UniquePipelines(spec) && Denotes(spec, n, c, k, o)
    ensures Walk(AllComponents(spec), SpecPath(spec, n, c, k, o))
  {
    hide AllComponents, InputChains, StageComponents, OutputParts, LastStage, ChainComponents;
    var cs := AllComponents(spec);
    ChainIsBlock(spec, n, c);
    ChainEnds(c);
    StagesAreBlock(spec, k);
    OutputIsBlock(spec, o);
    StageKinds(spec, k);
    OutputKinds(spec, o);
    var chain, stages := ChainComponents(c), StageComponents(spec, k);
    StageHeadReads(spec, k, c.Last());
    OutputHeadReads(spec, o, LastStage(spec, k));
    BlocksWalk(cs, chain, stages, OutputParts(spec, o));
  }

  lemma MetricsIsWalk(spec: ForwarderSpec)
    requires AllResolve(spec) && UniquePipelines(spec)
    ensures Walk(AllComponents(spec), MetricsPath())
  {
    hide AllComponents;
    MetricsIsBlock(spec);
    BlockForward(AllComponents(spec), [], MetricsPath());
    assert [] + MetricsPath() == MetricsPath();
  }

  /** A sink belongs to an output or to the collector's own metrics. */
  lemma SinkOwner(spec: ForwarderSpec, x: Component)
    requires AllResolve(spec) && UniquePipelines(spec) && x in AllComponents(spec) && x.kind == SinkNode
    ensures x == MetricsPath()[2] ||
            exists o :: o in OutputMap(spec.outputs) && x == OutputParts(spec, o)[|OutputParts(spec, o)| - 1]
  {
    hide AllComponents, InputChains, OutputParts, Stages, SystemOrder;
    ComponentMember(spec, x);
    assert !OfInput(spec, x);
    assert !OfPipeline(spec, x);
    if OfOutput(spec, x) {
      var o :| o in OutputMap(spec.outputs) && x in OutputParts(spec, o);
      OutputKinds(spec, o);
    }
  }

  lemma WalkIsSpecPath(spec: ForwarderSpec, path: seq<Component>)
    requires AllResolve(spec) && UniquePipelines(spec) && DistinctIds(AllComponents(spec)) && Walk(AllComponents(spec), path)
    ensures IsSpecPath(spec, path)
  {
    hide AllComponents, InputChains, StageComponents, OutputParts, LastStage, DistinctIds;
    var cs, last := AllComponents(spec), path[|path| - 1];
    SinkOwner(spec, last);
    if last == MetricsPath()[2] {
      MetricsIsBlock(spec);
      var pre := BlockSuffix(cs, MetricsPath(), path);
      assert pre == [];
    } else {
      var o :| o in OutputMap(spec.outputs) && last == OutputParts(spec, o)[|OutputParts(spec, o)| - 1];
      WalkToOutput(spec, path, o);
    }
  }

  lemma WalkToOutput(spec: ForwarderSpec, path: seq<Component>, o: string)
    requires AllResolve(spec) && UniquePipelines(spec) && DistinctIds(AllComponents(spec)) && Walk(AllComponents(spec), path)
    requires o in OutputMap(spec.outputs) && path[|path| - 1] == OutputParts(spec, o)[|OutputParts(spec, o)| - 1]
    ensures exists n, c, k :: Denotes(spec, n, c, k, o) && path == SpecPath(spec, n, c, k, o)
  {
    hide AllComponents, InputChains, StageComponents, OutputParts, LastStage, DistinctIds, ChainComponents;
    var cs := AllComponents(spec);
    OutputIsBlock(spec, o);
    OutputKinds(spec, o);
    var toStages := BlockSuffix(cs, OutputParts(spec, o), path);
    var end := toStages[|toStages| - 1];
    OutputHeadReads(spec, o, end.id);
    var k: nat :| k < |spec.pipelines| && o in spec.pipelines[k].outputRefs && end.id == LastStage(spec, k);
    var n, c := WalkToStages(spec, toStages, k);
    assert path == SpecPath(spec, n, c, k, o);
  }

  lemma WalkToStages(spec: ForwarderSpec, path: seq<Component>, k: nat) returns (n: string, c: Chain)
    requires AllResolve(spec) && UniquePipelines(spec) && DistinctIds(AllComponents(spec)) && k < |spec.pipelines|
    requires path != [] && Linked(AllComponents(spec), path) && path[0].kind == SourceNode
    requires spec.pipelines[k] in spec.pipelines && path[|path| - 1].id == LastStage(spec, k)
    ensures n in InputMap(spec.inputs) && c in InputChains(InputMap(spec.inputs)[n]) && n in spec.pipelines[k].inputRefs
    ensures path == ChainComponents(c) + StageComponents(spec, k)
  {
    hide AllComponents, InputChains, StageComponents, LastStage, DistinctIds;
    var cs, stages := AllComponents(spec), StageComponents(spec, k);
    StagesAreBlock(spec, k);
    StageKinds(spec, k);
    SameIdSameComponent(cs, path[|path| - 1], stages[|stages| - 1]);
    assert stages[0] in stages;
    var toChain := BlockSuffix(cs, stages, path);
    var end := toChain[|toChain| - 1];
    StageHeadReads(spec, k, end.id);
    n, c :| n in spec.pipelines[k].inputRefs && n in InputMap(spec.inputs) && c in InputChains(InputMap(spec.inputs)[n]) && c.Last() == end.id;
    ChainIsBlock(spec, n, c);
    SameIdSameComponent(cs, end, ChainComponents(c)[|c.ids| - 1]);
    var before := BlockSuffix(cs, ChainComponents(c), toChain);
    assert before == [];
    assert toChain == ChainComponents(c);
  }

  // -------- the theorem, on the generated configuration

  /** Routes of the configuration, by id, are exactly the id sequences of the spec's routes. */
  lemma RoutesExact(spec: ForwarderSpec, config: Config, ids: seq<string>)
    requires Compile(spec) == Ok(config) && UniquePipelines(spec) && DistinctIds(AllComponents(spec))
    ensures IsRoute(config, ids) <==> exists path :: IsSpecPath(spec, path) && ids == IdsOf(path)
  {
    hide AllComponents, DistinctIds, Walk, SpecPath, Denotes;
    SourcesAtHeads(spec);
    if IsRoute(config, ids) {
      var path := RouteIsWalk(AllComponents(spec), ids);
      WalkIsSpecPath(spec, path);
    }
    if path :| IsSpecPath(spec, path) && ids == IdsOf(path) {
      SpecPathsAreWalks(spec, path);
      WalkIsRoute(AllComponents(spec), path);
    }
  }

  lemma SpecPathsAreWalks(spec: ForwarderSpec, path: seq<Component>)
    requires AllResolve(spec) && UniquePipelines(spec) && IsSpecPath(spec, path)
    ensures Walk(AllComponents(spec), path)
  {
    hide AllComponents, Walk, SpecPath, Denotes;
    if path == MetricsPath() {
      MetricsIsWalk(spec);
    } else {
      var n, c, k: nat, o :| Denotes(spec, n, c, k, o) && path == SpecPath(spec, n, c, k, o);
      SpecPathIsWalk(spec, n, c, k, o);
    }
  }
}
