/** Which log files the container sources of a generated configuration collect. */
module Sources {
  import opened Wrappers
  import opened Ids
  import opened Api
  import opened Conditions
  import opened Components
  import opened Graph
  import opened Routes
  import opened Distinctness
  import opened Migration
  import opened Checks
  import opened Permissions
  import opened GateProofs
  import opened Selection
  import opened SelectionProofs
  import ContainerPaths

  predicate ReadsContainers(i: InputSpec) {
    i.kind == Application || (i.kind == Infrastructure && ContainerLogs in InfrastructureSources(i))
  }

  /** The log file is one that the input asks for. */
  ghost predicate InputAsks(i: InputSpec, f: LogFile) {
    && ReadsContainers(i)
    && if i.kind == Application then ApplicationAsks(i.application, f) else IsInfra(f.ns) && !IsLoggingFile(f)
  }

  predicate ContainerSource(n: Node) {
    n.work.Source? && n.work.source.KubernetesLogs?
  }

  /** Some container source of the configuration selects the path. */
  ghost predicate Collected(config: Config, path: string) {
    exists id :: id in config.sources && ContainerSource(config.sources[id])
                 && ContainerPaths.Selected(config.sources[id].work.source.selector.includes, config.sources[id].work.source.selector.excludes, path)
  }

  // -------- from validation to valid globs

  lemma {:induction false} GlobMessagesNone(list: string, globs: seq<NamespaceContainer>)
    ensures GlobMessages(list, globs) == [] <==> ValidEntries(globs)
  {
    if globs != [] {
      GlobMessagesNone(list, globs[..|globs| - 1]);
      assert globs == globs[..|globs| - 1] + [globs[|globs| - 1]];
    }
  }

  /** What validation accepts of an application input is what the selection theorems ask for. */
  lemma AcceptedGlobs(i: InputSpec, world: World)
    requires i.kind == Application
    ensures InputVerdict(i, world).status == True <==> i.application.Some? && ValidApplication(i.application)
  {
    hide GlobMessages, JoinWith, KindOf, ValidEntries;
    if i.application.Some? {
      GlobMessagesNone("excludes", i.application.value.excludes);
      GlobMessagesNone("includes", i.application.value.includes);
    }
  }

  lemma SelectorSelects(i: InputSpec, world: World, f: LogFile)
    requires ReadsContainers(i) && InputVerdict(i, world).status == True && f.Valid()
    ensures ContainerPaths.Selected(SelectorOf(i).includes, SelectorOf(i).excludes, f.Path()) <==> InputAsks(i, f)
  {
    hide InputVerdict, ContainerPaths.Selected, ApplicationIncludes, ApplicationExcludes, InfrastructureIncludes, LoggingExcludes,
         ApplicationAsks, IsLoggingFile, LogFile.Path, LogFile.Valid, ValidApplication;
    if i.kind == Application {
      AcceptedGlobs(i, world);
      ApplicationSelects(i.application, f);
    } else {
      InfrastructureSelects(f);
    }
  }

  // -------- container sources among the components

  lemma ContainerLabel(i: InputSpec, c: Chain)
    requires c in InputChains(i) && c.labels[0].source.KubernetesLogs?
    ensures ReadsContainers(i) && c.labels[0].source.selector == SelectorOf(i)
  {
    hide MakeInputId, MakeId, SelectorOf, AuditPaths;
  }

  lemma ContainerChainIn(i: InputSpec) returns (c: Chain)
    requires ReadsContainers(i)
    ensures c in InputChains(i) && c.labels[0] == Source(KubernetesLogs(SelectorOf(i)))
  {
    hide MakeInputId, MakeId, SelectorOf;
    c := ContainerChain(i, SelectorOf(i));
  }

  lemma OutputKinds(o: OutputSpec, inputs: seq<string>, x: Component)
    requires x in OutputComponents(o, inputs)
    ensures x.kind != SourceNode
  {
    hide MakeOutputId, MakeId;
  }

  lemma SourceOfInput(spec: ForwarderSpec, x: Component)
    requires AllResolve(spec) && UniquePipelines(spec) && x in AllComponents(spec) && x.kind == SourceNode && ContainerSource(x.node)
    ensures OfInput(spec, x)
  {
    ComponentMember(spec, x);
    hide AllComponents, OfInput, StageComponents, OutputComponents;
    if OfOutput(spec, x) {
      var o :| o in OutputMap(spec.outputs) && x in OutputParts(spec, o);
      OutputKinds(OutputMap(spec.outputs)[o], OutputInputs(spec, o, |spec.pipelines|), x);
    }
  }

  lemma LabelOfInput(spec: ForwarderSpec, x: Component) returns (i: InputSpec)
    requires OfInput(spec, x) && x.kind == SourceNode && ContainerSource(x.node)
    ensures i in spec.inputs && ReadsContainers(i) && x.node.work == Source(KubernetesLogs(SelectorOf(i)))
  {
    hide InputChains, ReadsContainers, SelectorOf, InputMap;
    InputMapKeys(spec.inputs);
    var n, c :| n in InputMap(spec.inputs) && c in InputChains(InputMap(spec.inputs)[n]) && x in ChainComponents(c);
    i := InputMap(spec.inputs)[n];
    var j :| 0 <= j < |c.ids| && x == ChainComponent(c, j);
    ContainerLabel(i, c);
  }

  lemma InputHasSource(spec: ForwarderSpec, i: InputSpec) returns (x: Component)
    requires AllResolve(spec) && UniquePipelines(spec) && UniqueNames(spec.inputs) && i in spec.inputs && ReadsContainers(i)
    ensures x in AllComponents(spec) && x.kind == SourceNode && x.node.work == Source(KubernetesLogs(SelectorOf(i)))
  {
    var c := ContainerChainIn(i);
    hide AllComponents, InputChains, ReadsContainers, SelectorOf, InputMap, UniqueNames, UniquePipelines;
    InputMapOfUnique(spec.inputs);
    x := ChainComponents(c)[0];
    assert i.name in InputMap(spec.inputs) && InputMap(spec.inputs)[i.name] == i;
    assert OfInput(spec, x);
    hide OfInput, ChainComponents, OfPipeline, OfOutput, MetricsSource, MetricsOutput;
    ComponentMember(spec, x);
  }

  /**
   For a spec that passes the gate and whose names do not clash, the sources of the generated configuration collect exactly
   the log files that some input asks for.
   */
  lemma CollectsExact(spec: ForwarderSpec, world: World, config: Config, f: LogFile)
    requires SpecPasses(spec, world) && UniqueNames(spec.inputs) && UniquePipelines(spec) && NoClash(spec)
    requires Compile(spec) == Ok(config) && f.Valid()
    ensures Collected(config, f.Path()) <==> exists i :: i in spec.inputs && InputAsks(i, f)
  {
    var cs := AllComponents(spec);
    IdsDistinctIff(spec);
    hide AllComponents, Assemble, InputsPanic, AllResolve, NoClash, UniqueNames, UniquePipelines, SelectorOf, InputVerdict, Permitted,
         OutputVerdict, FilterVerdict, PipelinePasses, ContainerPaths.Selected, LogFile.Valid, LogFile.Path, InputAsks, ReadsContainers, DistinctIds, OfInput;
    if Collected(config, f.Path()) {
      var id :| id in config.sources && ContainerSource(config.sources[id])
                && ContainerPaths.Selected(config.sources[id].work.source.selector.includes, config.sources[id].work.source.selector.excludes, f.Path());
      var x := Component(SourceNode, id, config.sources[id]);
      AssembleExact(cs, x);
      SourceOfInput(spec, x);
      var i := LabelOfInput(spec, x);
      SelectorSelects(i, world, f);
    }
    if i :| i in spec.inputs && InputAsks(i, f) {
      AsksReads(i, f);
      var x := InputHasSource(spec, i);
      AssembleExact(cs, x);
      SelectorSelects(i, world, f);
      assert x.id in config.sources && config.sources[x.id] == x.node;
    }
  }

  lemma AsksReads(i: InputSpec, f: LogFile)
    ensures InputAsks(i, f) ==> ReadsContainers(i)
  {
  }

  /** With both reserved inputs, every container log is collected but those of the logging stack, unless an input asks for these too. */
  lemma ReservedCollectAll(spec: ForwarderSpec, world: World, config: Config, f: LogFile)
    requires SpecPasses(spec, world) && UniqueNames(spec.inputs) && UniquePipelines(spec) && NoClash(spec)
    requires Compile(spec) == Ok(config) && f.Valid()
    requires ReservedInput(APPLICATION) in spec.inputs && ReservedInput(INFRASTRUCTURE) in spec.inputs
    ensures Collected(config, f.Path()) <==> !IsLoggingFile(f) || exists i :: i in spec.inputs && InputAsks(i, f)
  {
    CollectsExact(spec, world, config, f);
    hide SpecPasses, UniqueNames, UniquePipelines, NoClash, Compile, Collected, IsLoggingFile;
    if !IsLoggingFile(f) {
      ReservedAsk(f);
    }
  }

  lemma ReservedAsk(f: LogFile)
    requires f.Valid() && !IsLoggingFile(f)
    ensures InputAsks(ReservedInput(APPLICATION), f) || InputAsks(ReservedInput(INFRASTRUCTURE), f)
  {
    hide IsLoggingFile, LogFile.Valid, LogFile.Path;
    Partition(f);
    ApplicationSelects(DEFAULT_APPLICATION, f);
    InfrastructureSelects(f);
    ReservedKinds();
  }

  lemma ReservedKinds()
    ensures ReservedInput(APPLICATION).kind == Application && ReservedInput(APPLICATION).application == DEFAULT_APPLICATION
    ensures ReservedInput(INFRASTRUCTURE).kind == Infrastructure && ReadsContainers(ReservedInput(INFRASTRUCTURE))
  {
  }
}
