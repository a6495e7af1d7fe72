/** What stands between a source and the pipelines, told by the traces of the configuration, and which reviews cover it. */
module SourceChains {
  import opened Wrappers
  import opened Ids
  import opened Api
  import opened Components
  import opened Graph
  import opened Routes
  import opened Distinctness
  import opened Traces
  import opened Suffixes
  import opened Migration
  import opened Checks
  import opened Permissions
  import opened GateProofs
  import opened Provenance
  import opened SystemFilter

  /** The component that starts the route of a chain. */
  lemma RouteStart(spec: ForwarderSpec, config: Config, ids: seq<string>, trace: seq<Label>)
    returns (i: InputSpec, c: Chain, k: nat, o: string)
    requires Compile(spec) == Ok(config) && UniqueNames(spec.inputs) && UniquePipelines(spec) && NoClash(spec)
    requires IsRoute(config, ids) && DoesWork(config, ids, trace) && ids[0] != INTERNAL_METRICS
    ensures Denotes(spec, i.name, c, k, o) && i in spec.inputs && c in InputChains(i) && c.Valid()
    ensures trace == SpecTrace(spec, i.name, c, k, o) && ids[0] == c.ids[0]
  {
    hide InputChains, InputMap, OutputMap, SpecPath, SpecTrace, AllComponents, UniqueNames, UniquePipelines, NoClash, Assemble, InputsPanic, IsRoute, DoesWork;
    IdsDistinctIff(spec);
    RoutesExact(spec, config, ids);
    InputMapKeys(spec.inputs);
    var path :| IsSpecPath(spec, path) && ids == IdsOf(path);
    assert path != MetricsPath();
    var n, d, m: nat, out :| Denotes(spec, n, d, m, out) && path == SpecPath(spec, n, d, m, out);
    i, c, k, o := InputMap(spec.inputs)[n], d, m, out;
    ChainFollowed(i, c);
    PathInGraph(spec, path);
    WorkAlong(AllComponents(spec), path, trace);
    SpecPathWorks(spec, n, c, k, o);
    SpecPathStart(spec, n, c, k, o);
  }

  lemma SpecPathStart(spec: ForwarderSpec, n: string, c: Chain, k: nat, o: string)
    requires AllResolve(spec) && Denotes(spec, n, c, k, o)
    ensures c.Valid() && SpecPath(spec, n, c, k, o) != [] && SpecPath(spec, n, c, k, o)[0].id == c.ids[0]
  {
    hide InputChains, InputMap, OutputMap, StageComponents, OutputParts;
    ChainFollowed(InputMap(spec.inputs)[n], c);
  }

  /** Only the container source of an input has its id. */
  lemma ContainerIdOwner(spec: ForwarderSpec, i: InputSpec, j: InputSpec, c: Chain)
    requires UniqueNames(spec.inputs) && NoClash(spec) && i in spec.inputs && j in spec.inputs && AsksContainers(i)
    requires c in InputChains(j) && c.Valid() && c.ids[0] == MakeInputId([i.name, "container"])
    ensures j == i && c == ContainerChain(i, SelectorOf(i))
  {
    InputMapOfUnique(spec.inputs);
    hide InputMap, InputChains, NoPipelinesClash, NoOutputsClash, InputsClash;
    var d := ContainerChain(i, SelectorOf(i));
    ContainerChainIn(i);
    assert i.name in InputMap(spec.inputs) && j.name in InputMap(spec.inputs);
    if j != i {
      InputIdsCollideIff(i, j);
      HeadOfChain(i, d);
      HeadOfChain(j, c);
    } else {
      OneContainerChain(i, c);
    }
  }

  lemma ContainerChainIn(i: InputSpec)
    requires AsksContainers(i)
    ensures ContainerChain(i, SelectorOf(i)) in InputChains(i)
    ensures ContainerChain(i, SelectorOf(i)).ids[0] == MakeInputId([i.name, "container"])
  {
    hide MakeInputId, MakeId, SelectorOf;
    assert ContainerChain(i, SelectorOf(i)) in [ContainerChain(i, SelectorOf(i))];
  }

  lemma HeadOfChain(i: InputSpec, c: Chain)
    requires c in InputChains(i) && c.Valid()
    ensures ChainComponents(c)[0] in ChainsComponents(InputChains(i)) && ChainComponents(c)[0].id == c.ids[0]
  {
    ChainsMember(InputChains(i), ChainComponents(c)[0]);
  }

  lemma OneContainerChain(i: InputSpec, c: Chain)
    requires AsksContainers(i) && c in InputChains(i) && c.Valid() && c.ids[0] == MakeInputId([i.name, "container"])
    ensures c == ContainerChain(i, SelectorOf(i))
  {
    PurposeId(i.name, Container);
    PurposeId(i.name, Journal);
    UnderStep(MakeInputId([i.name]), [Container], MakeInputId([i.name]), [Journal]);
    assert Token(Journal) == "journal" && Token(Container) == "container";
    hide MakeInputId, MakeId, SelectorOf, Under, Token;
    assert c == ContainerChain(i, SelectorOf(i)) || c == JournalChain(i);
  }

  /**
   Right behind the normalization of a container source stands the throttle of its input, if the input has a limit for
   containers, and no input throttle otherwise.
   */
  lemma LimitedInputThrottled(spec: ForwarderSpec, config: Config, ids: seq<string>, trace: seq<Label>, i: InputSpec, n: int)
    requires Compile(spec) == Ok(config) && UniqueNames(spec.inputs) && UniquePipelines(spec) && NoClash(spec)
    requires IsRoute(config, ids) && DoesWork(config, ids, trace)
    requires i in spec.inputs && AsksContainers(i) && ids[0] == MakeInputId([i.name, "container"])
    ensures |trace| > 2 && trace[0].Source? && trace[0].source.KubernetesLogs? && trace[1] == Normalize("container")
    ensures ApplicationLimit(i, n) ==> trace[2] == InputThrottle(n)
    ensures InfrastructureLimit(i, n) && !(exists m :: ApplicationLimit(i, m)) ==> trace[2] == InputThrottle(n)
    ensures Unlimited(i) ==> forall l :: l in trace ==> !l.InputThrottle?
  {
    NotMetrics(i.name);
    var j, c, k, o := RouteStart(spec, config, ids, trace);
    hide IsRoute, DoesWork;
    ContainerIdOwner(spec, i, j, c);
    hide *;
    ContainerTrace(spec, trace, i, c, k, o, n);
  }

  lemma ContainerTrace(spec: ForwarderSpec, trace: seq<Label>, i: InputSpec, c: Chain, k: nat, o: string, n: int)
    requires AllResolve(spec) && Denotes(spec, i.name, c, k, o) && trace == SpecTrace(spec, i.name, c, k, o)
    requires AsksContainers(i) && c == ContainerChain(i, SelectorOf(i))
    ensures |trace| > 2 && trace[0].Source? && trace[0].source.KubernetesLogs? && trace[1] == Normalize("container")
    ensures ApplicationLimit(i, n) ==> trace[2] == InputThrottle(n)
    ensures InfrastructureLimit(i, n) && !(exists m :: ApplicationLimit(i, m)) ==> trace[2] == InputThrottle(n)
    ensures Unlimited(i) ==> forall l :: l in trace ==> !l.InputThrottle?
  {
    ContainerFollowed(i);
    ContainerSourced(i);
    var p := spec.pipelines[k];
    assert p in spec.pipelines;
    WorksAre(spec, p);
    hide ContainerChain, FilterWorks, ApplicationLimit, InfrastructureLimit, Unlimited, OutputMap, InputMap, InputChains, FollowedBy, SelectorOf, FactsOf;
    ThirdOnTrace(c.labels, FilterWorks(spec, p), DeliveryWorks(OutputMap(spec.outputs)[o]), i, n);
  }

  lemma NotMetrics(name: string)
    ensures MakeInputId([name, "container"]) != INTERNAL_METRICS
  {
    PurposeId(name, Container);
    IdHeaded("input", name, [Container]);
    hide MakeId, Under;
    assert ("input" + "_")[2] == 'p' && INTERNAL_METRICS[2] == 't';
  }

  lemma ContainerSourced(i: InputSpec)
    ensures ContainerChain(i, SelectorOf(i)).labels[0] == Source(KubernetesLogs(SelectorOf(i)))
  {
    hide MakeInputId, MakeId, SelectorOf;
  }

  lemma ThirdOnTrace(labels: seq<Label>, works: seq<Label>, delivery: seq<Label>, i: InputSpec, n: int)
    requires FollowedBy(labels, i) && labels[0].source.KubernetesLogs? && works != []
    requires (forall l :: l in works ==> l.User? || l.System?) && forall l :: l in delivery ==> !l.InputThrottle?
    ensures var trace := labels + works + delivery;
            && |trace| > 2 && trace[0] == labels[0] && trace[1] == Normalize("container")
            && (ApplicationLimit(i, n) ==> trace[2] == InputThrottle(n))
            && (InfrastructureLimit(i, n) && !(exists m :: ApplicationLimit(i, m)) ==> trace[2] == InputThrottle(n))
            && (Unlimited(i) ==> forall l :: l in trace ==> !l.InputThrottle?)
  {
    var trace := labels + works + delivery;
    hide ApplicationLimit, InfrastructureLimit, Unlimited;
    if ApplicationLimit(i, n) || (InfrastructureLimit(i, n) && !exists m :: ApplicationLimit(i, m)) {
      assert labels[2] == labels[2..][0] == InputThrottle(n);
    }
    if Unlimited(i) {
      assert labels == [labels[0], labels[1]];
      forall l | l in trace ensures !l.InputThrottle? {
        assert l in labels || l in works || l in delivery;
      }
    }
  }

  // -------- any source

  /** What belongs to the part of a trace in front of the pipelines. */
  predicate InFront(l: Label) {
    l.Source? || l.Normalize? || l.Items? || l.InputThrottle?
  }

  /** Every trace starts with one source of some input, followed by what belongs to it and by nothing of another one. */
  lemma SourceFollowed(spec: ForwarderSpec, config: Config, trace: seq<Label>) returns (i: InputSpec, p: PipelineSpec, m: nat)
    requires Compile(spec) == Ok(config) && UniquePipelines(spec) && NoClash(spec) && IsTrace(config, trace) && trace != METRICS_TRACE
    ensures i in spec.inputs && p in spec.pipelines && i.name in p.inputRefs
    ensures 0 < m < |trace| && FollowedBy(trace[..m], i) && forall k :: m <= k < |trace| ==> !InFront(trace[k])
  {
    RoutingOfNames(spec, config, trace);
    hide NoClash, IsTrace, UniquePipelines, Asks, AllComponents, Assemble, InputsPanic, Splits, Denotes, SpecTrace;
    var c, k, o;
    i, c, k, o := TraceSplits(spec, trace);
    p := spec.pipelines[k];
    m := FrontOf(spec, trace, i, c, p, OutputMap(spec.outputs)[o]);
  }

  lemma FrontOf(spec: ForwarderSpec, trace: seq<Label>, i: InputSpec, c: Chain, p: PipelineSpec, o: OutputSpec) returns (m: nat)
    requires AllResolve(spec) && Splits(spec, trace, i, c, p, o)
    ensures i in spec.inputs && p in spec.pipelines && i.name in p.inputRefs
    ensures 0 < m < |trace| && FollowedBy(trace[..m], i) && forall k :: m <= k < |trace| ==> !InFront(trace[k])
  {
    ChainFollowed(i, c);
    WorksAre(spec, p);
    m := |c.labels|;
    var works, delivery := FilterWorks(spec, p), DeliveryWorks(o);
    hide FilterWorks, InputChains, FollowedBy, FactsOf;
    assert trace[..m] == c.labels;
    forall k | m <= k < |trace| ensures !InFront(trace[k]) {
      assert if k < m + |works| then trace[k] in works else trace[k] in delivery;
    }
  }

  // -------- outputs

  /** A trace passes a throttle of its output exactly when the output is limited, and then right before the sink, at that limit. */
  lemma OutputThrottleExact(spec: ForwarderSpec, config: Config, trace: seq<Label>, o: OutputSpec)
    requires Compile(spec) == Ok(config) && UniquePipelines(spec) && NoClash(spec)
    requires IsTrace(config, trace) && trace != [] && trace[|trace| - 1] == Sink(o)
    ensures forall k :: 0 <= k < |trace| && trace[k].OutputThrottle? ==>
              k == |trace| - 2 && o.limit == Some(trace[k].outputLimit) && trace[k].outputLimit > 0
    ensures o.limit.Some? && o.limit.value > 0 ==> |trace| > 1 && trace[|trace| - 2] == OutputThrottle(o.limit.value)
  {
    RoutingOfNames(spec, config, trace);
    hide NoClash, IsTrace, UniquePipelines, Asks, AllComponents, Assemble, InputsPanic, Splits, Denotes, SpecTrace;
    assert trace != METRICS_TRACE;
    var i, c, k, name := TraceSplits(spec, trace);
    DeliveryOn(spec, trace, i, c, spec.pipelines[k], OutputMap(spec.outputs)[name]);
  }

  lemma DeliveryOn(spec: ForwarderSpec, trace: seq<Label>, i: InputSpec, c: Chain, p: PipelineSpec, o: OutputSpec)
    requires AllResolve(spec) && Splits(spec, trace, i, c, p, o)
    ensures trace != [] && trace[|trace| - 1] == Sink(o)
    ensures forall k :: 0 <= k < |trace| && trace[k].OutputThrottle? ==>
              k == |trace| - 2 && o.limit == Some(trace[k].outputLimit) && trace[k].outputLimit > 0
    ensures o.limit.Some? && o.limit.value > 0 ==> |trace| > 1 && trace[|trace| - 2] == OutputThrottle(o.limit.value)
  {
    ChainFollowed(i, c);
    NoSystem(c.labels, i);
    WorksAre(spec, p);
    var works, delivery := FilterWorks(spec, p), DeliveryWorks(o);
    hide FilterWorks, InputChains, FactsOf;
    assert forall l :: l in c.labels ==> InFront(l) by { AllInFront(c.labels, i); }
    hide FollowedBy;
    forall k | 0 <= k < |c.labels| + |works| ensures !trace[k].OutputThrottle? {
      assert trace[k] in c.labels || trace[k] in works;
    }
    assert forall k :: 0 <= k < |delivery| ==> trace[|c.labels| + |works| + k] == delivery[k];
  }

  lemma AllInFront(labels: seq<Label>, i: InputSpec)
    requires FollowedBy(labels, i)
    ensures forall l :: l in labels ==> InFront(l)
  {
    if labels[0].source.KubernetesLogs? {
      ThirdLabel(labels, i);
      assert labels == [labels[0], labels[1]] + labels[2..];
    } else {
      assert labels == [labels[0]] + labels[1..];
    }
  }

  // -------- sources and reviews

  /** An application input that names an infrastructure namespace. */
  predicate NamesInfra(i: InputSpec) {
    && i.kind == Application && i.application.Some?
    && exists n :: n in i.application.value.includes && '\n' !in n.namespace
                   && (n.namespace == "default" || "openshift" <= n.namespace || "kube" <= n.namespace)
  }

  /**
   Behind the gate, whatever a source reads that records reach the pipelines from is of a log type that the account was
   reviewed for and may collect. Only logs received over HTTP need no review.
   */
  lemma SourcesReviewed(spec: ForwarderSpec, world: World, config: Config, trace: seq<Label>) returns (i: InputSpec)
    requires SpecPasses(spec, world) && UniquePipelines(spec) && NoClash(spec) && Compile(spec) == Ok(config)
    requires IsTrace(config, trace) && trace != METRICS_TRACE
    ensures i in spec.inputs && trace != [] && trace[0].Source?
    ensures trace[0].source.KubernetesLogs? ==> AsksContainers(i) && world.review(if i.kind == Application then "application" else "infrastructure") == Allowed
    ensures trace[0].source.KubernetesLogs? && NamesInfra(i) ==> world.review("infrastructure") == Allowed
    ensures trace[0].source.Journald? || trace[0].source.SyslogServer? ==> world.review("infrastructure") == Allowed
    ensures trace[0].source.FileSource? ==> world.review("audit") == Allowed
  {
    var p, m;
    i, p, m := SourceFollowed(spec, config, trace);
    hide UniquePipelines, NoClash, Compile, IsTrace;
    assert trace[..m][0] == trace[0];
    PassingPermitted(spec, world);
    hide SpecPasses;
    ReviewedOf(spec, world, i, p, trace[..m]);
  }

  lemma PassingPermitted(spec: ForwarderSpec, world: World)
    requires SpecPasses(spec, world)
    ensures Permitted(spec, world)
  {
    hide Permitted;
  }

  lemma ReviewedOf(spec: ForwarderSpec, world: World, i: InputSpec, p: PipelineSpec, labels: seq<Label>)
    requires Permitted(spec, world) && i in spec.inputs && p in spec.pipelines && i.name in p.inputRefs && FollowedBy(labels, i)
    ensures labels[0].source.KubernetesLogs? ==> AsksContainers(i) && world.review(if i.kind == Application then "application" else "infrastructure") == Allowed
    ensures labels[0].source.KubernetesLogs? && NamesInfra(i) ==> world.review("infrastructure") == Allowed
    ensures labels[0].source.Journald? || labels[0].source.SyslogServer? ==> world.review("infrastructure") == Allowed
    ensures labels[0].source.FileSource? ==> world.review("audit") == Allowed
  {
    assert RefersTo(spec, i.name);
    assert APPLICATION in RESERVED && INFRASTRUCTURE in RESERVED && AUDIT in RESERVED;
    forall t | t in RESERVED && CollectedBy(i, t) ensures world.review(t) == Allowed {
      assert Collects(spec, t);
    }
    hide Permitted, RefersTo;
    if NamesInfra(i) {
      var n :| n in i.application.value.includes && '\n' !in n.namespace
               && (n.namespace == "default" || "openshift" <= n.namespace || "kube" <= n.namespace);
      InfraNamed(n.namespace);
      assert ReadsInfraNamespace(i);
    }
  }

  lemma InfraNamed(ns: string)
    requires '\n' !in ns && (ns == "default" || "openshift" <= ns || "kube" <= ns)
    ensures InfraNamespace(ns)
  {
    assert Selection.InGroup(ns, Selection.DefaultGroup) || Selection.InGroup(ns, Selection.OpenshiftGroup) || Selection.InGroup(ns, Selection.KubeGroup);
  }
}
