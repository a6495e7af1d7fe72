/**
 What a record goes through: the traces of the generated configuration are the traces the spec asks for.
 */
module Traces {
  import opened Wrappers
  import opened Api
  import opened Components
  import opened Graph
  import opened Routes
  import opened Clashes
  import opened Distinctness

  // -------- the order of filters

  ghost predicate Increasing(positions: seq<nat>) {
    forall i, j :: 0 <= i < j < |positions| ==> positions[i] < positions[j]
  }

  /** `picked` is the subsequence of `refs` at `positions`, and these are all the positions of its class. */
  ghost predicate PickedAt(refs: seq<string>, filters: map<string, FilterSpec>, early: bool, picked: seq<string>, positions: seq<nat>) {
    && Increasing(positions) && |positions| == |picked|
    && (forall i :: 0 <= i < |positions| ==> positions[i] < |refs| && picked[i] == refs[positions[i]])
    && (forall p :: 0 <= p < |refs| ==> (p in positions <==> IsEarly(refs[p], filters) == early))
  }

  lemma {:induction false} SelectPicks(refs: seq<string>, filters: map<string, FilterSpec>, early: bool) returns (positions: seq<nat>)
    ensures PickedAt(refs, filters, early, Select(refs, filters, early), positions)
  {
    if refs == [] {
      positions := [];
    } else {
      var last := |refs| - 1;
      positions := SelectPicks(refs[..last], filters, early);
      if IsEarly(refs[last], filters) == early {
        positions := positions + [last];
      }
    }
  }

  /**
   The system filter splits the filters of a pipeline into two runs: ahead of it the parse and multiline filters,
   after it all others, each run in the order of the spec and neither missing a filter.
   */
  lemma SystemOrderStable(refs: seq<string>, filters: map<string, FilterSpec>)
    returns (system: nat, before: seq<nat>, after: seq<nat>)
    ensures system < |SystemOrder(refs, filters)| && SystemOrder(refs, filters)[system] == VIAQ
    ensures PickedAt(refs, filters, true, SystemOrder(refs, filters)[..system], before)
    ensures PickedAt(refs, filters, false, SystemOrder(refs, filters)[system + 1..], after)
    ensures |before| + |after| + 1 == |SystemOrder(refs, filters)|
  {
    before := SelectPicks(refs, filters, true);
    after := SelectPicks(refs, filters, false);
    system := |Select(refs, filters, true)|;
    var order := SystemOrder(refs, filters);
    assert order[..system] == Select(refs, filters, true);
    assert order[system + 1..] == Select(refs, filters, false);
  }

  lemma {:induction false} SelectMultiset(refs: seq<string>, filters: map<string, FilterSpec>)
    ensures multiset(Select(refs, filters, true)) + multiset(Select(refs, filters, false)) == multiset(refs)
  {
    if refs != [] {
      SelectMultiset(refs[..|refs| - 1], filters);
      assert refs == refs[..|refs| - 1] + [refs[|refs| - 1]];
    }
  }

  /** Reordering loses and repeats nothing; the system filter runs once exactly when no user filter has its name. */
  lemma SystemOrderMultiset(refs: seq<string>, filters: map<string, FilterSpec>)
    ensures multiset(SystemOrder(refs, filters)) == multiset(refs) + multiset{VIAQ}
    ensures multiset(SystemOrder(refs, filters))[VIAQ] == 1 <==> VIAQ !in refs
  {
    SelectMultiset(refs, filters);
    assert multiset(SystemOrder(refs, filters)) == multiset(Select(refs, filters, true)) + multiset{VIAQ} + multiset(Select(refs, filters, false));
    assert VIAQ in refs <==> VIAQ in multiset(refs);
  }

  // -------- traces

  ghost predicate HasWork(config: Config, id: string, work: Label) {
    || (id in config.sources && config.sources[id].work == work)
    || (id in config.transforms && config.transforms[id].work == work)
    || (id in config.sinks && config.sinks[id].work == work)
  }

  /** Some route of the configuration does this work, in this order. */
  ghost predicate IsTrace(config: Config, trace: seq<Label>) {
    exists ids :: IsRoute(config, ids) && DoesWork(config, ids, trace)
  }

  ghost predicate DoesWork(config: Config, ids: seq<string>, trace: seq<Label>) {
    |trace| == |ids| && forall k :: 0 <= k < |ids| ==> HasWork(config, ids[k], trace[k])
  }

  /** The work of a pipeline's filters, the system filter knowing the sources of all the pipeline's inputs. */
  ghost function FilterWorks(spec: ForwarderSpec, p: PipelineSpec): (works: seq<Label>)
    requires PipelineResolves(spec, p)
    ensures |works| == |SystemOrder(p.filterRefs, FilterMap(spec.filters))|
  {
    SystemOrderMembers(p.filterRefs, FilterMap(spec.filters));
    var order := SystemOrder(p.filterRefs, FilterMap(spec.filters));
    assert forall k :: 0 <= k < |order| ==> order[k] in order;
    seq(|order|, k requires 0 <= k < |order| && order[k] in order => StageLabel(spec, p, order[k]))
  }

  function DeliveryWorks(o: OutputSpec): seq<Label> {
    (if o.limit.Some? && o.limit.value > 0 then [OutputThrottle(o.limit.value)] else []) + [Sink(o)]
  }

  const METRICS_TRACE := [Source(InternalMetrics), NodenameToMetric, PrometheusSink]

  /** What the spec asks for: an input's chain, the filters of a pipeline reading it, an output of that pipeline. */
  ghost predicate Asks(spec: ForwarderSpec, trace: seq<Label>)
    requires AllResolve(spec)
  {
    || trace == METRICS_TRACE
    || exists n, c, k, o :: Denotes(spec, n, c, k, o) && trace == SpecTrace(spec, n, c, k, o)
  }

  ghost function SpecTrace(spec: ForwarderSpec, n: string, c: Chain, k: nat, o: string): seq<Label>
    requires AllResolve(spec) && Denotes(spec, n, c, k, o)
  {
    assert spec.pipelines[k] in spec.pipelines;
    c.labels + FilterWorks(spec, spec.pipelines[k]) + DeliveryWorks(OutputMap(spec.outputs)[o])
  }

  function Works(path: seq<Component>): (works: seq<Label>)
    ensures |works| == |path| && forall k :: 0 <= k < |works| ==> works[k] == path[k].node.work
  {
    seq(|path|, k requires 0 <= k < |path| => path[k].node.work)
  }

  lemma ChainWorks(c: Chain)
    requires c.Valid()
    ensures Works(ChainComponents(c)) == c.labels
  {
  }

  lemma StageWorks(spec: ForwarderSpec, k: nat)
    requires AllResolve(spec) && k < |spec.pipelines| && spec.pipelines[k] in spec.pipelines
    ensures Works(StageComponents(spec, k)) == FilterWorks(spec, spec.pipelines[k])
  {
    hide SystemOrder, StageLabel, HeadInputs;
    var cs := StageComponents(spec, k);
    forall j | 0 <= j < |cs| ensures cs[j].node.work == FilterWorks(spec, spec.pipelines[k])[j] {
      assert cs[j] == StageComponent(spec, k, j);
    }
  }

  lemma OutputWorks(spec: ForwarderSpec, o: string)
    requires AllResolve(spec) && o in OutputMap(spec.outputs)
    ensures Works(OutputParts(spec, o)) == DeliveryWorks(OutputMap(spec.outputs)[o])
  {
    hide OutputInputs;
  }

  lemma SpecPathWorks(spec: ForwarderSpec, n: string, c: Chain, k: nat, o: string)
    requires AllResolve(spec) && Denotes(spec, n, c, k, o)
    ensures Works(SpecPath(spec, n, c, k, o)) == SpecTrace(spec, n, c, k, o)
  {
    hide StageComponents, OutputParts, FilterWorks, DeliveryWorks, InputChains, ChainComponents;
    var p := spec.pipelines[k];
    assert p in spec.pipelines;
    ChainWorks(c);
    StageWorks(spec, k);
    OutputWorks(spec, o);
    WorksConcat(ChainComponents(c), StageComponents(spec, k));
    WorksConcat(ChainComponents(c) + StageComponents(spec, k), OutputParts(spec, o));
  }

  lemma WorksConcat(a: seq<Component>, b: seq<Component>)
    ensures Works(a + b) == Works(a) + Works(b)
  {
  }

  /** What a component's id names is that component's work and no other. */
  lemma WorkOfComponent(cs: seq<Component>, x: Component, work: Label)
    requires DistinctIds(cs) && x in cs
    ensures HasWork(Assemble(cs), x.id, work) <==> work == x.node.work
  {
    var config := Assemble(cs);
    AssembleExact(cs, x);
    hide Assemble;
    forall kind, node | InConfig(config, Component(kind, x.id, node)) ensures node == x.node {
      AssembleExact(cs, Component(kind, x.id, node));
      SameIdSameComponent(cs, x, Component(kind, x.id, node));
    }
    if x.id in config.sources { assert InConfig(config, Component(SourceNode, x.id, config.sources[x.id])); }
    if x.id in config.transforms { assert InConfig(config, Component(TransformNode, x.id, config.transforms[x.id])); }
    if x.id in config.sinks { assert InConfig(config, Component(SinkNode, x.id, config.sinks[x.id])); }
  }

  lemma WorkAlong(cs: seq<Component>, path: seq<Component>, trace: seq<Label>)
    requires DistinctIds(cs) && forall x :: x in path ==> x in cs
    ensures DoesWork(Assemble(cs), IdsOf(path), trace) <==> trace == Works(path)
  {
    hide Assemble, HasWork;
    forall k, work | 0 <= k < |path| ensures HasWork(Assemble(cs), path[k].id, work) <==> work == path[k].node.work {
      WorkOfComponent(cs, path[k], work);
    }
  }

  lemma MeaningOfPath(spec: ForwarderSpec, path: seq<Component>)
    requires AllResolve(spec) && IsSpecPath(spec, path)
    ensures Asks(spec, Works(path))
  {
    hide SpecPath, Denotes, SpecTrace;
    if path == MetricsPath() {
      assert Works(path) == METRICS_TRACE;
    } else {
      var n, c, k: nat, o :| Denotes(spec, n, c, k, o) && path == SpecPath(spec, n, c, k, o);
      SpecPathWorks(spec, n, c, k, o);
    }
  }

  lemma PathOfMeaning(spec: ForwarderSpec, trace: seq<Label>) returns (path: seq<Component>)
    requires AllResolve(spec) && Asks(spec, trace)
    ensures IsSpecPath(spec, path) && Works(path) == trace
  {
    hide SpecPath, Denotes, SpecTrace;
    if trace == METRICS_TRACE {
      path := MetricsPath();
    } else {
      var n, c, k: nat, o :| Denotes(spec, n, c, k, o) && trace == SpecTrace(spec, n, c, k, o);
      path := SpecPath(spec, n, c, k, o);
      SpecPathWorks(spec, n, c, k, o);
    }
  }

  /** Compilation preserves routing: records are treated in exactly the ways the spec asks for. */
  lemma RoutingPreserved(spec: ForwarderSpec, config: Config, trace: seq<Label>)
    requires Compile(spec) == Ok(config) && UniquePipelines(spec) && DistinctIds(AllComponents(spec))
    ensures IsTrace(config, trace) <==> Asks(spec, trace)
  {
    hide AllComponents, DistinctIds, Walk, SpecPath, Denotes, IsRoute, DoesWork, Asks, IsSpecPath, Assemble;
    var cs := AllComponents(spec);
    if IsTrace(config, trace) {
      var ids :| IsRoute(config, ids) && DoesWork(config, ids, trace);
      RoutesExact(spec, config, ids);
      var path :| IsSpecPath(spec, path) && ids == IdsOf(path);
      PathInGraph(spec, path);
      WorkAlong(cs, path, trace);
      MeaningOfPath(spec, path);
    }
    if Asks(spec, trace) {
      var path := PathOfMeaning(spec, trace);
      RoutesExact(spec, config, IdsOf(path));
      PathInGraph(spec, path);
      WorkAlong(cs, path, trace);
    }
  }

  lemma PathInGraph(spec: ForwarderSpec, path: seq<Component>)
    requires AllResolve(spec) && UniquePipelines(spec) && IsSpecPath(spec, path)
    ensures forall x :: x in path ==> x in AllComponents(spec)
  {
    SpecPathsAreWalks(spec, path);
  }

  lemma LimitedOutputThrottled(spec: ForwarderSpec, config: Config, trace: seq<Label>, o: OutputSpec)
    requires Compile(spec) == Ok(config) && UniquePipelines(spec) && DistinctIds(AllComponents(spec))
    requires IsTrace(config, trace) && trace[|trace| - 1] == Sink(o) && o.limit.Some? && o.limit.value > 0
    ensures |trace| > 1 && trace[|trace| - 2] == OutputThrottle(o.limit.value)
  {
    hide AllComponents, DistinctIds, IsTrace;
    RoutingPreserved(spec, config, trace);
  }

  /** The same for every spec whose names do not clash, without a word about ids. */
  lemma RoutingOfNames(spec: ForwarderSpec, config: Config, trace: seq<Label>)
    requires Compile(spec) == Ok(config) && UniquePipelines(spec) && NoClash(spec)
    ensures IsTrace(config, trace) <==> Asks(spec, trace)
  {
    hide AllComponents, DistinctIds, IsTrace, Asks, Assemble, InputsPanic, NoClash;
    IdsDistinctIff(spec);
    RoutingPreserved(spec, config, trace);
  }

  /** In particular for plain, distinct names. */
  lemma RoutingOfCleanNames(spec: ForwarderSpec, config: Config, trace: seq<Label>)
    requires Compile(spec) == Ok(config) && CleanNames(spec)
    ensures IsTrace(config, trace) <==> Asks(spec, trace)
  {
    hide AllComponents, DistinctIds, IsTrace, Asks, Assemble, InputsPanic;
    CleanNamesDistinctIds(spec);
    RoutingPreserved(spec, config, trace);
  }
}
