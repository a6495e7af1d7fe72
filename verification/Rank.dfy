/** Every edge of the generated graph starts at a component written earlier, so the graph is closed and acyclic. */
module Rank {
  import opened Wrappers
  import opened Ordering
  import opened Ids
  import opened Api
  import opened Components
  import opened Graph
  import opened Routes

  /** `id` names a component others may read: a source or a transform. */
  ghost predicate Provides(cs: seq<Component>, id: string) {
    exists x :: x in cs && x.id == id && x.kind != SinkNode
  }

  /** What component `p` of `b` reads is provided by `a` or by what stands before it in `b`. */
  ghost predicate OrderedAfter(a: seq<Component>, b: seq<Component>) {
    forall p, id :: 0 <= p < |b| && id in b[p].node.inputs ==> Provides(a, id) || Provides(b[..p], id)
  }

  lemma ProvidesMore(a: seq<Component>, b: seq<Component>, id: string)
    requires forall x :: x in a ==> x in b
    ensures Provides(a, id) ==> Provides(b, id)
  {
  }

  lemma OrderedConcat(a: seq<Component>, b: seq<Component>, c: seq<Component>)
    requires OrderedAfter(a, b) && OrderedAfter(a + b, c)
    ensures OrderedAfter(a, b + c)
  {
    forall p, id | 0 <= p < |b + c| && id in (b + c)[p].node.inputs ensures Provides(a, id) || Provides((b + c)[..p], id) {
      if p < |b| {
        assert (b + c)[..p] == b[..p];
      } else {
        var q := p - |b|;
        assert (b + c)[..p] == b + c[..q];
        assert c[q] == (b + c)[p];
        if Provides(a + b, id) {
          ProvidesMore(b, b + c[..q], id);
        } else {
          ProvidesMore(c[..q], b + c[..q], id);
        }
      }
    }
  }

  lemma OrderedWeaken(a: seq<Component>, more: seq<Component>, b: seq<Component>)
    requires OrderedAfter(a, b) && forall x :: x in a ==> x in more
    ensures OrderedAfter(more, b)
  {
    forall p, id | 0 <= p < |b| && id in b[p].node.inputs ensures Provides(more, id) || Provides(b[..p], id) {
      ProvidesMore(a, more, id);
    }
  }

  lemma {:induction false} OrderedFlatten(a: seq<Component>, names: seq<string>, table: Table)
    requires forall n :: n in names ==> n in table && OrderedAfter(a, table[n])
    ensures OrderedAfter(a, FlattenNames(names, table))
  {
    hide OrderedAfter;
    if names == [] {
      assert OrderedAfter(a, []) by { OrderedNothing(a); }
    } else {
      var init, last := names[..|names| - 1], names[|names| - 1];
      OrderedFlatten(a, init, table);
      assert last in names;
      OrderedWeaken(a, a + FlattenNames(init, table), table[last]);
      OrderedConcat(a, FlattenNames(init, table), table[last]);
    }
  }

  lemma OrderedNothing(a: seq<Component>)
    ensures OrderedAfter(a, [])
  {
  }

  lemma ChainOrdered(c: Chain)
    requires c.Valid()
    ensures OrderedAfter([], ChainComponents(c))
  {
    var b := ChainComponents(c);
    forall p, id | 0 <= p < |b| && id in b[p].node.inputs ensures Provides(b[..p], id) {
      assert b[p] == ChainComponent(c, p);
      assert b[p - 1] in b[..p] && b[p - 1] == ChainComponent(c, p - 1);
    }
  }

  lemma {:induction false} ChainsOrdered(chains: seq<Chain>)
    requires forall c :: c in chains ==> c.Valid()
    ensures OrderedAfter([], ChainsComponents(chains))
  {
    if chains != [] {
      var init, last := chains[..|chains| - 1], chains[|chains| - 1];
      ChainsOrdered(init);
      ChainOrdered(last);
      OrderedWeaken([], [] + ChainsComponents(init), ChainComponents(last));
      OrderedConcat([], ChainsComponents(init), ChainComponents(last));
    }
  }

  lemma InputsOrdered(inputs: map<string, InputSpec>)
    ensures OrderedAfter([], Flatten(InputTable(inputs)))
  {
    hide OrderedAfter, InputChains, ChainsComponents;
    forall n | n in inputs ensures OrderedAfter([], InputTable(inputs)[n]) {
      ChainsOrdered(InputChains(inputs[n]));
    }
    OrderedFlatten([], Listing(InputTable(inputs).Keys), InputTable(inputs));
  }

  lemma ChainEndProvided(inputs: map<string, InputSpec>, n: string, c: Chain)
    requires n in inputs && c in InputChains(inputs[n])
    ensures Provides(Flatten(InputTable(inputs)), c.Last())
  {
    hide InputChains;
    var x := ChainComponents(c)[|c.ids| - 1];
    assert x in ChainComponents(c);
    InputTableMember(inputs, x);
  }

  lemma StagesOrdered(spec: ForwarderSpec, k: nat)
    requires AllResolve(spec) && k < |spec.pipelines| && spec.pipelines[k] in spec.pipelines
    ensures OrderedAfter(Flatten(InputTable(InputMap(spec.inputs))), StageComponents(spec, k))
  {
    hide InputChains, SystemOrder, HeadInputs, Flatten;
    var b := StageComponents(spec, k);
    forall p, id | 0 <= p < |b| && id in b[p].node.inputs
      ensures Provides(Flatten(InputTable(InputMap(spec.inputs))), id) || Provides(b[..p], id)
    {
      assert b[p] == StageComponent(spec, k, p);
      if p == 0 {
        StageHeadReads(spec, k, id);
        var n, c :| n in InputMap(spec.inputs) && c in InputChains(InputMap(spec.inputs)[n]) && c.Last() == id;
        ChainEndProvided(InputMap(spec.inputs), n, c);
      } else {
        assert b[p - 1] in b[..p] && b[p - 1] == StageComponent(spec, k, p - 1);
      }
    }
  }

  lemma PipelinesOrdered(spec: ForwarderSpec, indexes: map<string, nat>)
    requires AllResolve(spec) && forall n :: n in indexes ==> indexes[n] < |spec.pipelines|
    ensures OrderedAfter(Flatten(InputTable(InputMap(spec.inputs))), Flatten(PipelineTable(spec, indexes)))
  {
    hide OrderedAfter, InputTable, StageComponents;
    var a := Flatten(InputTable(InputMap(spec.inputs)));
    var table := PipelineTable(spec, indexes);
    forall n | n in indexes ensures OrderedAfter(a, table[n]) {
      StagesOrdered(spec, indexes[n]);
    }
    OrderedFlatten(a, Listing(table.Keys), table);
  }

  lemma StageEndProvided(spec: ForwarderSpec, indexes: map<string, nat>, k: nat)
    requires AllResolve(spec) && UniquePipelines(spec) && indexes == PipelineIndexes(spec.pipelines)
    requires forall n :: n in indexes ==> indexes[n] < |spec.pipelines|
    requires k < |spec.pipelines| && spec.pipelines[k] in spec.pipelines
    ensures Provides(Flatten(PipelineTable(spec, indexes)), LastStage(spec, k))
  {
    hide StageComponents, LastStage, Flatten;
    StageKinds(spec, k);
    var x := StageComponents(spec, k)[|StageComponents(spec, k)| - 1];
    assert x in StageComponents(spec, k);
    PipelineTableMember(spec, indexes, x);
  }

  lemma OutputOrdered(spec: ForwarderSpec, indexes: map<string, nat>, o: string)
    requires AllResolve(spec) && UniquePipelines(spec) && indexes == PipelineIndexes(spec.pipelines)
    requires forall n :: n in indexes ==> indexes[n] < |spec.pipelines|
    requires o in OutputMap(spec.outputs)
    ensures OrderedAfter(Flatten(PipelineTable(spec, indexes)), OutputParts(spec, o))
  {
    var b := OutputParts(spec, o);
    forall id | id in b[0].node.inputs ensures Provides(Flatten(PipelineTable(spec, indexes)), id) {
      OutputHeadReads(spec, o, id);
      hide OutputParts, LastStage, Flatten;
      var k: nat :| k < |spec.pipelines| && o in spec.pipelines[k].outputRefs && id == LastStage(spec, k);
      StageEndProvided(spec, indexes, k);
    }
    hide OutputInputs, Flatten, MakeId, MakeOutputId, PipelineTable;
    if |b| == 2 {
      assert b[..1][0] == b[0];
      assert b[0] in b[..1];
      assert b[1].node.inputs == [b[0].id];
    }
  }

  lemma OutputsOrdered(spec: ForwarderSpec, indexes: map<string, nat>)
    requires AllResolve(spec) && UniquePipelines(spec) && indexes == PipelineIndexes(spec.pipelines)
    requires forall n :: n in indexes ==> indexes[n] < |spec.pipelines|
    ensures OrderedAfter(Flatten(PipelineTable(spec, indexes)), Flatten(OutputTable(spec, OutputMap(spec.outputs))))
  {
    hide OrderedAfter, PipelineTable, OutputComponents, OutputInputs;
    var a := Flatten(PipelineTable(spec, indexes));
    var table := OutputTable(spec, OutputMap(spec.outputs));
    forall n | n in table ensures OrderedAfter(a, table[n]) {
      OutputOrdered(spec, indexes, n);
    }
    OrderedFlatten(a, Listing(table.Keys), table);
  }

  lemma MetricsOrdered(a: seq<Component>)
    requires MetricsSource() in a
    ensures OrderedAfter(a, MetricsOutput())
  {
    var b := MetricsOutput();
    assert Provides(a, INTERNAL_METRICS);
    assert b[0] in b[..1];
    assert Provides(b[..1], ADD_NODENAME);
  }

  lemma MetricsSourceOrdered()
    ensures OrderedAfter([], [MetricsSource()])
  {
  }

  /** The order in which components are written is a rank: each reads only sources and transforms written before it. */
  lemma ReadsEarlier(spec: ForwarderSpec, p: nat, id: string)
    requires AllResolve(spec) && UniquePipelines(spec)
    requires p < |AllComponents(spec)| && id in AllComponents(spec)[p].node.inputs
    ensures exists q :: 0 <= q < p && AllComponents(spec)[q].id == id && AllComponents(spec)[q].kind != SinkNode
  {
    AllOrdered(spec);
    hide AllComponents;
    OrderedReads(AllComponents(spec), p, id);
  }

  lemma OrderedReads(cs: seq<Component>, p: nat, id: string)
    requires OrderedAfter([], cs) && p < |cs| && id in cs[p].node.inputs
    ensures exists q :: 0 <= q < p && cs[q].id == id && cs[q].kind != SinkNode
  {
    assert !Provides([], id);
    var x :| x in cs[..p] && x.id == id && x.kind != SinkNode;
    var q :| 0 <= q < p && cs[..p][q] == x;
    assert cs[q] == x;
  }

  lemma AllOrdered(spec: ForwarderSpec)
    requires AllResolve(spec) && UniquePipelines(spec)
    ensures OrderedAfter([], AllComponents(spec))
  {
    hide OrderedAfter, InputTable, PipelineTable, OutputTable, MetricsOutput, MetricsSource, Flatten;
    PipelineIndexesInRange(spec.pipelines);
    var indexes := PipelineIndexes(spec.pipelines);
    var m, i := [MetricsSource()], Flatten(InputTable(InputMap(spec.inputs)));
    var p, o := Flatten(PipelineTable(spec, indexes)), Flatten(OutputTable(spec, OutputMap(spec.outputs)));
    MetricsSourceOrdered();
    InputsOrdered(InputMap(spec.inputs));
    PipelinesOrdered(spec, indexes);
    OutputsOrdered(spec, indexes);
    MetricsOrdered(m + i + p + o);
    OrderedAppend(m, [], i);
    OrderedAppend(m + i, i, p);
    OrderedAppend(m + i + p, p, o);
    OrderedAppend(m + i + p + o, m + i + p + o, MetricsOutput());
  }

  lemma OrderedAppend(a: seq<Component>, used: seq<Component>, b: seq<Component>)
    requires OrderedAfter([], a) && OrderedAfter(used, b) && forall x :: x in used ==> x in a
    ensures OrderedAfter([], a + b)
  {
    assert [] + a == a;
    OrderedWeaken(used, [] + a, b);
    OrderedConcat([], a, b);
  }

  // -------- the generated configuration

  lemma AssembleProvides(cs: seq<Component>, x: Component)
    requires x in cs
    ensures match x.kind
            case SourceNode => x.id in Assemble(cs).sources
            case TransformNode => x.id in Assemble(cs).transforms
            case SinkNode => x.id in Assemble(cs).sinks
  {
    var init, last := cs[..|cs| - 1], cs[|cs| - 1];
    assert cs == init + [last];
    if x != last {
      AssembleProvides(init, x);
    }
  }

  lemma AssembleOnly(cs: seq<Component>, x: Component)
    requires InConfig(Assemble(cs), x)
    ensures x in cs
  {
    if cs != [] {
      var init, last := cs[..|cs| - 1], cs[|cs| - 1];
      assert cs == init + [last];
      PutExact(Assemble(init), last, x);
      if x != last {
        AssembleOnly(init, x);
      }
    }
  }

  /** Every edge of the generated graph names a generated source or transform, whatever ids coincide. */
  lemma EdgesClosed(spec: ForwarderSpec, config: Config, a: string, b: string)
    requires Compile(spec) == Ok(config) && UniquePipelines(spec)
    requires Edge(config, a, b)
    ensures a in config.sources || a in config.transforms
  {
    var cs := AllComponents(spec);
    hide AllComponents, Assemble;
    var x := if b in config.transforms && a in config.transforms[b].inputs then Component(TransformNode, b, config.transforms[b])
             else Component(SinkNode, b, config.sinks[b]);
    AssembleOnly(cs, x);
    var p :| 0 <= p < |cs| && cs[p] == x;
    ReadsEarlier(spec, p, a);
    var q :| 0 <= q < p && cs[q].id == a && cs[q].kind != SinkNode;
    AssembleProvides(cs, cs[q]);
  }

  /** Where an id was written. */
  ghost function RankOf(cs: seq<Component>, id: string): nat {
    if q: nat :| q < |cs| && cs[q].id == id then q else 0
  }

  /** With distinct ids this rank grows along every edge, so no path returns to where it has been. */
  lemma EdgesClimb(spec: ForwarderSpec, config: Config, a: string, b: string)
    requires Compile(spec) == Ok(config) && UniquePipelines(spec) && DistinctIds(AllComponents(spec))
    requires Edge(config, a, b)
    ensures RankOf(AllComponents(spec), a) < RankOf(AllComponents(spec), b)
  {
    var cs := AllComponents(spec);
    SourcesAtHeads(spec);
    hide AllComponents, Assemble, RankOf, DistinctIds, Edge;
    EdgeExact(cs, a, b);
    var x :| x in cs && x.id == b && a in x.node.inputs;
    var p: nat :| p < |cs| && cs[p] == x;
    ReadsEarlier(spec, p, a);
    var q: nat :| q < p && cs[q].id == a && cs[q].kind != SinkNode;
    RankIsPosition(cs, q);
    RankIsPosition(cs, p);
  }

  lemma RankIsPosition(cs: seq<Component>, q: nat)
    requires DistinctIds(cs) && q < |cs|
    ensures RankOf(cs, cs[q].id) == q
  {
  }

  lemma {:induction false} NoCycle(spec: ForwarderSpec, config: Config, ids: seq<string>)
    requires Compile(spec) == Ok(config) && UniquePipelines(spec) && DistinctIds(AllComponents(spec))
    requires |ids| > 1 && forall k :: 0 < k < |ids| ==> Edge(config, ids[k - 1], ids[k])
    ensures RankOf(AllComponents(spec), ids[0]) < RankOf(AllComponents(spec), ids[|ids| - 1]) && ids[0] != ids[|ids| - 1]
  {
    hide AllComponents, Edge, DistinctIds, RankOf;
    var last := |ids| - 1;
    EdgesClimb(spec, config, ids[last - 1], ids[last]);
    if last > 1 {
      NoCycle(spec, config, ids[..last]);
    }
  }
}
