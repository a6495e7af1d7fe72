/**
 The mutable adapters behind configuration generation. A pipeline's first filter keeps references to input
 adapters whose ids are filled in only later, so what it reads is settled when its transform is made.
 */
module Adapters {
  import opened Wrappers
  import opened Ordering
  import opened Ids
  import opened Api
  import opened Components

  class Input {
    const spec: InputSpec
    var ids: seq<string>

    constructor (spec: InputSpec)
      ensures this.spec == spec && ids == []
    {
      this.spec := spec;
      ids := [];
    }
  }

  /** Anything a filter or an output can read from; a name that resolves to nothing yields `NoComponent`. */
  datatype InputComponent = NoComponent | FromInput(input: Input) | FromFilter(filter: PipelineFilter)

  function InputIds(c: InputComponent): seq<string>
    reads if c.FromInput? then {c.input} else {}
  {
    match c
    case NoComponent => []
    case FromInput(input) => input.ids
    case FromFilter(filter) => [filter.id]
  }

  function AllInputIds(cs: seq<InputComponent>): seq<string>
    reads set c | c in cs && c.FromInput? :: c.input
  {
    if cs == [] then [] else AllInputIds(cs[..|cs| - 1]) + InputIds(cs[|cs| - 1])
  }

  class PipelineFilter {
    const id: string
    const work: Label
    var next: seq<InputComponent>

    constructor (pipelineName: string, filterRef: string, work: Label)
      ensures id == MakePipelineId([pipelineName, filterRef]) && this.work == work && next == []
    {
      id := MakePipelineId([pipelineName, filterRef]);
      this.work := work;
      next := [];
    }

    method AddInputFrom(n: InputComponent)
      modifies this
      ensures next == old(next) + [n]
    {
      next := next + [n];
    }

    method Transform() returns (node: Node)
      ensures node == Node(work, Sort(AllInputIds(next)))
    {
      var inputs: seq<string> := [];
      for i := 0 to |next|
        invariant inputs == AllInputIds(next[..i])
      {
        assert next[..i + 1][..i] == next[..i];
        inputs := inputs + InputIds(next[i]);
      }
      assert next[..|next|] == next;
      node := Node(work, Sort(inputs));
    }
  }

  class Output {
    const spec: OutputSpec
    var inputIds: seq<string>

    constructor (spec: OutputSpec)
      ensures this.spec == spec && inputIds == []
    {
      this.spec := spec;
      inputIds := [];
    }

    method AddInputFrom(n: PipelineFilter)
      modifies this
      ensures inputIds == old(inputIds) + [n.id]
    {
      inputIds := inputIds + [n.id];
    }
  }

  ghost predicate Injective<T>(m: map<string, T>) {
    forall a, b :: a in m && b in m && a != b ==> m[a] != m[b]
  }

  function HeadNext(inputs: map<string, Input>, refs: seq<string>): seq<InputComponent> {
    if refs == [] then []
    else HeadNext(inputs, refs[..|refs| - 1]) + [Lookup(inputs, refs[|refs| - 1])]
  }

  function Lookup(inputs: map<string, Input>, ref: string): InputComponent {
    if ref in inputs then FromInput(inputs[ref]) else NoComponent
  }

  class Pipeline {
    const spec: PipelineSpec
    const index: nat
    var filterMap: map<string, Label>
    var filterRefs: seq<string>
    var filters: seq<PipelineFilter>

    /** The filters built so far form a chain over the leading filter refs. */
    ghost predicate Chained(n: nat)
      reads this, filters
      requires n <= |filterRefs|
    {
      && |filters| == n
      && (forall k :: 0 <= k < n ==> filterRefs[k] in filterMap && filters[k].id == FilterId(PipelineName(spec, index), filterRefs[k], k))
      && (forall k :: 0 <= k < n ==> filters[k].work == filterMap[filterRefs[k]])
      && (forall k :: 0 < k < n ==> filters[k].next == [FromFilter(filters[k - 1])])
    }

    constructor (index: nat, spec: PipelineSpec, filters: map<string, FilterSpec>)
      ensures this.spec == spec && this.index == index && this.filters == [] && filterRefs == spec.filterRefs
      ensures filterMap == map n | n in filters :: User(filters[n])
    {
      this.spec := spec;
      this.index := index;
      filterMap := map n | n in filters :: User(filters[n]);
      filterRefs := spec.filterRefs;
      this.filters := [];
    }

    method AddSystemFilters(inputSpecs: set<InputSpec>, ghost specs: map<string, FilterSpec>)
      requires filterMap == map n | n in specs :: User(specs[n])
      modifies `filterMap, `filterRefs
      ensures filterMap == old(filterMap)[VIAQ := System(FactsOf(inputSpecs))]
      ensures filterRefs == SystemOrder(old(filterRefs), specs)
    {
      filterMap := filterMap[VIAQ := System(FactsOf(inputSpecs))];
      var preFilters: seq<string> := [];
      var otherFilters: seq<string> := [];
      for i := 0 to |filterRefs|
        invariant preFilters == Select(filterRefs[..i], specs, true)
        invariant otherFilters == Select(filterRefs[..i], specs, false)
      {
        var ref := filterRefs[i];
        var isEarlyStage := ref in filterMap && filterMap[ref].User?
                            && (filterMap[ref].filter.kind == Parse || filterMap[ref].filter.kind == DetectMultiline);
        assert filterRefs[..i + 1][..i] == filterRefs[..i];
        if isEarlyStage {
          preFilters := preFilters + [ref];
        } else {
          otherFilters := otherFilters + [ref];
        }
      }
      assert filterRefs[..|filterRefs|] == filterRefs;
      filterRefs := preFilters + [VIAQ] + otherFilters;
    }

    method InitFilter(i: nat)
      requires |filters| <= i < |filterRefs|
      requires |filters| == i ==> Chained(i)
      modifies `filters
      ensures |filters| <= old(|filters|) + 1
      ensures filterRefs[i] in filterMap && old(|filters|) == i ==> Chained(i + 1)
      ensures filterRefs[i] !in filterMap ==> filters == old(filters)
      ensures forall f :: f in filters && f !in old(filters) ==> fresh(f)
      ensures i == 0 && filterRefs[0] in filterMap ==> |filters| == 1 && filters[0].next == []
      ensures |old(filters)| > 0 ==> |filters| > 0 && filters[0] == old(filters)[0]
    {
      var ref := filterRefs[i];
      if ref in filterMap {
        var pf := new PipelineFilter(PipelineName(spec, index), MakeId([ref, Itoa(i)]), filterMap[ref]);
        if |filters| > 0 {
          pf.AddInputFrom(FromFilter(filters[|filters| - 1]));
        }
        filters := filters + [pf];
      }
    }
  }

  /** The pipeline's filters realize its stages, reading late from the input adapters. */
  ghost predicate Realizes(pl: Pipeline, stages: seq<Stage>, inputs: map<string, Input>)
    reads pl, pl.filters
  {
    && |pl.filters| == |stages| > 0
    && (forall k :: 0 <= k < |stages| ==> pl.filters[k].id == stages[k].id && pl.filters[k].work == stages[k].work)
    && pl.filters[0].next == HeadNext(inputs, pl.spec.inputRefs)
    && (forall k :: 0 < k < |stages| ==> pl.filters[k].next == [FromFilter(pl.filters[k - 1])])
  }

  method BuildFilters(pl: Pipeline) returns (complete: bool)
    requires pl.filters == [] && pl.filterRefs != []
    modifies pl`filters
    ensures complete <==> forall r :: r in pl.filterRefs ==> r in pl.filterMap
    ensures complete ==> pl.Chained(|pl.filterRefs|)
    ensures !complete ==> |pl.filters| < |pl.filterRefs|
    ensures fresh(set f | f in pl.filters)
    ensures complete ==> pl.filters[0].next == []
  {
    complete := true;
    for i := 0 to |pl.filterRefs|
      invariant |pl.filters| <= i
      invariant complete <==> forall r :: r in pl.filterRefs[..i] ==> r in pl.filterMap
      invariant complete ==> pl.Chained(i)
      invariant !complete ==> |pl.filters| < i
      invariant fresh(set f | f in pl.filters)
      invariant complete && i > 0 ==> pl.filters[0].next == []
    {
      assert pl.filterRefs[..i + 1] == pl.filterRefs[..i] + [pl.filterRefs[i]];
      if pl.filterRefs[i] !in pl.filterMap { complete := false; }
      ghost var before := pl.filters;
      pl.InitFilter(i);
      assert complete && i > 0 ==> pl.filters[0] == before[0];
    }
    assert pl.filterRefs[..|pl.filterRefs|] == pl.filterRefs;
  }

  method WireInputs(first: PipelineFilter, refs: seq<string>, inputs: map<string, Input>)
    requires first.next == []
    modifies first
    ensures first.next == HeadNext(inputs, refs)
  {
    for i := 0 to |refs|
      invariant first.next == HeadNext(inputs, refs[..i])
    {
      assert refs[..i + 1][..i] == refs[..i];
      first.AddInputFrom(Lookup(inputs, refs[i]));
    }
    assert refs[..|refs|] == refs;
  }

  method WireOutputs(last: PipelineFilter, refs: seq<string>, outputs: map<string, Output>)
    requires Injective(outputs)
    modifies outputs.Values
    ensures forall n :: n in outputs ==> outputs[n].inputIds == old(outputs[n].inputIds) + Repeat(last.id, Count(refs, n))
  {
    for i := 0 to |refs|
      invariant forall n :: n in outputs ==> outputs[n].inputIds == old(outputs[n].inputIds) + Repeat(last.id, Count(refs[..i], n))
    {
      assert refs[..i + 1][..i] == refs[..i];
      if refs[i] in outputs {
        assert outputs[refs[i]] in outputs.Values;
        outputs[refs[i]].AddInputFrom(last);
      }
    }
    assert refs[..|refs|] == refs;
  }

  /** As `Realizes`, before the first filter is given its inputs. */
  ghost predicate Unwired(pl: Pipeline, stages: seq<Stage>)
    reads pl, pl.filters
  {
    && |pl.filters| == |stages| > 0
    && (forall k :: 0 <= k < |stages| ==> pl.filters[k].id == stages[k].id && pl.filters[k].work == stages[k].work)
    && pl.filters[0].next == []
    && (forall k :: 0 < k < |stages| ==> pl.filters[k].next == [FromFilter(pl.filters[k - 1])])
  }

  /** The filter chain of a pipeline; the last one is out of range exactly when some filter ref resolves to nothing. */
  method BuildPipeline(ghost spec: ForwarderSpec, index: nat, p: PipelineSpec, filters: map<string, FilterSpec>,
                       inputSpecs: seq<InputSpec>) returns (r: Outcome<Pipeline>)
    requires index < |spec.pipelines| && spec.pipelines[index] == p
    requires filters == FilterMap(spec.filters) && inputSpecs == spec.inputs
    ensures r.Ok? <==> PipelineResolves(spec, p)
    ensures r.Ok? ==> fresh(r.value) && fresh(set f | f in r.value.filters) && r.value.spec == p && r.value.index == index
    ensures r.Ok? ==> Unwired(r.value, Stages(spec, index))
  {
    var pl := new Pipeline(index, p, filters);
    pl.AddSystemFilters(InputSpecsOf(inputSpecs, p.inputRefs), filters);
    SystemOrderMembers(p.filterRefs, filters);
    assert VIAQ in pl.filterRefs;
    var complete := BuildFilters(pl);
    assert complete <==> PipelineResolves(spec, p);
    if !complete {
      return Panic;
    }
    forall k | 0 <= k < |pl.filters|
      ensures pl.filters[k].id == StageAt(spec, index, k).id && pl.filters[k].work == StageAt(spec, index, k).work
    {
      assert pl.filters[k].work == pl.filterMap[pl.filterRefs[k]];
    }
    r := Ok(pl);
  }

  /** `NewPipeline` with the system filters. It panics exactly when some filter ref resolves to nothing. */
  method NewPipeline(ghost spec: ForwarderSpec, index: nat, p: PipelineSpec, inputs: map<string, Input>, outputs: map<string, Output>,
                     filters: map<string, FilterSpec>, inputSpecs: seq<InputSpec>) returns (r: Outcome<Pipeline>)
    requires index < |spec.pipelines| && spec.pipelines[index] == p
    requires filters == FilterMap(spec.filters) && inputSpecs == spec.inputs
    requires Injective(outputs)
    modifies outputs.Values
    ensures r.Ok? <==> PipelineResolves(spec, p)
    ensures r.Ok? ==> fresh(r.value) && fresh(set f | f in r.value.filters) && r.value.spec == p && r.value.index == index
    ensures r.Ok? ==> Realizes(r.value, Stages(spec, index), inputs)
    ensures r.Ok? ==> forall n :: n in outputs ==>
                        outputs[n].inputIds == old(outputs[n].inputIds) + Repeat(LastStage(spec, index), Count(p.outputRefs, n))
  {
    hide SystemOrder, FilterMap, StageLabel, StageAt, PipelineName, FilterId, Repeat, Count, HeadNext, PipelineResolves;
    r := BuildPipeline(spec, index, p, filters, inputSpecs);
    if r.Panic? {
      return;
    }
    var pl := r.value;
    assert pl.filters[0] in pl.filters;
    WireInputs(pl.filters[0], p.inputRefs, inputs);
    assert forall k :: 0 < k < |pl.filters| ==> pl.filters[k] != pl.filters[0] by {
      FiltersDistinct(pl, Stages(spec, index), spec, index);
    }
    WireOutputs(pl.filters[|pl.filters| - 1], p.outputRefs, outputs);
  }

  lemma FiltersDistinct(pl: Pipeline, stages: seq<Stage>, spec: ForwarderSpec, index: nat)
    requires index < |spec.pipelines| && PipelineResolves(spec, spec.pipelines[index])
    requires |pl.filters| == |stages| && stages == Stages(spec, index)
    requires forall k :: 0 <= k < |stages| ==> pl.filters[k].id == stages[k].id
    ensures forall k :: 0 < k < |pl.filters| ==> pl.filters[k] != pl.filters[0]
  {
    var p := spec.pipelines[index];
    var refs := SystemOrder(p.filterRefs, FilterMap(spec.filters));
    forall k | 0 < k < |pl.filters| ensures pl.filters[k].id != pl.filters[0].id {
      FilterIdsDistinctWithinPipeline(PipelineName(p, index), refs[k], k, refs[0], 0);
    }
  }
}
