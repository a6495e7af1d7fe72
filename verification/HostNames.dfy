/** What prune filters leave of a record, and that no record reaches Google Cloud Logging without its host name. */
module HostNames {
  import opened Wrappers
  import opened FieldPath
  import opened Ids
  import opened Api
  import opened Components
  import opened Routes
  import opened Traces
  import opened Distinctness
  import opened Checks
  import opened Permissions
  import opened GateProofs

  // -------- what pruning does to a record

  function Keys(segments: seq<Segment>): (r: seq<string>)
    ensures |r| == |segments| && forall k :: 0 <= k < |r| ==> r[k] == segments[k].text
  {
    seq(|segments|, k requires 0 <= k < |segments| => segments[k].text)
  }

  /** An accepted path that leads along these keys; whether a segment is written in quotes makes no difference. */
  ghost predicate Spells(path: string, keys: seq<string>) {
    exists segments: seq<Segment> :: segments != [] && AreSegments(segments) && Render(segments) == path && Keys(segments) == keys
  }

  /** Some path of the list leads to the field or to an object around it. */
  ghost predicate Covers(paths: seq<string>, field: seq<string>) {
    exists path, keys :: path in paths && Spells(path, keys) && keys <= field
  }

  const INTERNAL := "._internal"

  /** First only what `notIn` covers is kept, along with the internal fields, and then what `in` covers is removed. */
  ghost predicate Left(s: PruneSpec, field: seq<string>) {
    && (s.notIn.Some? ==> Covers(s.notIn.value + [INTERNAL], field))
    && (s.inList.Some? ==> !Covers(s.inList.value, field))
  }

  /** A record as the set of its fields, each by the keys that lead to it. */
  type Record = set<seq<string>>

  ghost function Pruned(s: PruneSpec, record: Record): Record {
    set field | field in record && Left(s, field)
  }

  /** The record after the filters of these names, as far as they prune. */
  ghost function AfterFilters(refs: seq<string>, filters: map<string, FilterSpec>, record: Record): Record {
    if refs == [] then record
    else
      var before, last := AfterFilters(refs[..|refs| - 1], filters, record), refs[|refs| - 1];
      if last in filters && filters[last].kind == Prune && filters[last].prune.Some? then Pruned(filters[last].prune.value, before) else before
  }

  const HOST := ["hostname"]
  const PLAIN_HOST := ".hostname"
  const QUOTED_HOST := ".\"hostname\""

  lemma OneSegment(s: Segment)
    ensures Render([s]) == "." + Raw(s) && Keys([s]) == [s.text]
  {
    assert [s][1..] == [];
  }

  lemma HostWord(name: string)
    requires name == "hostname"
    ensures IsSegment(Plain(name)) && IsSegment(Quoted(name)) && name != ""
    ensures "." + Raw(Plain(name)) == PLAIN_HOST && "." + Raw(Quoted(name)) == QUOTED_HOST
  {
  }

  lemma HostSpellings(path: string, keys: seq<string>, name: string)
    requires name == "hostname" && Spells(path, keys) && keys <= [name]
    ensures path == "." + Raw(Plain(name)) || path == "." + Raw(Quoted(name))
  {
    var segments: seq<Segment> :| segments != [] && AreSegments(segments) && Render(segments) == path && Keys(segments) == keys;
    assert |segments| == 1 && keys[0] == segments[0].text == name;
    assert segments == [segments[0]];
    OneSegment(segments[0]);
    hide Raw;
    assert segments[0] == Plain(name) || segments[0] == Quoted(name);
  }

  lemma SpellsOne(s: Segment)
    requires IsSegment(s)
    ensures Spells("." + Raw(s), [s.text])
  {
    OneSegment(s);
    assert AreSegments([s]);
  }

  /** There are two ways to write the path of the host name. */
  lemma CoversHost(paths: seq<string>)
    ensures Covers(paths, HOST) <==> PLAIN_HOST in paths || QUOTED_HOST in paths
  {
    HostCovered(paths, "hostname");
  }

  lemma HostCovered(paths: seq<string>, name: string)
    requires name == "hostname"
    ensures Covers(paths, [name]) <==> PLAIN_HOST in paths || QUOTED_HOST in paths
  {
    HostWord(name);
    hide IsSegment, Raw, Spells;
    if Covers(paths, [name]) {
      var path, keys :| path in paths && Spells(path, keys) && keys <= [name];
      HostSpellings(path, keys, name);
    }
    SpellsOne(Plain(name));
    SpellsOne(Quoted(name));
    assert [name] <= [name];
  }

  lemma InternalElsewhere()
    ensures INTERNAL != PLAIN_HOST && INTERNAL != QUOTED_HOST
  {
    assert INTERNAL[1] == '_' && PLAIN_HOST[1] == 'h' && QUOTED_HOST[1] == '"';
  }

  lemma HostLeft(s: PruneSpec)
    ensures Left(s, HOST) <==>
            && (s.notIn.Some? ==> PLAIN_HOST in s.notIn.value || QUOTED_HOST in s.notIn.value)
            && (s.inList.Some? ==> PLAIN_HOST !in s.inList.value && QUOTED_HOST !in s.inList.value)
  {
    hide Covers;
    InternalElsewhere();
    if s.notIn.Some? { CoversHost(s.notIn.value + [INTERNAL]); }
    if s.inList.Some? { CoversHost(s.inList.value); }
  }

  // -------- what the check makes of it

  /** The host name stays although the check says it is pruned: `notIn` lists it in quotes. */
  predicate WronglyRefused(s: PruneSpec) {
    && s.notIn.Some? && QUOTED_HOST in s.notIn.value && PLAIN_HOST !in s.notIn.value
    && (s.inList.Some? ==> PLAIN_HOST !in s.inList.value && QUOTED_HOST !in s.inList.value)
  }

  /** The host name is pruned although the check is content: `in` lists it in quotes. */
  predicate WronglyAccepted(s: PruneSpec) {
    && s.inList.Some? && QUOTED_HOST in s.inList.value && PLAIN_HOST !in s.inList.value
    && (s.notIn.Some? ==> PLAIN_HOST in s.notIn.value)
  }

  /** The host name is pruned and the check says so. */
  predicate RightlyRefused(s: PruneSpec) {
    || (s.notIn.Some? && PLAIN_HOST !in s.notIn.value && QUOTED_HOST !in s.notIn.value)
    || (s.inList.Some? && PLAIN_HOST in s.inList.value)
    || (s.notIn.Some? && PLAIN_HOST !in s.notIn.value && s.inList.Some? && QUOTED_HOST in s.inList.value)
  }

  /** What the check says of a filter, and what the filter does. */
  lemma PruneCases(f: FilterSpec)
    requires f.kind == Prune && f.prune.Some?
    ensures PrunesHostName(f) <==> RightlyRefused(f.prune.value) || WronglyRefused(f.prune.value)
    ensures Left(f.prune.value, HOST) <==> !RightlyRefused(f.prune.value) && !WronglyAccepted(f.prune.value)
    ensures !(RightlyRefused(f.prune.value) && WronglyRefused(f.prune.value)) && !(PrunesHostName(f) && WronglyAccepted(f.prune.value))
  {
    HostLeft(f.prune.value);
    hide Left;
    assert HOSTNAME == PLAIN_HOST;
  }

  /** The check for a pruned host name is right about what the filter leaves exactly when quotes do not get in its way. */
  lemma PruneCheckIff(f: FilterSpec)
    requires f.kind == Prune && f.prune.Some?
    ensures (PrunesHostName(f) <==> !Left(f.prune.value, HOST)) <==> !WronglyRefused(f.prune.value) && !WronglyAccepted(f.prune.value)
  {
    PruneCases(f);
    hide Left, PrunesHostName;
  }

  /** Each filter of the pipeline that prunes leaves the host name. */
  ghost predicate EachLeaves(refs: seq<string>, filters: map<string, FilterSpec>) {
    forall r :: r in refs && r in filters && filters[r].kind == Prune && filters[r].prune.Some? ==> Left(filters[r].prune.value, HOST)
  }

  lemma {:induction false} HostAfterFilters(refs: seq<string>, filters: map<string, FilterSpec>, record: Record)
    requires HOST in record
    ensures HOST in AfterFilters(refs, filters, record) <==> EachLeaves(refs, filters)
  {
    hide Left;
    if refs != [] {
      var init, last := refs[..|refs| - 1], refs[|refs| - 1];
      HostAfterFilters(init, filters, record);
      assert refs == init + [last];
    }
  }

  ghost predicate ToGoogleOutput(p: PipelineSpec, spec: ForwarderSpec) {
    exists o :: o in p.outputRefs && o in OutputMap(spec.outputs) && OutputMap(spec.outputs)[o].kind == GoogleCloudLogging
  }

  ghost predicate RefsResolve(p: PipelineSpec, spec: ForwarderSpec) {
    && (forall r :: r in p.inputRefs ==> r in InputMap(spec.inputs))
    && (forall r :: r in p.outputRefs ==> r in OutputMap(spec.outputs))
    && (forall r :: r in p.filterRefs ==> r in FilterMap(spec.filters))
  }

  ghost predicate SomeFilter(p: PipelineSpec, spec: ForwarderSpec, which: PruneSpec -> bool) {
    exists r :: r in p.filterRefs && r in FilterMap(spec.filters) && FilterMap(spec.filters)[r].kind == Prune
                && FilterMap(spec.filters)[r].prune.Some? && which(FilterMap(spec.filters)[r].prune.value)
  }

  /** Neither kind of wrong answer shows, or one of them is made up for by another filter. */
  ghost predicate AnswersRight(p: PipelineSpec, spec: ForwarderSpec) {
    || SomeFilter(p, spec, RightlyRefused)
    || (SomeFilter(p, spec, WronglyRefused) <==> SomeFilter(p, spec, WronglyAccepted))
  }

  /**
   That a pipeline whose references resolve draws no complaint exactly when it leads to no Google Cloud Logging output or a
   record still has its host name after all of its filters, is so exactly when quotes do not get in the way of the check.
   */
  lemma PipelineCheckIff(p: PipelineSpec, spec: ForwarderSpec, record: Record)
    requires !HostNamePanics(p, spec) && RefsResolve(p, spec) && HOST in record
    ensures (PipelineMessages(p, spec) == [] <==> !ToGoogleOutput(p, spec) || HOST in AfterFilters(p.filterRefs, FilterMap(spec.filters), record))
            <==> !ToGoogleOutput(p, spec) || AnswersRight(p, spec)
  {
    MessagesExact(p, spec);
    var filters := FilterMap(spec.filters);
    HostAfterFilters(p.filterRefs, filters, record);
    hide PipelineMessages, FilterMap, OutputMap, InputMap, PrunesHostName, Left, WronglyRefused, WronglyAccepted, RightlyRefused, AfterFilters;
    if ToGoogleOutput(p, spec) {
      forall r | r in p.filterRefs ensures !Unsectioned(r, spec) {
      }
      forall r | r in p.filterRefs && r in filters && filters[r].kind == Prune
        ensures PrunesHostName(filters[r]) <==> RightlyRefused(filters[r].prune.value) || WronglyRefused(filters[r].prune.value)
        ensures Left(filters[r].prune.value, HOST) <==> !RightlyRefused(filters[r].prune.value) && !WronglyAccepted(filters[r].prune.value)
      {
        assert !Unsectioned(r, spec);
        PruneCases(filters[r]);
      }
      OtherKindsKeep(filters);
      assert PipelineMessages(p, spec) == [] <==> !SomeFilter(p, spec, RightlyRefused) && !SomeFilter(p, spec, WronglyRefused);
      assert EachLeaves(p.filterRefs, filters) <==> !SomeFilter(p, spec, RightlyRefused) && !SomeFilter(p, spec, WronglyAccepted);
    }
  }

  lemma OtherKindsKeep(filters: map<string, FilterSpec>)
    ensures forall r :: r in filters && filters[r].kind != Prune ==> !PrunesHostName(filters[r])
  {
  }

  /** A filter that validation accepts and that prunes the host name behind the back of the check. */
  lemma QuotedHostSlipsThrough(name: string, body: string) returns (f: FilterSpec)
    ensures f.kind == Prune && f.prune.Some? && !PrunesHostName(f) && !Left(f.prune.value, HOST)
    ensures f.prune.value.notIn.None? && f.prune.value.inList == Some([QUOTED_HOST]) && Spells(QUOTED_HOST, HOST)
  {
    f := FilterSpec(name, Prune, Some(PruneSpec(Some([QUOTED_HOST]), None)), body);
    HostLeft(f.prune.value);
    HostWord("hostname");
    SpellsOne(Quoted("hostname"));
    hide Left, Spells;
    QuotedIsNotPlain();
  }

  lemma QuotedIsNotPlain()
    ensures QUOTED_HOST != PLAIN_HOST && PLAIN_HOST == HOSTNAME
  {
    assert QUOTED_HOST[1] != PLAIN_HOST[1];
  }

  // -------- records on their way

  /** A user filter met on the way to an output is one that a pipeline leading to that output refers to. */
  lemma UserOnTrace(spec: ForwarderSpec, trace: seq<Label>, o: OutputSpec, k: nat, f: FilterSpec) returns (p: PipelineSpec, r: string, name: string)
    requires AllResolve(spec) && Asks(spec, trace) && trace != [] && trace[|trace| - 1] == Sink(o)
    requires k < |trace| && trace[k] == User(f)
    ensures p in spec.pipelines && r in p.filterRefs && r in FilterMap(spec.filters) && FilterMap(spec.filters)[r] == f
    ensures name in p.outputRefs && name in OutputMap(spec.outputs) && OutputMap(spec.outputs)[name] == o
  {
    hide FilterMap, OutputMap, InputMap, InputChains, StageLabel, SystemOrder;
    assert trace != METRICS_TRACE;
    var n, c, i: nat, out :| Denotes(spec, n, c, i, out) && trace == SpecTrace(spec, n, c, i, out);
    p, name := spec.pipelines[i], out;
    var works, delivery := FilterWorks(spec, p), DeliveryWorks(OutputMap(spec.outputs)[out]);
    assert trace == c.labels + works + delivery;
    assert trace[|trace| - 1] == delivery[|delivery| - 1];
    ChainLabels(InputMap(spec.inputs)[n], c);
    assert |c.labels| <= k < |c.labels| + |works|;
    r := WorkOfUser(spec, p, k - |c.labels|, f);
  }

  lemma ChainLabels(i: InputSpec, c: Chain)
    requires c in InputChains(i)
    ensures forall l :: l in c.labels ==> !l.User?
  {
    hide MakeInputId, MakeId, SelectorOf, AuditPaths;
  }

  lemma WorkOfUser(spec: ForwarderSpec, p: PipelineSpec, k: nat, f: FilterSpec) returns (r: string)
    requires PipelineResolves(spec, p) && k < |FilterWorks(spec, p)| && FilterWorks(spec, p)[k] == User(f)
    ensures r in p.filterRefs && r in FilterMap(spec.filters) && FilterMap(spec.filters)[r] == f
  {
    hide FilterMap, SystemOrder;
    SystemOrderMembers(p.filterRefs, FilterMap(spec.filters));
    r := SystemOrder(p.filterRefs, FilterMap(spec.filters))[k];
    assert r in SystemOrder(p.filterRefs, FilterMap(spec.filters));
  }

  lemma PassingPipeline(spec: ForwarderSpec, world: World, p: PipelineSpec)
    requires SpecPasses(spec, world) && p in spec.pipelines
    ensures PipelinePasses(p, spec)
  {
    hide PipelinePasses, Permitted;
  }

  lemma KeptByCheck(spec: ForwarderSpec, p: PipelineSpec, name: string, r: string)
    requires PipelinePasses(p, spec) && name in p.outputRefs && ToGoogle(name, spec) && r in p.filterRefs && r in FilterMap(spec.filters)
    ensures !Sectionless(FilterMap(spec.filters)[r]) && !PrunesHostName(FilterMap(spec.filters)[r])
  {
    hide FilterMap, OutputMap, InputMap, PrunesHostName;
    assert KeepsHostName(p, spec);
    assert !Unsectioned(r, spec);
  }

  /** Behind the gate, a filter on the way to a Google Cloud Logging sink leaves the host name, unless `in` lists it in quotes alone. */
  lemma HostNameReachesGoogle(spec: ForwarderSpec, world: World, config: Config, trace: seq<Label>, o: OutputSpec, k: nat, f: FilterSpec)
    requires SpecPasses(spec, world) && UniquePipelines(spec) && NoClash(spec)
    requires Compile(spec) == Ok(config) && IsTrace(config, trace) && trace != [] && trace[|trace| - 1] == Sink(o) && o.kind == GoogleCloudLogging
    requires k < |trace| && trace[k] == User(f) && f.kind == Prune
    ensures f.prune.Some? && (Left(f.prune.value, HOST) <==> !WronglyAccepted(f.prune.value))
  {
    RoutingOfNames(spec, config, trace);
    hide SpecPasses, NoClash, IsTrace, Left, UniquePipelines, PipelinePasses, Asks, AllComponents, FilterMap, OutputMap, PrunesHostName,
         RightlyRefused, WronglyRefused, WronglyAccepted;
    var p, r, name := UserOnTrace(spec, trace, o, k, f);
    PassingPipeline(spec, world, p);
    KeptByCheck(spec, p, name, r);
    PruneCases(f);
  }
}
