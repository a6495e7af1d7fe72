/**
 When the ids of all generated components are distinct: exactly when the formatted names of a spec meet in none of
 a few ways.
 */
module Distinctness {
  import opened Ordering
  import opened Ids
  import opened Api
  import opened Components
  import opened Graph
  import opened Suffixes

  // -------- inputs

  predicate Throttled(i: InputSpec) {
    MaxRecordsPerSecond(i).Ok? && MaxRecordsPerSecond(i).value.Some?
  }

  /** The kinds of source an input other than a receiver gets, in order. */
  function Purposes(i: InputSpec): seq<Part> {
    match i.kind
    case Application => [Container]
    case Infrastructure =>
      (if ContainerLogs in InfrastructureSources(i) then [Container] else [])
      + (if NodeLogs in InfrastructureSources(i) then [Journal] else [])
    case Audit =>
      (if Auditd in AuditSources(i) then [Host] else [])
      + (if KubeAPI in AuditSources(i) then [Kube] else [])
      + (if OpenShiftAPI in AuditSources(i) then [OpenShift] else [])
      + (if OVN in AuditSources(i) then [Ovn] else [])
    case Receiver => []
  }

  function PurposeSuffixes(p: Part, throttled: bool): seq<seq<Part>> {
    [[p], [p, Meta]] + if p == Container && throttled then [[p, Throttle]] else []
  }

  function SuffixesOf(purposes: seq<Part>, throttled: bool): seq<seq<Part>> {
    if purposes == [] then []
    else SuffixesOf(purposes[..|purposes| - 1], throttled) + PurposeSuffixes(purposes[|purposes| - 1], throttled)
  }

  /** What an input appends to its formatted name: one list of parts for each of its components. */
  function InputSuffixes(i: InputSpec): seq<seq<Part>> {
    if !HasReceiver(i) then SuffixesOf(Purposes(i), Throttled(i))
    else match i.receiver.value.kind
         case Syslog => [[], [Meta]]
         case HTTP => [[], [ItemList], [Meta]]
  }

  lemma PurposeId(name: string, p: Part)
    ensures MakeInputId([name, Token(p)]) == Under(MakeInputId([name]), [p])
  {
    hide Format, Clean, Token;
    UnderOne(MakeInputId([name]), p);
    MakeIdSnoc(["input"] + [name], Token(p));
    assert ["input"] + [name, Token(p)] == ["input"] + [name] + [Token(p)];
    TokenClean(p);
    CleanFormat(Token(p));
  }

  /** An id made from an id that is formatted already. */
  lemma NestedId(parts: seq<string>, p: Part)
    ensures MakeId([MakeId(parts), Token(p)]) == Under(MakeId(parts), [p])
  {
    hide Format, Clean, Token;
    UnderOne(MakeId(parts), p);
    FormatIdempotent(Join(parts));
    MakeIdPair([MakeId(parts), Token(p)]);
    TokenClean(p);
    CleanFormat(Token(p));
  }

  lemma NestedPurposeId(name: string, p: Part, q: Part)
    ensures MakeId([MakeInputId([name, Token(p)]), Token(q)]) == Under(MakeInputId([name]), [p, q])
  {
    hide Format, Token, MakeId;
    PurposeId(name, p);
    NestedId(["input"] + [name, Token(p)], q);
    UnderOne(MakeInputId([name]), p);
    UnderOne(MakeInputId([name, Token(p)]), q);
    UnderTwo(MakeInputId([name]), p, q);
  }

  lemma ContainerSuffixed(i: InputSpec, selector: Selector)
    ensures Suffixed(MakeInputId([i.name]), PurposeSuffixes(Container, Throttled(i)), ChainComponents(ContainerChain(i, selector)))
  {
    hide Under, MakeInputId, MakeId, MaxRecordsPerSecond;
    PurposeId(i.name, Container);
    NestedPurposeId(i.name, Container, Meta);
    NestedPurposeId(i.name, Container, Throttle);
  }

  lemma SourceAndMetaSuffixed(i: InputSpec, p: Part, source: SourceKind, logSource: string)
    requires p != Container
    ensures Suffixed(MakeInputId([i.name]), PurposeSuffixes(p, Throttled(i)), ChainComponents(SourceAndMeta(i, Token(p), source, logSource)))
  {
    hide Under, MakeInputId, MakeId;
    PurposeId(i.name, p);
    NestedPurposeId(i.name, p, Meta);
    assert Token(Meta) == "meta";
    hide Token;
  }

  /** The chain of an input that serves a purpose. */
  ghost function ChainOf(i: InputSpec, p: Part): (c: Chain)
    ensures c.Valid()
  {
    match p
    case Journal => JournalChain(i)
    case Host => AuditChain(i, Auditd)
    case Kube => AuditChain(i, KubeAPI)
    case OpenShift => AuditChain(i, OpenShiftAPI)
    case Ovn => AuditChain(i, OVN)
    case _ => ContainerChain(i, SelectorOf(i))
  }

  lemma ChainsByPurpose(i: InputSpec)
    requires !HasReceiver(i)
    ensures |InputChains(i)| == |Purposes(i)|
    ensures forall k :: 0 <= k < |Purposes(i)| ==> InputChains(i)[k] == ChainOf(i, Purposes(i)[k])
  {
    hide ContainerChain, AuditChain, JournalChain, InfrastructureSources, AuditSources;
  }

  lemma PurposesDiffer(i: InputSpec)
    ensures forall p :: p in Purposes(i) ==> p in [Container, Journal, Host, Kube, OpenShift, Ovn]
    ensures forall j, k :: 0 <= j < k < |Purposes(i)| ==> Purposes(i)[j] != Purposes(i)[k]
  {
  }

  lemma PurposeSuffixed(i: InputSpec, p: Part)
    requires p in [Container, Journal, Host, Kube, OpenShift, Ovn]
    ensures Suffixed(MakeInputId([i.name]), PurposeSuffixes(p, Throttled(i)), ChainComponents(ChainOf(i, p)))
  {
    hide Suffixed, PurposeSuffixes, ChainComponents, ContainerChain, SourceAndMeta, MakeInputId, AuditPaths;
    match p {
      case Container => ContainerSuffixed(i, SelectorOf(i));
      case Journal => SourceAndMetaSuffixed(i, p, Journald, "node");
      case Host => SourceAndMetaSuffixed(i, p, FileSource(AuditPaths(Auditd)), "auditd");
      case Kube => SourceAndMetaSuffixed(i, p, FileSource(AuditPaths(KubeAPI)), "kubeAPI");
      case OpenShift => SourceAndMetaSuffixed(i, p, FileSource(AuditPaths(OpenShiftAPI)), "openshiftAPI");
      case Ovn => SourceAndMetaSuffixed(i, p, FileSource(AuditPaths(OVN)), "ovn");
    }
  }

  lemma SuffixedConcat(base: string, ss: seq<seq<Part>>, xs: seq<Component>, ts: seq<seq<Part>>, ys: seq<Component>)
    requires Suffixed(base, ss, xs) && Suffixed(base, ts, ys)
    ensures Suffixed(base, ss + ts, xs + ys)
  {
    hide Under;
  }

  lemma {:induction false} ChainsSuffixed(base: string, purposes: seq<Part>, throttled: bool, chains: seq<Chain>)
    requires |purposes| == |chains| && forall c :: c in chains ==> c.Valid()
    requires forall k :: 0 <= k < |chains| ==> Suffixed(base, PurposeSuffixes(purposes[k], throttled), ChainComponents(chains[k]))
    ensures Suffixed(base, SuffixesOf(purposes, throttled), ChainsComponents(chains))
  {
    hide PurposeSuffixes, ChainComponents;
    if chains != [] {
      var n := |chains| - 1;
      ChainsSuffixed(base, purposes[..n], throttled, chains[..n]);
      SuffixedConcat(base, SuffixesOf(purposes[..n], throttled), ChainsComponents(chains[..n]),
                     PurposeSuffixes(purposes[n], throttled), ChainComponents(chains[n]));
    }
  }

  lemma ReceiverSuffixed(i: InputSpec)
    requires HasReceiver(i)
    ensures Suffixed(MakeInputId([i.name]), InputSuffixes(i), ChainComponents(ReceiverChain(i, i.receiver.value)))
  {
    hide Under, MakeInputId, MakeId;
    var base := MakeInputId([i.name]);
    NestedId(["input"] + [i.name], Meta);
    NestedId(["input"] + [i.name], ItemList);
    assert Token(Meta) == "meta" && Token(ItemList) == "items";
    hide Token;
    assert Under(base, []) == base by { UnderNone(base); }
    assert MakeInputId([i.name]) == MakeId(["input"] + [i.name]) by { InputIdIs([i.name]); }
  }

  lemma InputIdIs(parts: seq<string>)
    ensures MakeInputId(parts) == MakeId(["input"] + parts)
  {
  }

  lemma InputSuffixed(i: InputSpec)
    ensures Suffixed(MakeInputId([i.name]), InputSuffixes(i), ChainsComponents(InputChains(i)))
  {
    hide Suffixed, PurposeSuffixes, ChainComponents, ChainOf, MakeInputId, ReceiverChain;
    if HasReceiver(i) {
      ReceiverSuffixed(i);
      hide InputSuffixes;
      var c := ReceiverChain(i, i.receiver.value);
      assert InputChains(i) == [c] && [c][..0] == [];
      assert ChainsComponents([c]) == [] + ChainComponents(c) == ChainComponents(c);
    } else {
      PurposesDiffer(i);
      ChainsByPurpose(i);
      hide Purposes, InputChains;
      forall k | 0 <= k < |Purposes(i)|
        ensures Suffixed(MakeInputId([i.name]), PurposeSuffixes(Purposes(i)[k], Throttled(i)), ChainComponents(InputChains(i)[k]))
      {
        PurposeSuffixed(i, Purposes(i)[k]);
      }
      ChainsSuffixed(MakeInputId([i.name]), Purposes(i), Throttled(i), InputChains(i));
    }
  }

  lemma {:induction false} SuffixMember(purposes: seq<Part>, throttled: bool, s: seq<Part>)
    ensures s in SuffixesOf(purposes, throttled) <==> exists p :: p in purposes && s in PurposeSuffixes(p, throttled)
  {
    hide PurposeSuffixes;
    if purposes != [] {
      var init, last := purposes[..|purposes| - 1], purposes[|purposes| - 1];
      SuffixMember(init, throttled, s);
      assert purposes == init + [last];
    }
  }

  lemma NoRepeatsConcat(ss: seq<seq<Part>>, ts: seq<seq<Part>>)
    requires NoRepeats(ss) && NoRepeats(ts) && forall s :: s in ss ==> s !in ts
    ensures NoRepeats(ss + ts)
  {
    var us := ss + ts;
    forall j, k | 0 <= j < k < |us| ensures us[j] != us[k] {
      if j < |ss| <= k {
        assert us[j] in ss && us[k] in ts;
      }
    }
  }

  lemma {:induction false} SuffixesDiffer(purposes: seq<Part>, throttled: bool)
    requires forall j, k :: 0 <= j < k < |purposes| ==> purposes[j] != purposes[k]
    ensures NoRepeats(SuffixesOf(purposes, throttled))
  {
    if purposes != [] {
      var init, last := purposes[..|purposes| - 1], purposes[|purposes| - 1];
      SuffixesDiffer(init, throttled);
      forall s | s in SuffixesOf(init, throttled) ensures s !in PurposeSuffixes(last, throttled) {
        SuffixMember(init, throttled, s);
      }
      NoRepeatsConcat(SuffixesOf(init, throttled), PurposeSuffixes(last, throttled));
    }
  }

  lemma InputBlock(i: InputSpec)
    ensures DistinctIds(ChainsComponents(InputChains(i))) && AllHeaded("input", ChainsComponents(InputChains(i)))
  {
    hide Suffixed, InputChains, DistinctIds, AllHeaded, SuffixesOf, Purposes, MakeId, ChainsComponents;
    PurposesDiffer(i);
    SuffixesDiffer(Purposes(i), Throttled(i));
    InputSuffixed(i);
    hide InputSuffixes;
    SuffixedDistinct(MakeInputId([i.name]), InputSuffixes(i), ChainsComponents(InputChains(i)));
    SuffixedHeaded("input", i.name, InputSuffixes(i), ChainsComponents(InputChains(i)));
  }

  /** `b` is a receiver that has the name of one of the components of `a`, up to formatting. */
  ghost predicate NamedAfter(a: InputSpec, b: InputSpec) {
    HasReceiver(b) && exists s :: s in InputSuffixes(a) && Format(b.name) == Under(Format(a.name), s)
  }

  /** The names format alike and there is a source or transform that both inputs have. */
  ghost predicate AlikeInputs(a: InputSpec, b: InputSpec) {
    Format(a.name) == Format(b.name) && exists s :: s in InputSuffixes(a) && s in InputSuffixes(b)
  }

  ghost predicate InputsClash(a: InputSpec, b: InputSpec) {
    AlikeInputs(a, b) || NamedAfter(a, b) || NamedAfter(b, a)
  }

  lemma SuffixShape(i: InputSpec, s: seq<Part>)
    requires s in InputSuffixes(i)
    ensures |s| <= 2
    ensures |s| == 0 ==> HasReceiver(i)
    ensures |s| == 1 ==> (HasReceiver(i) <==> s[0] == Meta || s[0] == ItemList) && s[0] != Throttle
    ensures |s| == 2 ==> [s[0]] in InputSuffixes(i) && (s[1] == Meta || s[1] == Throttle)
  {
    hide Purposes, SuffixesOf;
    if !HasReceiver(i) {
      PurposesDiffer(i);
      SuffixMember(Purposes(i), Throttled(i), s);
      var p :| p in Purposes(i) && s in PurposeSuffixes(p, Throttled(i));
      SuffixMember(Purposes(i), Throttled(i), [p]);
      assert [p] in PurposeSuffixes(p, Throttled(i));
    }
  }

  lemma MeetingSuffixes(a: InputSpec, s: seq<Part>, b: InputSpec, t: seq<Part>)
    requires s in InputSuffixes(a) && t in InputSuffixes(b) && |s| >= |t|
    requires Under(Format(a.name), s) == Under(Format(b.name), t)
    ensures AlikeInputs(a, b) || NamedAfter(a, b)
  {
    UnderEqualIff(Format(a.name), s, Format(b.name), t);
    SuffixShape(a, s);
    SuffixShape(b, t);
    hide InputSuffixes, Format;
    if |s| == |t| {
      assert s[0..] == s && s[..0] == [];
    } else if t == [] {
      assert s[..|s|] == s;
    } else {
      assert s[1..] == [s[1]] && s[..1] == [s[0]];
    }
  }

  lemma NamedAfterMeets(a: InputSpec, b: InputSpec)
    requires NamedAfter(a, b)
    ensures exists s, t :: s in InputSuffixes(a) && t in InputSuffixes(b) && Under(Format(a.name), s) == Under(Format(b.name), t)
  {
    var s :| s in InputSuffixes(a) && Format(b.name) == Under(Format(a.name), s);
    assert [] in InputSuffixes(b);
    UnderNone(Format(b.name));
  }

  /** Two inputs share an id exactly when they clash. */
  lemma InputIdsCollideIff(a: InputSpec, b: InputSpec)
    ensures !Disjoint(ChainsComponents(InputChains(a)), ChainsComponents(InputChains(b))) <==> InputsClash(a, b)
  {
    hide Suffixed, InputSuffixes, Format, Under, MakeId, InputChains, ChainsComponents, AlikeInputs, NamedAfter, Disjoint;
    var ss, ts := InputSuffixes(a), InputSuffixes(b);
    InputSuffixed(a);
    InputSuffixed(b);
    SuffixedDisjointIff(MakeInputId([a.name]), ss, ChainsComponents(InputChains(a)), MakeInputId([b.name]), ts, ChainsComponents(InputChains(b)));
    forall s, t | s in ss && t in ts
      ensures Under(MakeInputId([a.name]), s) == Under(MakeInputId([b.name]), t) <==> Under(Format(a.name), s) == Under(Format(b.name), t)
    {
      TagsMeetIff("input", a.name, s, b.name, t);
    }
    InputsMeetIff(a, b);
  }

  lemma InputsMeetIff(a: InputSpec, b: InputSpec)
    ensures (exists s, t :: s in InputSuffixes(a) && t in InputSuffixes(b) && Under(Format(a.name), s) == Under(Format(b.name), t))
       <==> InputsClash(a, b)
  {
    hide InputSuffixes, Format, Under, NamedAfter;
    if s, t :| s in InputSuffixes(a) && t in InputSuffixes(b) && Under(Format(a.name), s) == Under(Format(b.name), t) {
      if |s| >= |t| {
        MeetingSuffixes(a, s, b, t);
      } else {
        MeetingSuffixes(b, t, a, s);
      }
    }
    if NamedAfter(a, b) {
      NamedAfterMeets(a, b);
    }
    if NamedAfter(b, a) {
      NamedAfterMeets(b, a);
    }
  }

  // -------- outputs

  predicate Limited(o: OutputSpec) {
    o.limit.Some? && o.limit.value > 0
  }

  function OutputSuffixes(o: OutputSpec): seq<seq<Part>> {
    if Limited(o) then [[Throttle], []] else [[]]
  }

  /** `p` has the name of the throttle of `o`, up to formatting. */
  ghost predicate NamedAsThrottle(o: OutputSpec, p: OutputSpec) {
    Limited(o) && Format(p.name) == Under(Format(o.name), [Throttle])
  }

  ghost predicate OutputsClash(o: OutputSpec, p: OutputSpec) {
    Format(o.name) == Format(p.name) || NamedAsThrottle(o, p) || NamedAsThrottle(p, o)
  }

  lemma OutputSuffixed(o: OutputSpec, inputs: seq<string>)
    ensures Suffixed(MakeOutputId([o.name]), OutputSuffixes(o), OutputComponents(o, inputs))
  {
    hide Sort, Under, Format, MakeId;
    NestedId(["output"] + [o.name], Throttle);
    UnderNone(MakeOutputId([o.name]));
  }

  lemma OutputBlock(o: OutputSpec, inputs: seq<string>)
    ensures DistinctIds(OutputComponents(o, inputs)) && AllHeaded("output", OutputComponents(o, inputs))
  {
    hide DistinctIds, OutputComponents, MakeId, AllHeaded, Suffixed;
    OutputSuffixed(o, inputs);
    SuffixedDistinct(MakeOutputId([o.name]), OutputSuffixes(o), OutputComponents(o, inputs));
    SuffixedHeaded("output", o.name, OutputSuffixes(o), OutputComponents(o, inputs));
  }

  /** Two outputs share an id exactly when they clash. */
  lemma OutputIdsCollideIff(o: OutputSpec, p: OutputSpec, xs: seq<string>, ys: seq<string>)
    ensures !Disjoint(OutputComponents(o, xs), OutputComponents(p, ys)) <==> OutputsClash(o, p)
  {
    hide Suffixed, OutputSuffixes, OutputComponents, Format, Under, MakeId, OutputsClash;
    var ss, ts := OutputSuffixes(o), OutputSuffixes(p);
    OutputSuffixed(o, xs);
    OutputSuffixed(p, ys);
    SuffixedDisjointIff(MakeOutputId([o.name]), ss, OutputComponents(o, xs), MakeOutputId([p.name]), ts, OutputComponents(p, ys));
    forall s, t | s in ss && t in ts
      ensures Under(MakeOutputId([o.name]), s) == Under(MakeOutputId([p.name]), t) <==> Under(Format(o.name), s) == Under(Format(p.name), t)
    {
      TagsMeetIff("output", o.name, s, p.name, t);
    }
    OutputsMeetIff(o, p);
  }

  lemma OutputsMeetIff(o: OutputSpec, p: OutputSpec)
    ensures (exists s, t :: s in OutputSuffixes(o) && t in OutputSuffixes(p) && Under(Format(o.name), s) == Under(Format(p.name), t))
       <==> OutputsClash(o, p)
  {
    hide Format, Under;
    var a, b := Format(o.name), Format(p.name);
    UnderNone(a);
    UnderNone(b);
    UnderOne(a, Throttle);
    UnderOne(b, Throttle);
    UnderStep(a, [Throttle], b, [Throttle]);
    assert [Throttle][..0] == [];
    assert [] in OutputSuffixes(o) && [] in OutputSuffixes(p);
    assert Limited(o) ==> [Throttle] in OutputSuffixes(o);
    assert Limited(p) ==> [Throttle] in OutputSuffixes(p);
  }

  // -------- pipelines

  function RunningRefs(spec: ForwarderSpec, k: nat): seq<string>
    requires k < |spec.pipelines|
  {
    SystemOrder(spec.pipelines[k].filterRefs, FilterMap(spec.filters))
  }

  /** At some position the two pipelines, each followed by its filter, are spelled alike. */
  ghost predicate PipelinesClash(spec: ForwarderSpec, i: nat, j: nat)
    requires i < |spec.pipelines| && j < |spec.pipelines|
  {
    exists k :: 0 <= k < |RunningRefs(spec, i)| && k < |RunningRefs(spec, j)|
                && Format(PipelineName(spec.pipelines[i], i) + "_" + RunningRefs(spec, i)[k])
                   == Format(PipelineName(spec.pipelines[j], j) + "_" + RunningRefs(spec, j)[k])
  }

  lemma StageIds(spec: ForwarderSpec, k: nat)
    requires AllResolve(spec) && k < |spec.pipelines| && spec.pipelines[k] in spec.pipelines
    ensures |StageComponents(spec, k)| == |RunningRefs(spec, k)|
    ensures forall a :: 0 <= a < |RunningRefs(spec, k)| ==>
              StageComponents(spec, k)[a].id == FilterId(PipelineName(spec.pipelines[k], k), RunningRefs(spec, k)[a], a)
  {
    hide SystemOrder, StageLabel, HeadInputs, PipelineName, FilterId;
    forall a | 0 <= a < |RunningRefs(spec, k)|
      ensures StageComponents(spec, k)[a].id == FilterId(PipelineName(spec.pipelines[k], k), RunningRefs(spec, k)[a], a)
    {
      assert StageComponents(spec, k)[a] == StageComponent(spec, k, a);
    }
  }

  lemma StageBlock(spec: ForwarderSpec, k: nat)
    requires AllResolve(spec) && k < |spec.pipelines| && spec.pipelines[k] in spec.pipelines
    ensures DistinctIds(StageComponents(spec, k)) && AllHeaded("pipeline", StageComponents(spec, k))
  {
    StageIds(spec, k);
    hide StageComponents, FilterId, RunningRefs, PipelineName;
    var p, refs, cs := PipelineName(spec.pipelines[k], k), RunningRefs(spec, k), StageComponents(spec, k);
    forall a, b | 0 <= a < b < |cs| ensures cs[a].id != cs[b].id {
      FilterIdsDistinctWithinPipeline(p, refs[a], a, refs[b], b);
    }
    forall x | x in cs ensures "pipeline" + "_" <= x.id {
      var a :| 0 <= a < |cs| && cs[a] == x;
      FilterIdHeaded(p, refs[a], a, "pipeline");
    }
  }

  lemma FilterIdHeaded(pipeline: string, ref: string, index: nat, head: string)
    requires head == "pipeline"
    ensures head + "_" <= FilterId(pipeline, ref, index)
  {
    hide Format, Itoa;
    FilterIdShape(pipeline, ref, index);
    TokenOfPipelines(head);
    assert FilterId(pipeline, ref, index) == head + "_" + (Format(pipeline + "_" + ref) + "_" + Itoa(index));
  }

  lemma TokenOfPipelines(head: string)
    requires head == "pipeline"
    ensures Format(head) == head
  {
    FormatOfClean(head);
  }

  ghost predicate FilterIdsOf(p: string, refs: seq<string>, cs: seq<Component>) {
    |cs| == |refs| && forall a :: 0 <= a < |refs| ==> cs[a].id == FilterId(p, refs[a], a)
  }

  ghost predicate SpelledAlike(p: string, rs: seq<string>, q: string, ts: seq<string>) {
    exists k :: 0 <= k < |rs| && k < |ts| && Format(p + "_" + rs[k]) == Format(q + "_" + ts[k])
  }

  lemma FilterIdsMeetIff(p: string, rs: seq<string>, xs: seq<Component>, q: string, ts: seq<string>, ys: seq<Component>)
    requires FilterIdsOf(p, rs, xs) && FilterIdsOf(q, ts, ys)
    ensures !Disjoint(xs, ys) <==> SpelledAlike(p, rs, q, ts)
  {
    hide FilterId, Format;
    if x, y :| x in xs && y in ys && x.id == y.id {
      var a :| 0 <= a < |xs| && xs[a] == x;
      var b :| 0 <= b < |ys| && ys[b] == y;
      FilterIdsEqualIff(p, rs[a], a, q, ts[b], b);
    }
    if k :| 0 <= k < |rs| && k < |ts| && Format(p + "_" + rs[k]) == Format(q + "_" + ts[k]) {
      FilterIdsEqualIff(p, rs[k], k, q, ts[k], k);
      assert xs[k] in xs && ys[k] in ys;
    }
  }

  /** Two pipelines share an id exactly when they clash. */
  lemma PipelineIdsCollideIff(spec: ForwarderSpec, i: nat, j: nat)
    requires AllResolve(spec) && i < |spec.pipelines| && j < |spec.pipelines|
    ensures !Disjoint(StageComponents(spec, i), StageComponents(spec, j)) <==> PipelinesClash(spec, i, j)
  {
    assert spec.pipelines[i] in spec.pipelines && spec.pipelines[j] in spec.pipelines;
    StageIds(spec, i);
    StageIds(spec, j);
    hide StageComponents, FilterId, RunningRefs, PipelineName, Format, Disjoint;
    FilterIdsMeetIff(PipelineName(spec.pipelines[i], i), RunningRefs(spec, i), StageComponents(spec, i),
                     PipelineName(spec.pipelines[j], j), RunningRefs(spec, j), StageComponents(spec, j));
  }

  // -------- the whole configuration

  /** Every id starts with one of the heads and an underscore. */
  ghost predicate Headed(cs: seq<Component>, heads: seq<string>) {
    forall x :: x in cs ==> exists h :: h in heads && h + "_" <= x.id
  }

  lemma HeadUnique(g: string, h: string, id: string)
    requires '_' !in g && '_' !in h && g + "_" <= id && h + "_" <= id
    ensures g == h
  {
    FirstTokenUnique(g, id[|g| + 1..], h, id[|h| + 1..]);
  }

  lemma AddSegment(a: seq<Component>, heads: seq<string>, b: seq<Component>, head: string)
    requires Headed(a, heads) && AllHeaded(head, b)
    requires head !in heads && '_' !in head && forall h :: h in heads ==> '_' !in h
    ensures DistinctIds(a + b) <==> DistinctIds(a) && DistinctIds(b)
    ensures Headed(a + b, heads + [head])
  {
    hide DistinctIds;
    forall x, y | x in a && y in b ensures x.id != y.id {
      var h :| h in heads && h + "_" <= x.id;
      if x.id == y.id {
        HeadUnique(h, head, x.id);
      }
    }
    DistinctConcatIff(a, b);
    forall x | x in a + b ensures exists h :: h in heads + [head] && h + "_" <= x.id {
      if x in a {
        var h :| h in heads && h + "_" <= x.id;
        assert h in heads + [head];
      } else {
        assert head in heads + [head];
      }
    }
  }

  lemma NothingHeaded()
    ensures Headed([], [])
  {
  }

  function Joined(segments: seq<seq<Component>>): seq<Component> {
    if segments == [] then [] else Joined(segments[..|segments| - 1]) + segments[|segments| - 1]
  }

  /** Segments with heads of their own have distinct ids as a whole exactly when each one has. */
  lemma {:induction false} JoinedDistinctIff(heads: seq<string>, segments: seq<seq<Component>>)
    requires |heads| == |segments|
    requires forall i :: 0 <= i < |heads| ==> '_' !in heads[i] && AllHeaded(heads[i], segments[i])
    requires forall i, j :: 0 <= i < j < |heads| ==> heads[i] != heads[j]
    ensures DistinctIds(Joined(segments)) <==> forall i :: 0 <= i < |segments| ==> DistinctIds(segments[i])
    ensures Headed(Joined(segments), heads)
  {
    hide AllHeaded, DistinctIds, Headed;
    if segments == [] {
      NothingDistinct();
      NothingHeaded();
      assert heads == [];
    } else {
      var n := |segments| - 1;
      JoinedDistinctIff(heads[..n], segments[..n]);
      AddSegment(Joined(segments[..n]), heads[..n], segments[n], heads[n]);
      assert heads[..n] + [heads[n]] == heads;
    }
  }

  lemma JoinedSix(a: seq<Component>, b: seq<Component>, c: seq<Component>, d: seq<Component>, e: seq<Component>, f: seq<Component>)
    ensures Joined([a, b, c, d, e, f]) == a + b + c + d + e + f
  {
    JoinedSnoc([a, b, c, d, e], f);
    assert [a, b, c, d, e] + [f] == [a, b, c, d, e, f];
    JoinedSnoc([a, b, c, d], e);
    assert [a, b, c, d] + [e] == [a, b, c, d, e];
    JoinedSnoc([a, b, c], d);
    assert [a, b, c] + [d] == [a, b, c, d];
    JoinedSnoc([a, b], c);
    assert [a, b] + [c] == [a, b, c];
    JoinedSnoc([a], b);
    assert [a] + [b] == [a, b];
    JoinedSnoc([], a);
    assert [] + [a] == [a] && [] + a == a;
  }

  lemma JoinedSnoc(init: seq<seq<Component>>, last: seq<Component>)
    ensures Joined(init + [last]) == Joined(init) + last
  {
    assert (init + [last])[..|init|] == init;
  }

  const HEADS := ["internal", "input", "pipeline", "output", "add", "prometheus"]

  lemma HeadsDiffer()
    ensures forall i :: 0 <= i < 6 ==> '_' !in HEADS[i]
    ensures forall i, j :: 0 <= i < j < 6 ==> HEADS[i] != HEADS[j]
  {
    assert HEADS[0][2] == 't' && HEADS[1][2] == 'p' && HEADS[2][2] == 'p' && HEADS[3][2] == 't' && HEADS[4][2] == 'd' && HEADS[5][2] == 'o';
    assert HEADS[0][0] == 'i' && HEADS[1][0] == 'i' && HEADS[2][0] == 'p' && HEADS[3][0] == 'o' && HEADS[4][0] == 'a' && HEADS[5][0] == 'p';
  }

  lemma MetricsHeads()
    ensures AllHeaded(HEADS[0], [MetricsSource()]) && AllHeaded(HEADS[4], [MetricsOutput()[0]]) && AllHeaded(HEADS[5], [MetricsOutput()[1]])
    ensures DistinctIds([MetricsSource()]) && DistinctIds([MetricsOutput()[0]]) && DistinctIds([MetricsOutput()[1]])
  {
    assert INTERNAL_METRICS == "internal" + "_" + "metrics";
    assert ADD_NODENAME == "add" + "_" + "nodename_to_metric";
    assert PROMETHEUS_OUTPUT == "prometheus" + "_" + "output";
    OneHeaded("internal", "metrics", MetricsSource());
    OneHeaded("add", "nodename_to_metric", MetricsOutput()[0]);
    OneHeaded("prometheus", "output", MetricsOutput()[1]);
  }

  lemma OneHeaded(head: string, rest: string, c: Component)
    requires c.id == head + "_" + rest
    ensures AllHeaded(head, [c]) && DistinctIds([c])
  {
  }

  ghost predicate NoInputsClash(inputs: map<string, InputSpec>) {
    forall m, n :: m in inputs && n in inputs && m != n ==> !InputsClash(inputs[m], inputs[n])
  }

  ghost predicate NoPipelinesClash(spec: ForwarderSpec, indexes: map<string, nat>)
    requires forall n :: n in indexes ==> indexes[n] < |spec.pipelines|
  {
    forall m, n :: m in indexes && n in indexes && m != n ==> !PipelinesClash(spec, indexes[m], indexes[n])
  }

  ghost predicate NoOutputsClash(outputs: map<string, OutputSpec>) {
    forall m, n :: m in outputs && n in outputs && m != n ==> !OutputsClash(outputs[m], outputs[n])
  }

  /** No two inputs, no two pipelines and no two outputs clash. */
  ghost predicate NoClash(spec: ForwarderSpec) {
    PipelineIndexesInRange(spec.pipelines);
    && NoInputsClash(InputMap(spec.inputs))
    && NoPipelinesClash(spec, PipelineIndexes(spec.pipelines))
    && NoOutputsClash(OutputMap(spec.outputs))
  }

  lemma InputsDistinctIff(specs: map<string, InputSpec>)
    ensures DistinctIds(Flatten(InputTable(specs))) <==> NoInputsClash(specs)
    ensures AllHeaded("input", Flatten(InputTable(specs)))
  {
    hide DistinctIds, AllHeaded, InputChains, ChainsComponents, Flatten, InputsClash, Disjoint;
    forall n | n in specs ensures DistinctIds(InputTable(specs)[n]) && AllHeaded("input", InputTable(specs)[n]) {
      InputBlock(specs[n]);
    }
    forall m, n | m in specs && n in specs
      ensures !Disjoint(InputTable(specs)[m], InputTable(specs)[n]) <==> InputsClash(specs[m], specs[n])
    {
      InputIdsCollideIff(specs[m], specs[n]);
    }
    TableDistinctIff(InputTable(specs), "input");
  }

  lemma PipelinesDistinctIff(spec: ForwarderSpec, indexes: map<string, nat>)
    requires AllResolve(spec) && forall n :: n in indexes ==> indexes[n] < |spec.pipelines|
    ensures DistinctIds(Flatten(PipelineTable(spec, indexes))) <==> NoPipelinesClash(spec, indexes)
    ensures AllHeaded("pipeline", Flatten(PipelineTable(spec, indexes)))
  {
    hide DistinctIds, AllHeaded, StageComponents, Flatten, PipelinesClash, Disjoint, PipelineResolves;
    var table := PipelineTable(spec, indexes);
    forall n | n in indexes ensures DistinctIds(table[n]) && AllHeaded("pipeline", table[n]) {
      assert spec.pipelines[indexes[n]] in spec.pipelines;
      StageBlock(spec, indexes[n]);
    }
    forall m, n | m in indexes && n in indexes
      ensures !Disjoint(table[m], table[n]) <==> PipelinesClash(spec, indexes[m], indexes[n])
    {
      PipelineIdsCollideIff(spec, indexes[m], indexes[n]);
    }
    TableDistinctIff(table, "pipeline");
  }

  lemma OutputsDistinctIff(spec: ForwarderSpec, specs: map<string, OutputSpec>)
    requires AllResolve(spec)
    ensures DistinctIds(Flatten(OutputTable(spec, specs))) <==> NoOutputsClash(specs)
    ensures AllHeaded("output", Flatten(OutputTable(spec, specs)))
  {
    hide DistinctIds, AllHeaded, OutputComponents, OutputInputs, Flatten, OutputsClash, Disjoint, PipelineResolves;
    var table := OutputTable(spec, specs);
    forall n | n in specs ensures DistinctIds(table[n]) && AllHeaded("output", table[n]) {
      OutputBlock(specs[n], OutputInputs(spec, n, |spec.pipelines|));
    }
    forall m, n | m in specs && n in specs ensures !Disjoint(table[m], table[n]) <==> OutputsClash(specs[m], specs[n]) {
      OutputIdsCollideIff(specs[m], specs[n], OutputInputs(spec, m, |spec.pipelines|), OutputInputs(spec, n, |spec.pipelines|));
    }
    TableDistinctIff(table, "output");
  }

  /** All generated components have distinct ids exactly when no two names of the spec clash. */
  lemma IdsDistinctIff(spec: ForwarderSpec)
    requires AllResolve(spec)
    ensures DistinctIds(AllComponents(spec)) <==> NoClash(spec)
  {
    hide DistinctIds, AllHeaded, Flatten, InputTable, PipelineTable, OutputTable, NoInputsClash, NoPipelinesClash, NoOutputsClash, Joined;
    PipelineIndexesInRange(spec.pipelines);
    var indexes := PipelineIndexes(spec.pipelines);
    var inputs, outputs := InputMap(spec.inputs), OutputMap(spec.outputs);
    InputsDistinctIff(inputs);
    PipelinesDistinctIff(spec, indexes);
    OutputsDistinctIff(spec, outputs);
    MetricsHeads();
    HeadsDiffer();
    var segments := [[MetricsSource()], Flatten(InputTable(inputs)), Flatten(PipelineTable(spec, indexes)),
                     Flatten(OutputTable(spec, outputs)), [MetricsOutput()[0]], [MetricsOutput()[1]]];
    JoinedDistinctIff(HEADS, segments);
    JoinedSix(segments[0], segments[1], segments[2], segments[3], segments[4], segments[5]);
    assert AllComponents(spec) == segments[0] + segments[1] + segments[2] + segments[3] + segments[4] + segments[5];
  }
}
