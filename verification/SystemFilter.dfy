/** What the system filter of a pipeline knows about the sources in front of it, told by traces of the configuration. */
module SystemFilter {
  import opened Wrappers
  import opened Api
  import opened Components
  import opened Routes
  import opened Distinctness
  import opened Traces
  import opened Conditions
  import opened Checks
  import opened Permissions
  import opened GateProofs
  import opened Provenance

  // -------- records on their way to the pipelines

  /** The trace starts with the whole chain of some input of the pipeline it goes through. */
  ghost predicate Splits(spec: ForwarderSpec, trace: seq<Label>, i: InputSpec, c: Chain, p: PipelineSpec, o: OutputSpec)
    requires AllResolve(spec)
  {
    && i in spec.inputs && p in spec.pipelines && i.name in p.inputRefs && c in InputChains(i)
    && trace == c.labels + FilterWorks(spec, p) + DeliveryWorks(o)
  }

  lemma TraceSplits(spec: ForwarderSpec, trace: seq<Label>) returns (i: InputSpec, c: Chain, k: nat, o: string)
    requires AllResolve(spec) && Asks(spec, trace) && trace != METRICS_TRACE
    ensures Denotes(spec, i.name, c, k, o) && InputMap(spec.inputs)[i.name] == i && trace == SpecTrace(spec, i.name, c, k, o)
    ensures Splits(spec, trace, i, c, spec.pipelines[k], OutputMap(spec.outputs)[o])
  {
    hide InputChains, InputMap, OutputMap, FilterWorks, DeliveryWorks;
    InputMapKeys(spec.inputs);
    var n, chain, m: nat, out :| Denotes(spec, n, chain, m, out) && trace == SpecTrace(spec, n, chain, m, out);
    i, c, k, o := InputMap(spec.inputs)[n], chain, m, out;
  }

  lemma WorksAre(spec: ForwarderSpec, p: PipelineSpec)
    requires PipelineResolves(spec, p)
    ensures forall l :: l in FilterWorks(spec, p) ==> l.User? || (l.System? && l.facts == FactsOf(InputSpecsOf(spec.inputs, p.inputRefs)))
    ensures exists l :: l in FilterWorks(spec, p) && l.System?
  {
    var order := SystemOrder(p.filterRefs, FilterMap(spec.filters));
    SystemOrderMembers(p.filterRefs, FilterMap(spec.filters));
    hide SystemOrder, FilterMap, FactsOf, InputSpecsOf;
    assert VIAQ in order;
    var k :| 0 <= k < |order| && order[k] == VIAQ;
    assert FilterWorks(spec, p)[k] in FilterWorks(spec, p);
  }

  /** The system filter knows of the source. */
  predicate Knows(facts: Facts, source: SourceKind) {
    match source
    case KubernetesLogs(_) => facts.container
    case Journald => facts.journal
    case FileSource(paths) =>
      && (AUDITD_LOG in paths ==> facts.auditd)
      && (KUBE_API_LOG in paths ==> facts.kube)
      && (OAUTH_API_LOG in paths || OPENSHIFT_API_LOG in paths || OAUTH_SERVER_LOG in paths ==> facts.openshift)
      && (OVN_LOG in paths ==> facts.ovn)
    case HttpServer(_) => facts.receiver
    case SyslogServer(_) => facts.receiver
    case InternalMetrics => true
  }

  lemma InputKnown(i: InputSpec, c: Chain, inputs: set<InputSpec>)
    requires i in inputs && HasOwnSection(i) && c in InputChains(i) && c.Valid()
    ensures Knows(FactsOf(inputs), c.labels[0].source)
  {
    ChainFollowed(i, c);
    LogsDiffer();
    hide InputChains;
    if c.labels[0].source.FileSource? {
      var a := AuditOwner(i, c);
      FileOwner(a);
      hide AuditPaths;
      assert HasAudit(i, a);
    } else {
      assert c.labels[0].source.KubernetesLogs? ==> HasContainer(i);
      assert c.labels[0].source.Journald? ==> HasJournal(i);
      assert c.labels[0].source.HttpServer? || c.labels[0].source.SyslogServer? ==> HasReceiver(i);
    }
  }

  lemma VerdictSection(i: InputSpec, world: World)
    requires InputVerdict(i, world).status == True
    ensures HasOwnSection(i)
  {
    hide GlobMessages, JoinWith, SourceNames, KindOf;
  }

  lemma ThirdLabel(labels: seq<Label>, i: InputSpec)
    requires FollowedBy(labels, i) && labels[0].source.KubernetesLogs?
    ensures labels[2..] == [] || exists n :: labels[2..] == [InputThrottle(n)]
  {
    if i.application.Some? && i.application.value.tuning.Some? && i.application.value.tuning.value.limit.Some? {
      assert ApplicationLimit(i, i.application.value.tuning.value.limit.value);
    } else if !Unlimited(i) {
      assert InfrastructureLimit(i, i.infrastructure.value.tuning.value.container.value.limit.value);
    }
  }

  lemma NoSystem(labels: seq<Label>, i: InputSpec)
    requires FollowedBy(labels, i)
    ensures labels[0].Source? && forall k :: 0 <= k < |labels| ==> !labels[k].System?
  {
    if labels[0].source.KubernetesLogs? {
      ThirdLabel(labels, i);
    }
    forall k | 0 < k < |labels| ensures !labels[k].System? {
      if labels[0].source.KubernetesLogs? && k >= 2 {
        assert labels[k] == labels[2..][k - 2];
      } else {
        assert labels[k] == labels[1..][k - 1];
      }
    }
  }

  lemma PartsKnow(labels: seq<Label>, works: seq<Label>, delivery: seq<Label>, facts: Facts)
    requires labels != [] && (forall k :: 0 <= k < |labels| ==> !labels[k].System?) && forall l :: l in delivery ==> !l.System?
    requires (forall l :: l in works ==> l.User? || (l.System? && l.facts == facts)) && exists l :: l in works && l.System?
    ensures var trace := labels + works + delivery;
            && (exists k :: 0 <= k < |trace| && trace[k].System?)
            && forall k :: 0 <= k < |trace| && trace[k].System? ==> |labels| <= k < |labels| + |works| && trace[k].facts == facts
  {
    var trace := labels + works + delivery;
    var l :| l in works && l.System?;
    var m :| 0 <= m < |works| && works[m] == l;
    assert trace[|labels| + m] == l;
    assert forall j :: 0 <= j < |labels| ==> trace[j] == labels[j];
    assert forall j :: |labels| + |works| <= j < |trace| ==> trace[j] == delivery[j - |labels| - |works|] && trace[j] in delivery;
    forall j | 0 <= j < |trace| && trace[j].System? ensures |labels| <= j < |labels| + |works| && trace[j].facts == facts {
      if |labels| <= j < |labels| + |works| {
        assert trace[j] == works[j - |labels|] && works[j - |labels|] in works;
      }
    }
  }

  /** The label of every system filter on a trace holds the facts of the inputs of the pipeline it goes through. */
  lemma SystemOnTrace(spec: ForwarderSpec, trace: seq<Label>, i: InputSpec, c: Chain, p: PipelineSpec, o: OutputSpec)
    requires AllResolve(spec) && Splits(spec, trace, i, c, p, o)
    ensures trace != [] && c.labels != [] && trace[0] == c.labels[0] && trace[0].Source?
    ensures exists k :: 0 <= k < |trace| && trace[k].System?
    ensures forall k :: 0 <= k < |trace| && trace[k].System? ==>
              |c.labels| <= k && trace[k].facts == FactsOf(InputSpecsOf(spec.inputs, p.inputRefs))
  {
    ChainFollowed(i, c);
    NoSystem(c.labels, i);
    WorksAre(spec, p);
    hide InputChains, FilterWorks, FollowedBy, FactsOf, InputSpecsOf;
    PartsKnow(c.labels, FilterWorks(spec, p), DeliveryWorks(o), FactsOf(InputSpecsOf(spec.inputs, p.inputRefs)));
  }

  lemma PassingSections(spec: ForwarderSpec, world: World)
    requires SpecPasses(spec, world)
    ensures forall i :: i in spec.inputs ==> HasOwnSection(i)
  {
    hide Permitted, InputVerdict, OutputVerdict, FilterVerdict, PipelinePasses, HasOwnSection;
    forall i | i in spec.inputs ensures HasOwnSection(i) {
      VerdictSection(i, world);
    }
  }

  /** Behind the gate, every record meets a system filter, and any that it meets knows of the source it comes from. */
  lemma SystemKnowsSource(spec: ForwarderSpec, world: World, config: Config, trace: seq<Label>)
    requires SpecPasses(spec, world) && UniquePipelines(spec) && NoClash(spec) && Compile(spec) == Ok(config)
    requires IsTrace(config, trace) && trace != METRICS_TRACE
    ensures trace != [] && trace[0].Source?
    ensures exists k :: 0 <= k < |trace| && trace[k].System?
    ensures forall k :: 0 <= k < |trace| && trace[k].System? ==> Knows(trace[k].facts, trace[0].source)
  {
    RoutingOfNames(spec, config, trace);
    PassingSections(spec, world);
    hide NoClash, IsTrace, UniquePipelines, Asks, AllComponents, Assemble, FactsOf, Knows, InputsPanic, SpecPasses, Splits, HasOwnSection, Denotes;
    var i, c, k, o := TraceSplits(spec, trace);
    var p := spec.pipelines[k];
    KnownThrough(spec, trace, i, c, p, OutputMap(spec.outputs)[o]);
  }

  lemma KnownThrough(spec: ForwarderSpec, trace: seq<Label>, i: InputSpec, c: Chain, p: PipelineSpec, o: OutputSpec)
    requires AllResolve(spec) && Splits(spec, trace, i, c, p, o) && forall i :: i in spec.inputs ==> HasOwnSection(i)
    ensures trace != [] && trace[0].Source?
    ensures exists k :: 0 <= k < |trace| && trace[k].System?
    ensures forall k :: 0 <= k < |trace| && trace[k].System? ==> Knows(trace[k].facts, trace[0].source)
  {
    SystemOnTrace(spec, trace, i, c, p, o);
    ChainFollowed(i, c);
    hide InputChains, FilterWorks, FollowedBy, HasOwnSection, FactsOf, Knows;
    InputKnown(i, c, InputSpecsOf(spec.inputs, p.inputRefs));
  }

  /** The other trace goes through the same filters, with the system filter among them, to the same output. */
  ghost predicate Alongside(config: Config, trace: seq<Label>, other: seq<Label>) {
    && IsTrace(config, other) && other != [] && other[0].Source?
    && exists p, q :: 0 < p <= |trace| && 0 < q <= |other| && trace[p..] == other[q..] && exists l :: l in trace[p..] && l.System?
  }

  /** The generated configuration of the spec has this trace, from a chain of input `n` through pipeline `k` to output `o`. */
  ghost predicate Passes(spec: ForwarderSpec, config: Config, trace: seq<Label>, n: string, c: Chain, k: nat, o: string) {
    && UniqueNames(spec.inputs) && UniquePipelines(spec) && NoClash(spec) && Compile(spec) == Ok(config)
    && Denotes(spec, n, c, k, o) && trace == SpecTrace(spec, n, c, k, o) && c.Valid()
  }

  lemma PassesIsTrace(spec: ForwarderSpec, config: Config, trace: seq<Label>, n: string, c: Chain, k: nat, o: string)
    requires Passes(spec, config, trace, n, c, k, o)
    ensures IsTrace(config, trace)
  {
    hide InputChains, InputMap, OutputMap, SpecTrace, UniqueNames, UniquePipelines, NoClash, IsTrace, AllComponents, Assemble, InputsPanic, Denotes;
    RoutingOfNames(spec, config, trace);
  }

  /** Another chain of an input of the same pipeline passes as well. */
  lemma PassesToo(spec: ForwarderSpec, config: Config, trace: seq<Label>, n: string, c: Chain, k: nat, o: string, j: InputSpec, d: Chain)
    returns (other: seq<Label>)
    requires Passes(spec, config, trace, n, c, k, o)
    requires j in spec.inputs && j.name in spec.pipelines[k].inputRefs && d in InputChains(j) && d.Valid()
    ensures Passes(spec, config, other, j.name, d, k, o)
  {
    InputMapOfUnique(spec.inputs);
    hide InputChains, InputMap, OutputMap, SpecTrace, UniqueNames, UniquePipelines, NoClash, Compile;
    assert j.name in InputMap(spec.inputs) && InputMap(spec.inputs)[j.name] == j;
    other := SpecTrace(spec, j.name, d, k, o);
  }

  lemma CommonTail(a: seq<Label>, b: seq<Label>, works: seq<Label>, delivery: seq<Label>)
    ensures (a + works + delivery)[|a|..] == works + delivery == (b + works + delivery)[|b|..]
  {
  }

  lemma PassesShape(spec: ForwarderSpec, config: Config, trace: seq<Label>, n: string, c: Chain, k: nat, o: string)
    requires Passes(spec, config, trace, n, c, k, o)
    ensures spec.pipelines[k] in spec.pipelines && c.labels != [] && c.labels[0].Source? && PipelineResolves(spec, spec.pipelines[k])
    ensures trace == c.labels + FilterWorks(spec, spec.pipelines[k]) + DeliveryWorks(OutputMap(spec.outputs)[o])
  {
    assert spec.pipelines[k] in spec.pipelines;
    hide UniqueNames, UniquePipelines, NoClash, AllComponents, Assemble, InputsPanic, FilterWorks, DeliveryWorks, OutputMap, InputMap, InputChains;
  }

  lemma OtherChain(spec: ForwarderSpec, config: Config, trace: seq<Label>, n: string, c: Chain, k: nat, o: string, j: InputSpec, d: Chain)
    returns (other: seq<Label>)
    requires Passes(spec, config, trace, n, c, k, o)
    requires j in spec.inputs && j.name in spec.pipelines[k].inputRefs && d in InputChains(j) && d.Valid()
    ensures Alongside(config, trace, other) && other[0] == d.labels[0]
  {
    other := PassesToo(spec, config, trace, n, c, k, o, j, d);
    hide *;
    PassesIsTrace(spec, config, other, j.name, d, k, o);
    PassesShape(spec, config, trace, n, c, k, o);
    PassesShape(spec, config, other, j.name, d, k, o);
    var works, delivery := FilterWorks(spec, spec.pipelines[k]), DeliveryWorks(OutputMap(spec.outputs)[o]);
    WorksAre(spec, spec.pipelines[k]);
    AlongsideBy(config, trace, other, c.labels, d.labels, works, delivery);
  }

  lemma AlongsideBy(config: Config, trace: seq<Label>, other: seq<Label>, a: seq<Label>, b: seq<Label>, works: seq<Label>, delivery: seq<Label>)
    requires IsTrace(config, other) && a != [] && b != [] && b[0].Source? && exists l :: l in works && l.System?
    requires trace == a + works + delivery && other == b + works + delivery
    ensures Alongside(config, trace, other) && other[0] == b[0]
  {
    hide IsTrace;
    CommonTail(a, b, works, delivery);
    var l :| l in works && l.System?;
    assert l in trace[|a|..];
  }

  /** What a source may be looked for to give. */
  datatype Want = ContainerRecords | NodeRecords | Records(path: string) | Received | KubeAuditReceived(input: InputSpec)

  predicate Gives(s: SourceKind, w: Want) {
    match w
    case ContainerRecords => s.KubernetesLogs?
    case NodeRecords => s == Journald
    case Records(path) => s.FileSource? && path in s.paths
    case Received => s.HttpServer? || s.SyslogServer?
    case KubeAuditReceived(i) =>
      && i.kind == Receiver && i.receiver.Some? && i.receiver.value.format == Some("kubeAPIAudit")
      && (s == HttpServer(i.receiver.value.port) || s == SyslogServer(i.receiver.value.port))
  }

  /** Some trace alongside starts at a source that gives it. */
  ghost predicate Beside(config: Config, trace: seq<Label>, w: Want) {
    exists other: seq<Label> :: Alongside(config, trace, other) && Gives(other[0].source, w)
  }

  /**
   A flag is set only for a source that some input of the same pipeline has. The one for kubernetes audit logs may also
   stand for a receiver of that format.
   */
  lemma FactsFromSources(spec: ForwarderSpec, config: Config, trace: seq<Label>, k: nat)
    requires UniqueNames(spec.inputs) && UniquePipelines(spec) && NoClash(spec) && Compile(spec) == Ok(config)
    requires IsTrace(config, trace) && k < |trace| && trace[k].System?
    ensures var facts := trace[k].facts;
            && (facts.container ==> Beside(config, trace, ContainerRecords))
            && (facts.journal ==> Beside(config, trace, NodeRecords))
            && (facts.receiver ==> Beside(config, trace, Received))
            && (facts.auditd ==> Beside(config, trace, Records(AUDITD_LOG)))
            && (facts.openshift ==> Beside(config, trace, Records(OPENSHIFT_API_LOG)))
            && (facts.ovn ==> Beside(config, trace, Records(OVN_LOG)))
            && (facts.kube ==> Beside(config, trace, Records(KUBE_API_LOG))
                               || exists i :: i in spec.inputs && Beside(config, trace, KubeAuditReceived(i)))
  {
    RoutingOfNames(spec, config, trace);
    hide NoClash, IsTrace, UniquePipelines, UniqueNames, Asks, AllComponents, Assemble, InputsPanic, Splits, Denotes, FactsOf, Beside, SpecTrace;
    assert trace != METRICS_TRACE;
    var i, c, n, o := TraceSplits(spec, trace);
    ChainOfSplit(spec, trace, i, c, spec.pipelines[n], OutputMap(spec.outputs)[o]);
    SystemOnTrace(spec, trace, i, c, spec.pipelines[n], OutputMap(spec.outputs)[o]);
    FlagsFrom(spec, config, trace, i.name, c, n, o, trace[k].facts);
  }

  lemma ChainOfSplit(spec: ForwarderSpec, trace: seq<Label>, i: InputSpec, c: Chain, p: PipelineSpec, o: OutputSpec)
    requires AllResolve(spec) && Splits(spec, trace, i, c, p, o)
    ensures c.Valid()
  {
    ChainFollowed(i, c);
  }

  ghost predicate HasSource(i: InputSpec, kind: SourceKind) {
    exists d :: d in InputChains(i) && d.labels[0] == Source(kind)
  }

  lemma FlaggedSource(i: InputSpec)
    ensures HasContainer(i) ==> HasSource(i, KubernetesLogs(SelectorOf(i)))
    ensures HasJournal(i) ==> HasSource(i, Journald)
    ensures HasReceiver(i) ==> HasSource(i, Server(i.receiver.value.kind, i.receiver.value.port))
    ensures forall a :: HasAudit(i, a) && i.kind == Audit ==> HasSource(i, FileSource(AuditPaths(a)))
  {
    ChainAsked(i);
    hide InputChains, AuditPaths;
    if HasReceiver(i) {
      ServerAsked(i, i.receiver.value.kind, i.receiver.value.port);
    }
    forall a | HasAudit(i, a) && i.kind == Audit ensures HasSource(i, FileSource(AuditPaths(a))) {
      assert AsksAudit(i, a);
    }
  }

  lemma FlagsFrom(spec: ForwarderSpec, config: Config, trace: seq<Label>, n: string, c: Chain, k: nat, o: string, facts: Facts)
    requires Passes(spec, config, trace, n, c, k, o)
    requires facts == FactsOf(InputSpecsOf(spec.inputs, spec.pipelines[k].inputRefs))
    ensures facts.container ==> Beside(config, trace, ContainerRecords)
    ensures facts.journal ==> Beside(config, trace, NodeRecords)
    ensures facts.receiver ==> Beside(config, trace, Received)
    ensures facts.auditd ==> Beside(config, trace, Records(AUDITD_LOG))
    ensures facts.openshift ==> Beside(config, trace, Records(OPENSHIFT_API_LOG))
    ensures facts.ovn ==> Beside(config, trace, Records(OVN_LOG))
    ensures facts.kube ==> Beside(config, trace, Records(KUBE_API_LOG))
                           || exists i :: i in spec.inputs && Beside(config, trace, KubeAuditReceived(i))
  {
    var inputs := InputSpecsOf(spec.inputs, spec.pipelines[k].inputRefs);
    assert forall j :: j in inputs ==> j in spec.inputs && j.name in spec.pipelines[k].inputRefs;
    hide Passes, Beside, InputSpecsOf, FactsOf;
    SourceFlags(spec, config, trace, n, c, k, o, inputs, facts);
    AuditFlags(spec, config, trace, n, c, k, o, inputs, facts);
  }

  lemma SourceFlags(spec: ForwarderSpec, config: Config, trace: seq<Label>, n: string, c: Chain, k: nat, o: string,
                    inputs: set<InputSpec>, facts: Facts)
    requires Passes(spec, config, trace, n, c, k, o)
    requires forall j :: j in inputs ==> j in spec.inputs && j.name in spec.pipelines[k].inputRefs
    requires facts == FactsOf(inputs)
    ensures facts.container ==> Beside(config, trace, ContainerRecords)
    ensures facts.journal ==> Beside(config, trace, NodeRecords)
    ensures facts.receiver ==> Beside(config, trace, Received)
  {
    hide Passes, Beside, AuditPaths, HasContainer, HasJournal, HasReceiver, HasAudit, HasSource, SelectorOf;
    if facts.container {
      var j :| j in inputs && HasContainer(j);
      FlaggedSource(j);
      FromSource(spec, config, trace, n, c, k, o, j, KubernetesLogs(SelectorOf(j)), ContainerRecords);
    }
    if facts.journal {
      var j :| j in inputs && HasJournal(j);
      FlaggedSource(j);
      FromSource(spec, config, trace, n, c, k, o, j, Journald, NodeRecords);
    }
    if facts.receiver {
      var j :| j in inputs && HasReceiver(j);
      ReceiverFlag(spec, config, trace, n, c, k, o, j);
    }
  }

  lemma ReceiverFlag(spec: ForwarderSpec, config: Config, trace: seq<Label>, n: string, c: Chain, k: nat, o: string, j: InputSpec)
    requires Passes(spec, config, trace, n, c, k, o) && j in spec.inputs && j.name in spec.pipelines[k].inputRefs && HasReceiver(j)
    ensures Beside(config, trace, Received)
    ensures j.receiver.value.format == Some("kubeAPIAudit") ==> Beside(config, trace, KubeAuditReceived(j))
  {
    FlaggedSource(j);
    hide Passes, Beside, HasSource, SelectorOf, AuditPaths;
    var kind := Server(j.receiver.value.kind, j.receiver.value.port);
    FromSource(spec, config, trace, n, c, k, o, j, kind, Received);
    if j.receiver.value.format == Some("kubeAPIAudit") {
      FromSource(spec, config, trace, n, c, k, o, j, kind, KubeAuditReceived(j));
    }
  }

  lemma AuditFlags(spec: ForwarderSpec, config: Config, trace: seq<Label>, n: string, c: Chain, k: nat, o: string,
                   inputs: set<InputSpec>, facts: Facts)
    requires Passes(spec, config, trace, n, c, k, o)
    requires forall j :: j in inputs ==> j in spec.inputs && j.name in spec.pipelines[k].inputRefs
    requires facts == FactsOf(inputs)
    ensures facts.auditd ==> Beside(config, trace, Records(AUDITD_LOG))
    ensures facts.openshift ==> Beside(config, trace, Records(OPENSHIFT_API_LOG))
    ensures facts.ovn ==> Beside(config, trace, Records(OVN_LOG))
    ensures facts.kube ==> Beside(config, trace, Records(KUBE_API_LOG))
                           || exists i :: i in spec.inputs && Beside(config, trace, KubeAuditReceived(i))
  {
    hide Passes, Beside, AuditPaths, HasContainer, HasJournal, HasReceiver, HasAudit;
    if facts.auditd {
      var j :| j in inputs && HasAudit(j, Auditd);
      AuditFlag(spec, config, trace, n, c, k, o, j, Auditd, AUDITD_LOG);
    }
    if facts.openshift {
      var j :| j in inputs && HasAudit(j, OpenShiftAPI);
      AuditFlag(spec, config, trace, n, c, k, o, j, OpenShiftAPI, OPENSHIFT_API_LOG);
    }
    if facts.ovn {
      var j :| j in inputs && HasAudit(j, OVN);
      AuditFlag(spec, config, trace, n, c, k, o, j, OVN, OVN_LOG);
    }
    if facts.kube {
      var j :| j in inputs && HasAudit(j, KubeAPI);
      AuditFlag(spec, config, trace, n, c, k, o, j, KubeAPI, KUBE_API_LOG);
    }
  }

  predicate FileOf(a: AuditSource, path: string) {
    || (a == Auditd && path == AUDITD_LOG) || (a == KubeAPI && path == KUBE_API_LOG)
    || (a == OpenShiftAPI && path == OPENSHIFT_API_LOG) || (a == OVN && path == OVN_LOG)
  }

  lemma AuditFlag(spec: ForwarderSpec, config: Config, trace: seq<Label>, n: string, c: Chain, k: nat, o: string,
                  j: InputSpec, a: AuditSource, path: string)
    requires Passes(spec, config, trace, n, c, k, o) && j in spec.inputs && j.name in spec.pipelines[k].inputRefs
    requires HasAudit(j, a) && FileOf(a, path)
    ensures Beside(config, trace, Records(path)) || (a == KubeAPI && Beside(config, trace, KubeAuditReceived(j)))
  {
    FileOwner(a);
    FlaggedSource(j);
    hide Passes, Beside, AuditPaths, HasSource, SelectorOf;
    if j.kind == Audit {
      FromSource(spec, config, trace, n, c, k, o, j, FileSource(AuditPaths(a)), Records(path));
    } else {
      ReceiverFlag(spec, config, trace, n, c, k, o, j);
    }
  }

  /** An input of the pipeline with a source of this kind gives a trace alongside. */
  lemma FromSource(spec: ForwarderSpec, config: Config, trace: seq<Label>, n: string, c: Chain, k: nat, o: string,
                   j: InputSpec, kind: SourceKind, w: Want)
    requires Passes(spec, config, trace, n, c, k, o)
    requires j in spec.inputs && j.name in spec.pipelines[k].inputRefs && HasSource(j, kind) && Gives(kind, w)
    ensures Beside(config, trace, w)
  {
    var d :| d in InputChains(j) && d.labels[0] == Source(kind);
    ChainFollowed(j, d);
    hide InputChains, Passes, Alongside, FollowedBy, Gives;
    var other := OtherChain(spec, config, trace, n, c, k, o, j, d);
  }
}
