/** Where records come from: which sources a generated configuration has and what each of them is followed by. */
module Provenance {
  import opened Wrappers
  import opened Ids
  import opened Api
  import opened Components
  import opened Graph
  import opened Routes
  import opened Distinctness

  // -------- the chains of an input, spelled out

  const AUDITD_LOG := "/var/log/audit/audit.log"
  const KUBE_API_LOG := "/var/log/kube-apiserver/audit.log"
  const OAUTH_API_LOG := "/var/log/oauth-apiserver/audit.log"
  const OPENSHIFT_API_LOG := "/var/log/openshift-apiserver/audit.log"
  const OAUTH_SERVER_LOG := "/var/log/oauth-server/audit.log"
  const OVN_LOG := "/var/log/ovn/acl-audit-log.log"

  lemma LogsDiffer()
    ensures AUDITD_LOG !in {KUBE_API_LOG, OAUTH_API_LOG, OPENSHIFT_API_LOG, OAUTH_SERVER_LOG, OVN_LOG}
    ensures KUBE_API_LOG !in {OAUTH_API_LOG, OPENSHIFT_API_LOG, OAUTH_SERVER_LOG, OVN_LOG}
    ensures OVN_LOG !in {OAUTH_API_LOG, OPENSHIFT_API_LOG, OAUTH_SERVER_LOG}
  {
    assert AUDITD_LOG[9] == 'a' && KUBE_API_LOG[9] == 'k';
    assert OAUTH_API_LOG[9] == OPENSHIFT_API_LOG[9] == OAUTH_SERVER_LOG[9] == OVN_LOG[9] == 'o';
    assert OAUTH_API_LOG[10] == OAUTH_SERVER_LOG[10] == 'a' && OPENSHIFT_API_LOG[10] == 'p' && OVN_LOG[10] == 'v';
  }

  lemma FilesOf(a: AuditSource)
    ensures a == Auditd ==> AuditPaths(a) == [AUDITD_LOG]
    ensures a == KubeAPI ==> AuditPaths(a) == [KUBE_API_LOG]
    ensures a == OpenShiftAPI ==> AuditPaths(a) == [OAUTH_API_LOG, OPENSHIFT_API_LOG, OAUTH_SERVER_LOG]
    ensures a == OVN ==> AuditPaths(a) == [OVN_LOG]
  {
  }

  /** The files of different audit sources are different. */
  lemma FileOwner(a: AuditSource)
    ensures AUDITD_LOG in AuditPaths(a) <==> a == Auditd
    ensures KUBE_API_LOG in AuditPaths(a) <==> a == KubeAPI
    ensures OAUTH_API_LOG in AuditPaths(a) <==> a == OpenShiftAPI
    ensures OPENSHIFT_API_LOG in AuditPaths(a) <==> a == OpenShiftAPI
    ensures OAUTH_SERVER_LOG in AuditPaths(a) <==> a == OpenShiftAPI
    ensures OVN_LOG in AuditPaths(a) <==> a == OVN
  {
    FilesOf(a);
    LogsDiffer();
    hide AuditPaths;
    match a
    case Auditd =>
    case KubeAPI =>
    case OpenShiftAPI =>
    case OVN =>
  }

  /** The input has container logs; an infrastructure input without a section or with an empty list has all sources. */
  predicate AsksContainers(i: InputSpec) {
    || i.kind == Application
    || (i.kind == Infrastructure && (i.infrastructure.None? || i.infrastructure.value.sources == [] || ContainerLogs in i.infrastructure.value.sources))
  }

  predicate AsksNodes(i: InputSpec) {
    i.kind == Infrastructure && (i.infrastructure.None? || i.infrastructure.value.sources == [] || NodeLogs in i.infrastructure.value.sources)
  }

  predicate AsksAudit(i: InputSpec, a: AuditSource) {
    i.kind == Audit && (i.audit.None? || i.audit.value.sources == [] || a in i.audit.value.sources)
  }

  predicate Listens(i: InputSpec, kind: ReceiverType, port: int) {
    i.kind == Receiver && i.receiver.Some? && i.receiver.value.kind == kind && i.receiver.value.port == port
  }

  predicate ApplicationLimit(i: InputSpec, n: int) {
    i.application.Some? && i.application.value.tuning.Some? && i.application.value.tuning.value.limit == Some(n)
  }

  predicate InfrastructureLimit(i: InputSpec, n: int) {
    && i.infrastructure.Some? && i.infrastructure.value.tuning.Some? && i.infrastructure.value.tuning.value.container.Some?
    && i.infrastructure.value.tuning.value.container.value.limit == Some(n)
  }

  predicate Unlimited(i: InputSpec) {
    && (i.application.Some? && i.application.value.tuning.Some? ==> i.application.value.tuning.value.limit.None?)
    && (i.infrastructure.Some? && i.infrastructure.value.tuning.Some? && i.infrastructure.value.tuning.value.container.Some?
        ==> i.infrastructure.value.tuning.value.container.value.limit.None?)
  }

  /** What follows a source up to the pipelines. */
  ghost predicate FollowedBy(labels: seq<Label>, i: InputSpec) {
    && labels != [] && labels[0].Source?
    && match labels[0].source
       case KubernetesLogs(_) =>
         && AsksContainers(i) && |labels| >= 2 && labels[1] == Normalize("container")
         && (forall n :: ApplicationLimit(i, n) ==> labels[2..] == [InputThrottle(n)])
         && (forall n :: InfrastructureLimit(i, n) && !(exists m :: ApplicationLimit(i, m)) ==> labels[2..] == [InputThrottle(n)])
         && (Unlimited(i) ==> labels[2..] == [])
       case Journald => AsksNodes(i) && labels[1..] == [Normalize("node")]
       case FileSource(paths) =>
         || (paths == [AUDITD_LOG] && AsksAudit(i, Auditd) && labels[1..] == [Normalize("auditd")])
         || (paths == [KUBE_API_LOG] && AsksAudit(i, KubeAPI) && labels[1..] == [Normalize("kubeAPI")])
         || (paths == [OAUTH_API_LOG, OPENSHIFT_API_LOG, OAUTH_SERVER_LOG] && AsksAudit(i, OpenShiftAPI) && labels[1..] == [Normalize("openshiftAPI")])
         || (paths == [OVN_LOG] && AsksAudit(i, OVN) && labels[1..] == [Normalize("ovn")])
       case HttpServer(port) => Listens(i, HTTP, port) && labels[1..] == [Items, Normalize("kubeAPI")]
       case SyslogServer(port) => Listens(i, Syslog, port) && labels[1..] == [Normalize("syslog")]
       case InternalMetrics => false
  }

  lemma LimitSpelled(i: InputSpec)
    ensures forall n :: ApplicationLimit(i, n) ==> MaxRecordsPerSecond(i) == Ok(Some(n))
    ensures forall n :: InfrastructureLimit(i, n) && !(exists m :: ApplicationLimit(i, m)) ==> MaxRecordsPerSecond(i) == Ok(Some(n))
    ensures Unlimited(i) ==> MaxRecordsPerSecond(i) == Ok(None) || MaxRecordsPerSecond(i).Panic?
  {
    if i.application.Some? && i.application.value.tuning.Some? && i.application.value.tuning.value.limit.Some? {
      assert ApplicationLimit(i, i.application.value.tuning.value.limit.value);
    }
  }

  lemma ContainerFollowed(i: InputSpec)
    requires AsksContainers(i)
    ensures FollowedBy(ContainerChain(i, SelectorOf(i)).labels, i)
  {
    LimitSpelled(i);
    var c := ContainerChain(i, SelectorOf(i));
    hide MakeInputId, MakeId, SelectorOf, MaxRecordsPerSecond, ApplicationLimit, InfrastructureLimit, Unlimited;
    var limit := MaxRecordsPerSecond(i);
    if limit.Ok? && limit.value.Some? {
      assert c.labels[2..] == [InputThrottle(limit.value.value)];
    } else {
      assert c.labels[2..] == [];
    }
  }

  lemma AuditFollowed(i: InputSpec, a: AuditSource)
    requires AsksAudit(i, a)
    ensures FollowedBy(AuditChain(i, a).labels, i)
  {
    FilesOf(a);
    hide MakeInputId, MakeId, AuditPaths;
    var labels := AuditChain(i, a).labels;
    assert labels[1..] == [labels[1]];
  }

  lemma ReceiverFollowed(i: InputSpec)
    requires HasReceiver(i)
    ensures FollowedBy(ReceiverChain(i, i.receiver.value).labels, i)
  {
    hide MakeInputId, MakeId;
    var labels := ReceiverChain(i, i.receiver.value).labels;
    assert labels[1..] == if i.receiver.value.kind == HTTP then [labels[1], labels[2]] else [labels[1]];
  }

  /** Every source of an input is one the input asks for, and is followed by what belongs to it. */
  lemma ChainFollowed(i: InputSpec, c: Chain)
    requires c in InputChains(i)
    ensures c.Valid() && FollowedBy(c.labels, i)
  {
    hide FollowedBy, ContainerChain, AuditChain, ReceiverChain, JournalChain, SelectorOf;
    match i.kind {
      case Application => ContainerFollowed(i);
      case Infrastructure =>
        if c == ContainerChain(i, SelectorOf(i)) && ContainerLogs in InfrastructureSources(i) {
          ContainerFollowed(i);
        } else {
          JournalFollowed(i);
        }
      case Audit =>
        var a :| a in AuditSources(i) && c == AuditChain(i, a);
        AuditFollowed(i, a);
      case Receiver => ReceiverFollowed(i);
    }
  }

  lemma JournalFollowed(i: InputSpec)
    requires AsksNodes(i)
    ensures FollowedBy(JournalChain(i).labels, i)
  {
    hide MakeInputId, MakeId;
    var labels := JournalChain(i).labels;
    assert labels[1..] == [labels[1]];
  }

  /** And every source an input asks for is there. */
  lemma ChainAsked(i: InputSpec)
    ensures AsksContainers(i) ==> exists c :: c in InputChains(i) && c.labels[0] == Source(KubernetesLogs(SelectorOf(i)))
    ensures AsksNodes(i) ==> exists c :: c in InputChains(i) && c.labels[0] == Source(Journald)
    ensures forall a :: AsksAudit(i, a) ==> exists c :: c in InputChains(i) && c.labels[0] == Source(FileSource(AuditPaths(a)))
    ensures forall port :: Listens(i, HTTP, port) ==> exists c :: c in InputChains(i) && c.labels[0] == Source(HttpServer(port))
    ensures forall port :: Listens(i, Syslog, port) ==> exists c :: c in InputChains(i) && c.labels[0] == Source(SyslogServer(port))
  {
    hide MakeInputId, MakeId, SelectorOf, AuditPaths;
    match i.kind {
      case Application => assert ContainerChain(i, SelectorOf(i)) in InputChains(i);
      case Infrastructure =>
        if AsksContainers(i) { assert ContainerChain(i, SelectorOf(i)) in InputChains(i); }
        if AsksNodes(i) { assert JournalChain(i) in InputChains(i); }
      case Audit =>
        forall a | AsksAudit(i, a) ensures exists c :: c in InputChains(i) && c.labels[0] == Source(FileSource(AuditPaths(a))) {
          AuditAsked(i, a);
        }
      case Receiver =>
        if HasReceiver(i) { assert ReceiverChain(i, i.receiver.value) in InputChains(i); }
    }
  }

  lemma AuditAsked(i: InputSpec, a: AuditSource)
    requires AsksAudit(i, a)
    ensures AuditChain(i, a) in InputChains(i) && AuditChain(i, a).labels[0] == Source(FileSource(AuditPaths(a)))
  {
    hide MakeInputId, MakeId, AuditPaths;
    assert AuditChain(i, a) in [AuditChain(i, a)];
    match a
    case Auditd =>
    case KubeAPI =>
    case OpenShiftAPI =>
    case OVN =>
  }

  // -------- the sources of the configuration

  /** The configuration runs a source of this kind. */
  ghost predicate Runs(config: Config, kind: SourceKind) {
    exists id :: id in config.sources && config.sources[id].work == Source(kind)
  }

  ghost predicate ReadsFile(config: Config, path: string) {
    exists paths :: path in paths && Runs(config, FileSource(paths))
  }

  lemma RunsIff(spec: ForwarderSpec, config: Config, kind: SourceKind)
    requires Compile(spec) == Ok(config) && UniqueNames(spec.inputs) && UniquePipelines(spec) && NoClash(spec) && kind != InternalMetrics
    ensures Runs(config, kind) <==> exists i, c :: i in spec.inputs && c in InputChains(i) && c.Valid() && c.labels[0] == Source(kind)
  {
    var cs := AllComponents(spec);
    IdsDistinctIff(spec);
    hide AllComponents, Assemble, InputsPanic, AllResolve, NoClash, UniqueNames, UniquePipelines, InputChains, DistinctIds;
    if Runs(config, kind) {
      var id :| id in config.sources && config.sources[id].work == Source(kind);
      var x := Component(SourceNode, id, config.sources[id]);
      AssembleExact(cs, x);
      var i, c := SourceOwner(spec, x);
    }
    if i, c :| i in spec.inputs && c in InputChains(i) && c.Valid() && c.labels[0] == Source(kind) {
      ChainHeadIn(spec, i, c);
      var x := ChainComponents(c)[0];
      AssembleExact(cs, x);
      assert x.id in config.sources && config.sources[x.id] == x.node;
    }
  }

  lemma ChainHeadIn(spec: ForwarderSpec, i: InputSpec, c: Chain)
    requires AllResolve(spec) && UniquePipelines(spec) && UniqueNames(spec.inputs) && i in spec.inputs && c in InputChains(i) && c.Valid()
    ensures i.name in InputMap(spec.inputs) && InputMap(spec.inputs)[i.name] == i
    ensures forall x :: x in ChainComponents(c) ==> x in AllComponents(spec)
    ensures ChainComponents(c)[0].kind == SourceNode && ChainComponents(c)[0].node.work == c.labels[0] && ChainComponents(c)[0].id == c.ids[0]
  {
    InputMapOfUnique(spec.inputs);
    hide AllComponents, InputChains, InputMap, UniqueNames, UniquePipelines;
    assert i.name in InputMap(spec.inputs) && InputMap(spec.inputs)[i.name] == i;
    forall x | x in ChainComponents(c) ensures x in AllComponents(spec) {
      assert OfInput(spec, x);
      ComponentMember(spec, x);
    }
  }

  lemma SourceOwner(spec: ForwarderSpec, x: Component) returns (i: InputSpec, c: Chain)
    requires AllResolve(spec) && UniquePipelines(spec) && x in AllComponents(spec) && x.kind == SourceNode && x.node.work != Source(InternalMetrics)
    ensures i in spec.inputs && c in InputChains(i) && c.Valid() && c.labels[0] == x.node.work
  {
    ComponentMember(spec, x);
    InputMapKeys(spec.inputs);
    hide AllComponents, StageComponents, OutputComponents, InputMap, InputChains;
    if OfOutput(spec, x) {
      var o :| o in OutputMap(spec.outputs) && x in OutputParts(spec, o);
      OutputKinds(spec, o);
      OutputsNoSource(OutputMap(spec.outputs)[o], OutputInputs(spec, o, |spec.pipelines|), x);
    }
    var n, d :| n in InputMap(spec.inputs) && d in InputChains(InputMap(spec.inputs)[n]) && x in ChainComponents(d);
    i, c := InputMap(spec.inputs)[n], d;
    var j :| 0 <= j < |c.ids| && x == ChainComponent(c, j);
  }

  lemma OutputsNoSource(o: OutputSpec, inputs: seq<string>, x: Component)
    requires x in OutputComponents(o, inputs)
    ensures x.kind != SourceNode
  {
    hide MakeOutputId, MakeId;
  }

  /** Node logs are read exactly when some input asks for them. */
  lemma JournalExact(spec: ForwarderSpec, config: Config)
    requires Compile(spec) == Ok(config) && UniqueNames(spec.inputs) && UniquePipelines(spec) && NoClash(spec)
    ensures Runs(config, Journald) <==> exists i :: i in spec.inputs && AsksNodes(i)
  {
    RunsIff(spec, config, Journald);
    hide Compile, UniqueNames, UniquePipelines, NoClash, Runs, InputChains, AsksNodes;
    if i, c :| i in spec.inputs && c in InputChains(i) && c.Valid() && c.labels[0] == Source(Journald) {
      ChainFollowed(i, c);
    }
    if i :| i in spec.inputs && AsksNodes(i) {
      ChainAsked(i);
      var c :| c in InputChains(i) && c.labels[0] == Source(Journald);
    }
  }

  function Server(kind: ReceiverType, port: int): SourceKind {
    if kind == HTTP then HttpServer(port) else SyslogServer(port)
  }

  lemma ServerFollows(i: InputSpec, c: Chain, kind: ReceiverType, port: int)
    requires c in InputChains(i) && c.Valid() && c.labels[0] == Source(Server(kind, port))
    ensures Listens(i, kind, port)
  {
    ChainFollowed(i, c);
    hide InputChains, Listens;
  }

  lemma ServerAsked(i: InputSpec, kind: ReceiverType, port: int)
    requires Listens(i, kind, port)
    ensures exists c :: c in InputChains(i) && c.labels[0] == Source(Server(kind, port))
  {
    ChainAsked(i);
    hide InputChains, Listens;
  }

  /** A receiver of a kind and port runs exactly when some input asks for it. */
  lemma ReceiverExact(spec: ForwarderSpec, config: Config, kind: ReceiverType, port: int)
    requires Compile(spec) == Ok(config) && UniqueNames(spec.inputs) && UniquePipelines(spec) && NoClash(spec)
    ensures Runs(config, if kind == HTTP then HttpServer(port) else SyslogServer(port)) <==> exists i :: i in spec.inputs && Listens(i, kind, port)
  {
    RunsIff(spec, config, Server(kind, port));
    hide Compile, UniqueNames, UniquePipelines, NoClash, Runs, InputChains, Listens;
    if i, c :| i in spec.inputs && c in InputChains(i) && c.Valid() && c.labels[0] == Source(Server(kind, port)) {
      ServerFollows(i, c, kind, port);
    }
    if i :| i in spec.inputs && Listens(i, kind, port) {
      ServerAsked(i, kind, port);
    }
  }

  ghost predicate SomeAsksAudit(spec: ForwarderSpec, a: AuditSource) {
    exists i :: i in spec.inputs && AsksAudit(i, a)
  }

  lemma AuditFileIff(spec: ForwarderSpec, config: Config, a: AuditSource, path: string)
    requires Compile(spec) == Ok(config) && UniqueNames(spec.inputs) && UniquePipelines(spec) && NoClash(spec)
    requires forall b :: path in AuditPaths(b) <==> b == a
    ensures ReadsFile(config, path) <==> SomeAsksAudit(spec, a)
  {
    hide Compile, UniqueNames, UniquePipelines, NoClash, Runs, InputChains, AuditPaths;
    if ReadsFile(config, path) {
      var paths :| path in paths && Runs(config, FileSource(paths));
      RunsIff(spec, config, FileSource(paths));
      var i, c :| i in spec.inputs && c in InputChains(i) && c.Valid() && c.labels[0] == Source(FileSource(paths));
      var b := AuditOwner(i, c);
    }
    if i :| i in spec.inputs && AsksAudit(i, a) {
      ChainAsked(i);
      hide AsksAudit;
      var c :| c in InputChains(i) && c.labels[0] == Source(FileSource(AuditPaths(a)));
      ChainFollowed(i, c);
      RunsIff(spec, config, FileSource(AuditPaths(a)));
    }
  }

  lemma AuditOwner(i: InputSpec, c: Chain) returns (a: AuditSource)
    requires c in InputChains(i) && c.Valid() && c.labels[0].source.FileSource?
    ensures AsksAudit(i, a) && c.labels[0] == Source(FileSource(AuditPaths(a)))
  {
    ChainFollowed(i, c);
    FilesOf(Auditd);
    FilesOf(KubeAPI);
    FilesOf(OpenShiftAPI);
    FilesOf(OVN);
    hide InputChains, AuditPaths, AsksAudit;
    a := if AsksAudit(i, Auditd) && c.labels[0] == Source(FileSource(AuditPaths(Auditd))) then Auditd
         else if AsksAudit(i, KubeAPI) && c.labels[0] == Source(FileSource(AuditPaths(KubeAPI))) then KubeAPI
         else if AsksAudit(i, OVN) && c.labels[0] == Source(FileSource(AuditPaths(OVN))) then OVN
         else OpenShiftAPI;
  }

  /** Each audit log is read exactly when some input asks for its source. */
  lemma AuditExact(spec: ForwarderSpec, config: Config)
    requires Compile(spec) == Ok(config) && UniqueNames(spec.inputs) && UniquePipelines(spec) && NoClash(spec)
    ensures ReadsFile(config, AUDITD_LOG) <==> SomeAsksAudit(spec, Auditd)
    ensures ReadsFile(config, KUBE_API_LOG) <==> SomeAsksAudit(spec, KubeAPI)
    ensures ReadsFile(config, OAUTH_API_LOG) <==> SomeAsksAudit(spec, OpenShiftAPI)
    ensures ReadsFile(config, OPENSHIFT_API_LOG) <==> SomeAsksAudit(spec, OpenShiftAPI)
    ensures ReadsFile(config, OAUTH_SERVER_LOG) <==> SomeAsksAudit(spec, OpenShiftAPI)
    ensures ReadsFile(config, OVN_LOG) <==> SomeAsksAudit(spec, OVN)
  {
    hide Compile, UniqueNames, UniquePipelines, NoClash, ReadsFile, SomeAsksAudit, AuditPaths;
    forall b: AuditSource
      ensures (AUDITD_LOG in AuditPaths(b) <==> b == Auditd) && (KUBE_API_LOG in AuditPaths(b) <==> b == KubeAPI)
      ensures (OAUTH_API_LOG in AuditPaths(b) <==> b == OpenShiftAPI) && (OPENSHIFT_API_LOG in AuditPaths(b) <==> b == OpenShiftAPI)
      ensures (OAUTH_SERVER_LOG in AuditPaths(b) <==> b == OpenShiftAPI) && (OVN_LOG in AuditPaths(b) <==> b == OVN)
    {
      FileOwner(b);
    }
    AuditFileIff(spec, config, Auditd, AUDITD_LOG);
    AuditFileIff(spec, config, KubeAPI, KUBE_API_LOG);
    AuditFileIff(spec, config, OpenShiftAPI, OAUTH_API_LOG);
    AuditFileIff(spec, config, OpenShiftAPI, OPENSHIFT_API_LOG);
    AuditFileIff(spec, config, OpenShiftAPI, OAUTH_SERVER_LOG);
    AuditFileIff(spec, config, OVN, OVN_LOG);
  }
}
