/** The volumes and mounts of the collector pod against what the generated sources read from the host. */
module PodMounts {
  import opened Wrappers
  import opened Api
  import opened Components
  import opened Conditions
  import opened Checks
  import opened Ids
  import Workload

  datatype HostDirectory = PodLogs | JournalLogs | AuditdLogs | KubeApiLogs | OpenshiftApiLogs | OauthServerLogs | OauthApiLogs | OvnLogs

  function NameOf(h: HostDirectory): string {
    match h
    case PodLogs => "varlogpods"
    case JournalLogs => "varlogjournal"
    case AuditdLogs => "varlogaudit"
    case KubeApiLogs => "varlogkubeapiserver"
    case OpenshiftApiLogs => "varlogopenshiftapiserver"
    case OauthServerLogs => "varlogoauthserver"
    case OauthApiLogs => "varlogoauthapiserver"
    case OvnLogs => "varlogovn"
  }

  function PathOf(h: HostDirectory): string {
    match h
    case PodLogs => "/var/log/pods"
    case JournalLogs => "/var/log/journal"
    case AuditdLogs => "/var/log/audit"
    case KubeApiLogs => "/var/log/kube-apiserver"
    case OpenshiftApiLogs => "/var/log/openshift-apiserver"
    case OauthServerLogs => "/var/log/oauth-server"
    case OauthApiLogs => "/var/log/oauth-apiserver"
    case OvnLogs => "/var/log/ovn"
  }

  datatype VolumeSource = HostPath(path: string) | Secret(secret: string) | ConfigMap(configMap: string) | Memory | Token

  datatype Volume = Volume(name: string, source: VolumeSource)

  datatype Mount = Mount(name: string, path: string)

  /** What the pod depends on besides the inputs. */
  datatype Factory = Factory(
    daemonset: bool, secrets: seq<string>, configMaps: seq<string>, needsToken: bool, trustedCA: Option<string>,
    metricsSecret: string, config: string, dataPath: string)

  // -------- the expected volumes and mounts

  function When(present: bool, hs: seq<HostDirectory>): seq<HostDirectory> {
    if present then hs else []
  }

  /** The host directories the inputs need, in the order in which they are added. */
  function HostDirectories(inputs: seq<InputSpec>): seq<HostDirectory> {
    When(HasContainerSource(inputs), [PodLogs])
    + When(HasJournalSource(inputs), [JournalLogs])
    + When(HasAuditSource(inputs, Auditd), [AuditdLogs])
    + When(HasAuditSource(inputs, KubeAPI), [KubeApiLogs])
    + When(HasAuditSource(inputs, OpenShiftAPI), [OpenshiftApiLogs, OauthServerLogs, OauthApiLogs])
    + When(HasAuditSource(inputs, OVN), [OvnLogs])
  }

  function HostVolumes(hs: seq<HostDirectory>): (r: seq<Volume>)
    ensures |r| == |hs| && forall k :: 0 <= k < |r| ==> r[k] == Volume(NameOf(hs[k]), HostPath(PathOf(hs[k])))
  {
    seq(|hs|, k requires 0 <= k < |hs| => Volume(NameOf(hs[k]), HostPath(PathOf(hs[k]))))
  }

  function HostMounts(hs: seq<HostDirectory>): (r: seq<Mount>)
    ensures |r| == |hs| && forall k :: 0 <= k < |r| ==> r[k] == Mount(NameOf(hs[k]), PathOf(hs[k]))
  {
    seq(|hs|, k requires 0 <= k < |hs| => Mount(NameOf(hs[k]), PathOf(hs[k])))
  }

  /** Volume names may not hold dots. */
  function Sanitize(s: string): string {
    if s == "" then "" else (if s[0] == '.' then "" else [s[0]]) + Sanitize(s[1..])
  }

  function ConfigVolume(name: string): string {
    "config-" + name
  }

  function SecretVolumes(names: seq<string>): (r: seq<Volume>)
    ensures |r| == |names| && forall k :: 0 <= k < |r| ==> r[k] == Volume(Sanitize(names[k]), Secret(names[k]))
  {
    seq(|names|, k requires 0 <= k < |names| => Volume(Sanitize(names[k]), Secret(names[k])))
  }

  function ConfigMapVolumes(names: seq<string>): (r: seq<Volume>)
    ensures |r| == |names| && forall k :: 0 <= k < |r| ==> r[k] == Volume(Sanitize(ConfigVolume(names[k])), ConfigMap(names[k]))
  {
    seq(|names|, k requires 0 <= k < |names| => Volume(Sanitize(ConfigVolume(names[k])), ConfigMap(names[k])))
  }

  function SecretMounts(names: seq<string>): (r: seq<Mount>)
    ensures |r| == |names| && forall k :: 0 <= k < |r| ==> r[k] == Mount(Sanitize(names[k]), "/var/run/ocp-collector/secrets/" + names[k])
  {
    seq(|names|, k requires 0 <= k < |names| => Mount(Sanitize(names[k]), "/var/run/ocp-collector/secrets/" + names[k]))
  }

  function ConfigMapMounts(names: seq<string>): (r: seq<Mount>)
    ensures |r| == |names| && forall k :: 0 <= k < |r| ==> r[k] == Mount(Sanitize(ConfigVolume(names[k])), "/var/run/ocp-collector/config/" + names[k])
  {
    seq(|names|, k requires 0 <= k < |names| => Mount(Sanitize(ConfigVolume(names[k])), "/var/run/ocp-collector/config/" + names[k]))
  }

  const SA_TOKEN := "sa-token"
  const TRUSTED_CA := "trusted-ca"

  class PodSpec {
    var volumes: seq<Volume>

    constructor (volumes: seq<Volume>)
      ensures this.volumes == volumes
    {
      this.volumes := volumes;
    }

    method Add(more: seq<Volume>)
      modifies this
      ensures volumes == old(volumes) + more
    {
      volumes := volumes + more;
    }
  }

  class Container {
    var mounts: seq<Mount>

    constructor (mounts: seq<Mount>)
      ensures this.mounts == mounts
    {
      this.mounts := mounts;
    }

    method Add(more: seq<Mount>)
      modifies this
      ensures mounts == old(mounts) + more
    {
      mounts := mounts + more;
    }
  }

  function BaseVolumes(f: Factory): seq<Volume> {
    [Volume("metrics", Secret(f.metricsSecret)), Volume("tmp", Memory)]
  }

  function BaseMounts(): seq<Mount> {
    [Mount("metrics", "/etc/collector/metrics"), Mount("tmp", "/tmp")]
  }

  function CaVolumes(f: Factory): seq<Volume> {
    if f.trustedCA.Some? then [Volume(TRUSTED_CA, ConfigMap(f.trustedCA.value))] else []
  }

  function CaMounts(f: Factory): seq<Mount> {
    if f.trustedCA.Some? then [Mount(TRUSTED_CA, "/etc/pki/ca-trust/extracted/pem/")] else []
  }

  function TokenVolumes(f: Factory): seq<Volume> {
    if f.needsToken then [Volume(SA_TOKEN, Token)] else []
  }

  function TokenMounts(f: Factory): seq<Mount> {
    if f.needsToken then [Mount(SA_TOKEN, "/var/run/ocp-collector/serviceaccount")] else []
  }

  function VectorVolumes(f: Factory): seq<Volume> {
    [Volume("config", ConfigMap(f.config)), Volume("datadir", HostPath(f.dataPath)), Volume("entrypoint", ConfigMap(f.config))]
  }

  function VectorMounts(f: Factory): seq<Mount> {
    [Mount("config", "/etc/vector"), Mount("datadir", f.dataPath), Mount("entrypoint", "/usr/bin/run-vector.sh")]
  }

  function Directories(f: Factory, inputs: seq<InputSpec>): seq<HostDirectory> {
    if f.daemonset then HostDirectories(inputs) else []
  }

  function Volumes(f: Factory, inputs: seq<InputSpec>): seq<Volume> {
    BaseVolumes(f) + HostVolumes(Directories(f, inputs)) + SecretVolumes(f.secrets) + ConfigMapVolumes(f.configMaps)
    + TokenVolumes(f) + CaVolumes(f) + VectorVolumes(f)
  }

  function ContainerMounts(f: Factory, inputs: seq<InputSpec>): seq<Mount> {
    BaseMounts() + HostMounts(Directories(f, inputs)) + SecretMounts(f.secrets) + ConfigMapMounts(f.configMaps) + TokenMounts(f)
  }

  function Mounts(f: Factory, inputs: seq<InputSpec>): seq<Mount> {
    ContainerMounts(f, inputs) + CaMounts(f) + VectorMounts(f)
  }

  // -------- building the pod

  method AddVolumesWhen(podSpec: PodSpec, present: bool, hs: seq<HostDirectory>)
    modifies podSpec
    ensures podSpec.volumes == old(podSpec.volumes) + HostVolumes(When(present, hs))
  {
    if present {
      podSpec.Add(HostVolumes(hs));
    }
  }

  lemma HostVolumesConcat(before: seq<Volume>, a: seq<HostDirectory>, b: seq<HostDirectory>)
    ensures before + HostVolumes(a) + HostVolumes(b) == before + HostVolumes(a + b)
  {
  }

  lemma SixVolumes(v: seq<Volume>, a: seq<HostDirectory>, b: seq<HostDirectory>, c: seq<HostDirectory>, d: seq<HostDirectory>,
                  e: seq<HostDirectory>, f: seq<HostDirectory>)
    ensures v + HostVolumes(a) + HostVolumes(b) + HostVolumes(c) + HostVolumes(d) + HostVolumes(e) + HostVolumes(f) ==
            v + HostVolumes(a + b + c + d + e + f)
  {
    hide HostVolumes;
    HostVolumesConcat(v, a, b);
    HostVolumesConcat(v, a + b, c);
    HostVolumesConcat(v, a + b + c, d);
    HostVolumesConcat(v, a + b + c + d, e);
    HostVolumesConcat(v, a + b + c + d + e, f);
  }

  method AddMountsWhen(collector: Container, present: bool, hs: seq<HostDirectory>)
    modifies collector
    ensures collector.mounts == old(collector.mounts) + HostMounts(When(present, hs))
  {
    if present {
      collector.Add(HostMounts(hs));
    }
  }

  lemma HostMountsConcat(before: seq<Mount>, a: seq<HostDirectory>, b: seq<HostDirectory>)
    ensures before + HostMounts(a) + HostMounts(b) == before + HostMounts(a + b)
  {
  }

  lemma SixMounts(v: seq<Mount>, a: seq<HostDirectory>, b: seq<HostDirectory>, c: seq<HostDirectory>, d: seq<HostDirectory>,
                  e: seq<HostDirectory>, f: seq<HostDirectory>)
    ensures v + HostMounts(a) + HostMounts(b) + HostMounts(c) + HostMounts(d) + HostMounts(e) + HostMounts(f) ==
            v + HostMounts(a + b + c + d + e + f)
  {
    hide HostMounts;
    HostMountsConcat(v, a, b);
    HostMountsConcat(v, a + b, c);
    HostMountsConcat(v, a + b + c, d);
    HostMountsConcat(v, a + b + c + d, e);
    HostMountsConcat(v, a + b + c + d + e, f);
  }

  method AddHostVolumes(podSpec: PodSpec, inputs: seq<InputSpec>)
    modifies podSpec
    ensures podSpec.volumes == old(podSpec.volumes) + HostVolumes(HostDirectories(inputs))
  {
    hide HasContainerSource, HasJournalSource, HasAuditSource, HostVolumes, When;
    ghost var before := podSpec.volumes;
    AddVolumesWhen(podSpec, HasContainerSource(inputs), [PodLogs]);
    AddVolumesWhen(podSpec, HasJournalSource(inputs), [JournalLogs]);
    AddVolumesWhen(podSpec, HasAuditSource(inputs, Auditd), [AuditdLogs]);
    AddVolumesWhen(podSpec, HasAuditSource(inputs, KubeAPI), [KubeApiLogs]);
    AddVolumesWhen(podSpec, HasAuditSource(inputs, OpenShiftAPI), [OpenshiftApiLogs, OauthServerLogs, OauthApiLogs]);
    AddVolumesWhen(podSpec, HasAuditSource(inputs, OVN), [OvnLogs]);
    SixVolumes(before, When(HasContainerSource(inputs), [PodLogs]), When(HasJournalSource(inputs), [JournalLogs]),
             When(HasAuditSource(inputs, Auditd), [AuditdLogs]), When(HasAuditSource(inputs, KubeAPI), [KubeApiLogs]),
             When(HasAuditSource(inputs, OpenShiftAPI), [OpenshiftApiLogs, OauthServerLogs, OauthApiLogs]), When(HasAuditSource(inputs, OVN), [OvnLogs]));
  }

  method AddHostMounts(collector: Container, inputs: seq<InputSpec>)
    modifies collector
    ensures collector.mounts == old(collector.mounts) + HostMounts(HostDirectories(inputs))
  {
    hide HasContainerSource, HasJournalSource, HasAuditSource, HostMounts, When;
    ghost var before := collector.mounts;
    AddMountsWhen(collector, HasContainerSource(inputs), [PodLogs]);
    AddMountsWhen(collector, HasJournalSource(inputs), [JournalLogs]);
    AddMountsWhen(collector, HasAuditSource(inputs, Auditd), [AuditdLogs]);
    AddMountsWhen(collector, HasAuditSource(inputs, KubeAPI), [KubeApiLogs]);
    AddMountsWhen(collector, HasAuditSource(inputs, OpenShiftAPI), [OpenshiftApiLogs, OauthServerLogs, OauthApiLogs]);
    AddMountsWhen(collector, HasAuditSource(inputs, OVN), [OvnLogs]);
    SixMounts(before, When(HasContainerSource(inputs), [PodLogs]), When(HasJournalSource(inputs), [JournalLogs]),
             When(HasAuditSource(inputs, Auditd), [AuditdLogs]), When(HasAuditSource(inputs, KubeAPI), [KubeApiLogs]),
             When(HasAuditSource(inputs, OpenShiftAPI), [OpenshiftApiLogs, OauthServerLogs, OauthApiLogs]), When(HasAuditSource(inputs, OVN), [OvnLogs]));
  }

  lemma NoHostDirectories()
    ensures HostVolumes([]) == [] && HostMounts([]) == []
  {
  }

  method NewCollectorContainer(f: Factory, inputs: seq<InputSpec>) returns (collector: Container)
    ensures fresh(collector)
    ensures collector.mounts == ContainerMounts(f, inputs)
  {
    hide HostMounts, SecretMounts, ConfigMapMounts, HostDirectories;
    collector := new Container(BaseMounts());
    if f.daemonset {
      AddHostMounts(collector, inputs);
    }
    NoHostDirectories();
    collector.Add(SecretMounts(f.secrets));
    collector.Add(ConfigMapMounts(f.configMaps));
    if f.needsToken {
      collector.Add([Mount(SA_TOKEN, "/var/run/ocp-collector/serviceaccount")]);
    }
  }

  method AddTrustedCA(f: Factory, podSpec: PodSpec, collector: Container)
    modifies podSpec, collector
    ensures podSpec.volumes == old(podSpec.volumes) + CaVolumes(f) && collector.mounts == old(collector.mounts) + CaMounts(f)
  {
    if f.trustedCA.Some? {
      collector.Add([Mount(TRUSTED_CA, "/etc/pki/ca-trust/extracted/pem/")]);
      podSpec.Add([Volume(TRUSTED_CA, ConfigMap(f.trustedCA.value))]);
    }
  }

  method NewPodVolumes(f: Factory, inputs: seq<InputSpec>) returns (podSpec: PodSpec)
    ensures fresh(podSpec) && podSpec.volumes + CaVolumes(f) + VectorVolumes(f) == Volumes(f, inputs)
  {
    hide HostVolumes, SecretVolumes, ConfigMapVolumes, HostDirectories, BaseVolumes, CaVolumes, VectorVolumes;
    podSpec := new PodSpec(BaseVolumes(f));
    if f.daemonset {
      AddHostVolumes(podSpec, inputs);
    }
    NoHostDirectories();
    podSpec.Add(SecretVolumes(f.secrets));
    podSpec.Add(ConfigMapVolumes(f.configMaps));
    if f.needsToken {
      podSpec.Add([Volume(SA_TOKEN, Token)]);
    }
  }

  method NewPodSpec(f: Factory, inputs: seq<InputSpec>) returns (podSpec: PodSpec, collector: Container)
    ensures podSpec.volumes == Volumes(f, inputs) && collector.mounts == Mounts(f, inputs)
  {
    hide Volumes, ContainerMounts, CaVolumes, CaMounts;
    podSpec := NewPodVolumes(f, inputs);
    collector := NewCollectorContainer(f, inputs);
    AddTrustedCA(f, podSpec, collector);
    collector.Add(VectorMounts(f));
    podSpec.Add(VectorVolumes(f));
  }

  // -------- what the pod provides

  ghost predicate HasVolume(volumes: seq<Volume>, name: string) {
    exists v :: v in volumes && v.name == name
  }

  /** Every mount names a volume of the pod. */
  lemma EveryMountHasVolume(f: Factory, inputs: seq<InputSpec>, m: Mount)
    requires m in Mounts(f, inputs)
    ensures HasVolume(Volumes(f, inputs), m.name)
  {
    hide HostDirectories, Sanitize, ConfigVolume;
    var vs, hs := Volumes(f, inputs), Directories(f, inputs);
    if m in BaseMounts() {
      assert BaseVolumes(f)[0] in vs && BaseVolumes(f)[1] in vs;
    } else if m in HostMounts(hs) {
      var k :| 0 <= k < |hs| && HostMounts(hs)[k] == m;
      assert HostVolumes(hs)[k] in vs;
    } else if m in SecretMounts(f.secrets) {
      var k :| 0 <= k < |f.secrets| && SecretMounts(f.secrets)[k] == m;
      assert SecretVolumes(f.secrets)[k] in vs;
    } else if m in ConfigMapMounts(f.configMaps) {
      var k :| 0 <= k < |f.configMaps| && ConfigMapMounts(f.configMaps)[k] == m;
      assert ConfigMapVolumes(f.configMaps)[k] in vs;
    } else if m in VectorMounts(f) {
      var k :| 0 <= k < 3 && VectorMounts(f)[k] == m;
      assert VectorVolumes(f)[k] in vs && VectorVolumes(f)[k].name == m.name;
    } else if m in CaMounts(f) {
      assert CaVolumes(f)[0] in vs;
    } else {
      assert m in TokenMounts(f);
      assert TokenVolumes(f)[0] in vs;
    }
  }

  /** The host directory is a volume of the pod and mounted where the host has it. */
  ghost predicate Provides(volumes: seq<Volume>, mounts: seq<Mount>, h: HostDirectory) {
    Volume(NameOf(h), HostPath(PathOf(h))) in volumes && Mount(NameOf(h), PathOf(h)) in mounts
  }

  lemma DirectoryProvided(f: Factory, inputs: seq<InputSpec>, h: HostDirectory)
    requires h in Directories(f, inputs)
    ensures Provides(Volumes(f, inputs), Mounts(f, inputs), h)
  {
    hide NameOf, PathOf, HostDirectories;
    var hs := Directories(f, inputs);
    var k :| 0 <= k < |hs| && hs[k] == h;
    assert HostVolumes(hs)[k] in HostVolumes(hs) && HostMounts(hs)[k] in HostMounts(hs);
  }

  /** The host files a source reads. */
  predicate ReadsPath(s: SourceKind, path: string) {
    match s
    case KubernetesLogs(_) => Within(PodLogs, path)
    case Journald => Within(JournalLogs, path)
    case FileSource(paths) => path in paths
    case _ => false
  }

  predicate Within(h: HostDirectory, path: string) {
    PathOf(h) + "/" <= path
  }

  ghost predicate PathProvided(f: Factory, inputs: seq<InputSpec>, path: string) {
    exists h :: Within(h, path) && Provides(Volumes(f, inputs), Mounts(f, inputs), h)
  }

  /** The pod has what the sources of an input read from the host. */
  ghost predicate ProvidedFor(f: Factory, inputs: seq<InputSpec>, i: InputSpec) {
    forall c, path :: c in InputChains(i) && ReadsPath(c.labels[0].source, path) ==> PathProvided(f, inputs, path)
  }

  /** Which directories an audit source is given. */
  function AuditDirectories(a: AuditSource): seq<HostDirectory> {
    match a
    case Auditd => [AuditdLogs]
    case KubeAPI => [KubeApiLogs]
    case OpenShiftAPI => [OauthApiLogs, OpenshiftApiLogs, OauthServerLogs]
    case OVN => [OvnLogs]
  }

  lemma AuditPathsWithin(a: AuditSource)
    ensures |AuditPaths(a)| == |AuditDirectories(a)|
    ensures forall k :: 0 <= k < |AuditPaths(a)| ==> Within(AuditDirectories(a)[k], AuditPaths(a)[k])
  {
    match a
    case Auditd => assert Within(AuditdLogs, "/var/log/audit/audit.log");
    case KubeAPI => assert Within(KubeApiLogs, "/var/log/kube-apiserver/audit.log");
    case OpenShiftAPI =>
      assert Within(OauthApiLogs, "/var/log/oauth-apiserver/audit.log");
      assert Within(OpenshiftApiLogs, "/var/log/openshift-apiserver/audit.log");
      assert Within(OauthServerLogs, "/var/log/oauth-server/audit.log");
    case OVN => assert Within(OvnLogs, "/var/log/ovn/acl-audit-log.log");
  }

  lemma AuditDirectoriesGiven(inputs: seq<InputSpec>, a: AuditSource, h: HostDirectory)
    requires HasAuditSource(inputs, a) && h in AuditDirectories(a)
    ensures h in HostDirectories(inputs)
  {
    hide HasContainerSource, HasJournalSource, HasAuditSource;
  }

  lemma ChainProvided(f: Factory, inputs: seq<InputSpec>, h: HostDirectory, path: string)
    requires h in Directories(f, inputs) && Within(h, path)
    ensures PathProvided(f, inputs, path)
  {
    hide Within, Volumes, Mounts, Directories, Provides;
    DirectoryProvided(f, inputs, h);
  }

  lemma AuditProvided(f: Factory, inputs: seq<InputSpec>, a: AuditSource, path: string)
    requires f.daemonset && HasAuditSource(inputs, a) && path in AuditPaths(a)
    ensures PathProvided(f, inputs, path)
  {
    hide AuditPaths, Within, HostDirectories, AuditDirectories, HasAuditSource, PathProvided;
    AuditPathsWithin(a);
    var k :| 0 <= k < |AuditPaths(a)| && AuditPaths(a)[k] == path;
    AuditDirectoriesGiven(inputs, a, AuditDirectories(a)[k]);
    ChainProvided(f, inputs, AuditDirectories(a)[k], path);
  }

  /** An input section that validation requires and that a few helpers silently do without. */
  predicate HasSection(i: InputSpec) {
    (i.kind == Infrastructure ==> i.infrastructure.Some?) && (i.kind == Audit ==> i.audit.Some?)
  }

  lemma ValidHasSection(i: InputSpec, world: World)
    requires InputVerdict(i, world).status == True
    ensures HasSection(i)
  {
    hide GlobMessages, JoinWith, SourceNames, KindOf;
  }

  /** As a DaemonSet the pod provides all that the sources of an input with its section read. */
  lemma SectionProvided(f: Factory, inputs: seq<InputSpec>, i: InputSpec)
    requires f.daemonset && i in inputs && HasSection(i)
    ensures ProvidedFor(f, inputs, i)
  {
    hide PathProvided, Within, AuditPaths, HostDirectories, Volumes, Mounts;
    forall c, path | c in InputChains(i) && ReadsPath(c.labels[0].source, path) ensures PathProvided(f, inputs, path) {
      match i.kind {
        case Application =>
          assert HasContainer(i);
          ContainerGiven(inputs);
          ChainProvided(f, inputs, PodLogs, path);
        case Infrastructure => InfrastructureProvided(f, inputs, i, c, path);
        case Audit => AuditInputProvided(f, inputs, i, c, path);
        case Receiver => ReceiverReadsNothing(i, c, path);
      }
    }
  }

  lemma ContainerGiven(inputs: seq<InputSpec>)
    ensures HasContainerSource(inputs) ==> PodLogs in HostDirectories(inputs)
    ensures HasJournalSource(inputs) ==> JournalLogs in HostDirectories(inputs)
  {
    hide HasContainerSource, HasJournalSource, HasAuditSource;
  }

  lemma InfrastructureProvided(f: Factory, inputs: seq<InputSpec>, i: InputSpec, c: Chain, path: string)
    requires f.daemonset && i in inputs && HasSection(i) && i.kind == Infrastructure
    requires c in InputChains(i) && ReadsPath(c.labels[0].source, path)
    ensures PathProvided(f, inputs, path)
  {
    hide PathProvided, Within, HostDirectories, MakeInputId, MakeId;
    ContainerGiven(inputs);
    if c == ContainerChain(i, SelectorOf(i)) {
      assert HasContainer(i);
      ChainProvided(f, inputs, PodLogs, path);
    } else {
      assert HasJournal(i);
      ChainProvided(f, inputs, JournalLogs, path);
    }
  }

  lemma AuditInputProvided(f: Factory, inputs: seq<InputSpec>, i: InputSpec, c: Chain, path: string)
    requires f.daemonset && i in inputs && HasSection(i) && i.kind == Audit
    requires c in InputChains(i) && ReadsPath(c.labels[0].source, path)
    ensures PathProvided(f, inputs, path)
  {
    hide PathProvided, Within, HostDirectories, AuditPaths;
    var a := AuditChainSource(i, c);
    assert HasAudit(i, a);
    AuditProvided(f, inputs, a, path);
  }

  lemma AuditChainSource(i: InputSpec, c: Chain) returns (a: AuditSource)
    requires i.kind == Audit && c in InputChains(i)
    ensures a in AuditSources(i) && c.labels[0] == Source(FileSource(AuditPaths(a)))
  {
    hide AuditPaths, MakeInputId, MakeId, AuditSources;
    a :| a in AuditSources(i) && c == AuditChain(i, a);
    AuditLabel(i, a);
  }

  lemma AuditLabel(i: InputSpec, a: AuditSource)
    ensures AuditChain(i, a).labels[0] == Source(FileSource(AuditPaths(a)))
  {
    hide MakeInputId, MakeId;
    match a
    case Auditd =>
    case KubeAPI =>
    case OpenShiftAPI =>
    case OVN =>
  }

  lemma ReceiverReadsNothing(i: InputSpec, c: Chain, path: string)
    requires i.kind == Receiver && c in InputChains(i)
    ensures !ReadsPath(c.labels[0].source, path)
  {
    hide MakeInputId, MakeId;
  }

  /** For validated inputs on a DaemonSet, every host path that a generated source reads lies under a mounted volume. */
  lemma ValidatedProvided(f: Factory, spec: ForwarderSpec, world: World, i: InputSpec)
    requires f.daemonset && i in spec.inputs && InputVerdict(i, world).status == True
    ensures ProvidedFor(f, spec.inputs, i)
  {
    hide InputVerdict, ProvidedFor, HasSection;
    ValidHasSection(i, world);
    SectionProvided(f, spec.inputs, i);
  }

  /** As a Deployment the pod mounts no host logs, and none of its inputs reads any. */
  lemma DeploymentReadsNothing(annotated: bool, inputs: seq<InputSpec>, i: InputSpec, c: Chain, path: string)
    requires Workload.DeployAsDeployment(annotated, inputs) && i in inputs && c in InputChains(i)
    ensures !ReadsPath(c.labels[0].source, path)
  {
    hide InputChains;
    Workload.DeploymentExact(annotated, inputs);
    ReceiverReadsNothing(i, c, path);
  }

  /** Without its section, an input that validation would refuse still reads host logs, and alone it gets no mount for them. */
  lemma MissingSectionNotProvided(f: Factory, i: InputSpec) returns (c: Chain, path: string)
    requires f.daemonset && !HasSection(i)
    ensures c in InputChains(i) && ReadsPath(c.labels[0].source, path) && !PathProvided(f, [i], path)
  {
    c, path := SectionlessChain(i);
    hide InputChains, ReadsPath, HostDirectories, HasSection;
    NoDirectories(i);
    if PathProvided(f, [i], path) {
      var h :| Within(h, path) && Provides(Volumes(f, [i]), Mounts(f, [i]), h);
      hide Within;
      NotMounted(f, [i], h);
    }
  }

  lemma SectionlessChain(i: InputSpec) returns (c: Chain, path: string)
    requires !HasSection(i)
    ensures c in InputChains(i) && ReadsPath(c.labels[0].source, path)
  {
    hide MakeInputId, MakeId, SelectorOf, ContainerChain;
    if i.kind == Infrastructure {
      c, path := JournalChain(i), PathOf(JournalLogs) + "/";
      assert InfrastructureSources(i) == [NodeLogs, ContainerLogs];
    } else {
      c, path := AuditChain(i, OVN), "/var/log/ovn/acl-audit-log.log";
      assert AuditSources(i) == [KubeAPI, OpenShiftAPI, Auditd, OVN];
    }
  }

  lemma NoDirectories(i: InputSpec)
    requires !HasSection(i)
    ensures HostDirectories([i]) == []
  {
    assert forall a :: !HasAudit(i, a);
    assert !HasContainer(i) && !HasJournal(i);
  }

  lemma NotMounted(f: Factory, inputs: seq<InputSpec>, h: HostDirectory)
    requires Directories(f, inputs) == []
    ensures Volume(NameOf(h), HostPath(PathOf(h))) !in Volumes(f, inputs)
  {
    hide HostDirectories;
    assert NameOf(h)[0] == 'v' && "datadir"[0] == 'd';
  }

  // -------- nothing more than that

  /** Some source of the inputs reads below the directory. */
  ghost predicate ReadBelow(inputs: seq<InputSpec>, h: HostDirectory) {
    exists i, c, path :: i in inputs && c in InputChains(i) && c.labels[0].Source? && ReadsPath(c.labels[0].source, path) && Within(h, path)
  }

  /**
   Every host directory of the pod is there for a source that reads below it; only the one of the Kubernetes API server may
   also be there for a receiver of the same format.
   */
  lemma DirectoriesNeeded(f: Factory, inputs: seq<InputSpec>, h: HostDirectory)
    requires h in Directories(f, inputs)
    ensures ReadBelow(inputs, h) ||
            (h == KubeApiLogs && exists i :: i in inputs && i.kind == Receiver && i.receiver.Some? && i.receiver.value.format == Some("kubeAPIAudit"))
  {
    hide HasContainer, HasJournal, HasAudit, ReadBelow, AuditDirectories;
    DirectoryCause(inputs, h);
    if h == PodLogs {
      var i :| i in inputs && HasContainer(i);
      ContainerReads(inputs, i);
    } else if h == JournalLogs {
      var i :| i in inputs && HasJournal(i);
      JournalReads(inputs, i);
    } else {
      var a, i :| h in AuditDirectories(a) && i in inputs && HasAudit(i, a);
      AuditReads(inputs, i, a, h);
    }
  }

  function AuditOf(h: HostDirectory): AuditSource {
    if h == AuditdLogs then Auditd else if h == KubeApiLogs then KubeAPI else if h == OvnLogs then OVN else OpenShiftAPI
  }

  lemma InSix(h: HostDirectory, a: seq<HostDirectory>, b: seq<HostDirectory>, c: seq<HostDirectory>, d: seq<HostDirectory>,
              e: seq<HostDirectory>, f: seq<HostDirectory>)
    ensures h in a + b + c + d + e + f <==> h in a || h in b || h in c || h in d || h in e || h in f
  {
  }

  lemma InWhen(h: HostDirectory, present: bool, hs: seq<HostDirectory>)
    ensures h in When(present, hs) <==> present && h in hs
  {
  }

  lemma DirectoryFlag(inputs: seq<InputSpec>, h: HostDirectory)
    requires h in HostDirectories(inputs)
    ensures h == PodLogs ==> HasContainerSource(inputs)
    ensures h == JournalLogs ==> HasJournalSource(inputs)
    ensures h != PodLogs && h != JournalLogs ==> HasAuditSource(inputs, AuditOf(h))
  {
    hide HasContainerSource, HasJournalSource, HasAuditSource, When;
    InSix(h, When(HasContainerSource(inputs), [PodLogs]), When(HasJournalSource(inputs), [JournalLogs]),
          When(HasAuditSource(inputs, Auditd), [AuditdLogs]), When(HasAuditSource(inputs, KubeAPI), [KubeApiLogs]),
          When(HasAuditSource(inputs, OpenShiftAPI), [OpenshiftApiLogs, OauthServerLogs, OauthApiLogs]), When(HasAuditSource(inputs, OVN), [OvnLogs]));
    InWhen(h, HasContainerSource(inputs), [PodLogs]);
    InWhen(h, HasJournalSource(inputs), [JournalLogs]);
    InWhen(h, HasAuditSource(inputs, Auditd), [AuditdLogs]);
    InWhen(h, HasAuditSource(inputs, KubeAPI), [KubeApiLogs]);
    InWhen(h, HasAuditSource(inputs, OpenShiftAPI), [OpenshiftApiLogs, OauthServerLogs, OauthApiLogs]);
    InWhen(h, HasAuditSource(inputs, OVN), [OvnLogs]);
  }

  lemma AuditOfHolds(h: HostDirectory)
    requires h != PodLogs && h != JournalLogs
    ensures h in AuditDirectories(AuditOf(h))
  {
  }

  lemma DirectoryCause(inputs: seq<InputSpec>, h: HostDirectory)
    requires h in HostDirectories(inputs)
    ensures h == PodLogs ==> exists i :: i in inputs && HasContainer(i)
    ensures h == JournalLogs ==> exists i :: i in inputs && HasJournal(i)
    ensures h != PodLogs && h != JournalLogs ==> exists a, i :: h in AuditDirectories(a) && i in inputs && HasAudit(i, a)
  {
    DirectoryFlag(inputs, h);
    hide HasContainer, HasJournal, HasAudit, HostDirectories;
    if h != PodLogs && h != JournalLogs {
      AuditOfHolds(h);
      hide AuditDirectories, AuditOf;
      var i :| i in inputs && HasAudit(i, AuditOf(h));
    }
  }

  lemma ContainerReads(inputs: seq<InputSpec>, i: InputSpec)
    requires i in inputs && HasContainer(i)
    ensures ReadBelow(inputs, PodLogs)
  {
    hide MakeInputId, MakeId, SelectorOf, PathOf;
    var c := ContainerChain(i, SelectorOf(i));
    assert c in InputChains(i) by { assert c in [c]; }
    assert ReadsPath(c.labels[0].source, PathOf(PodLogs) + "/");
  }

  lemma JournalReads(inputs: seq<InputSpec>, i: InputSpec)
    requires i in inputs && HasJournal(i)
    ensures ReadBelow(inputs, JournalLogs)
  {
    hide MakeInputId, MakeId, SelectorOf, PathOf, ContainerChain;
    var c := JournalChain(i);
    assert c in InputChains(i) by { assert c in [c]; }
    assert ReadsPath(c.labels[0].source, PathOf(JournalLogs) + "/");
  }

  lemma AuditReads(inputs: seq<InputSpec>, i: InputSpec, a: AuditSource, h: HostDirectory)
    requires h in AuditDirectories(a) && i in inputs && HasAudit(i, a)
    ensures ReadBelow(inputs, h) || (h == KubeApiLogs && i.kind == Receiver && i.receiver.Some? && i.receiver.value.format == Some("kubeAPIAudit"))
  {
    if i.kind == Audit {
      AuditPathsWithin(a);
      AuditLabel(i, a);
      AuditChainThere(i, a);
      hide AuditPaths, AuditDirectories, AuditChain, InputChains, Within;
      var k :| 0 <= k < |AuditDirectories(a)| && AuditDirectories(a)[k] == h;
      assert AuditPaths(a)[k] in AuditPaths(a);
      assert ReadsPath(AuditChain(i, a).labels[0].source, AuditPaths(a)[k]);
    }
  }

  lemma AuditChainThere(i: InputSpec, a: AuditSource)
    requires i.kind == Audit && HasAudit(i, a)
    ensures AuditChain(i, a) in InputChains(i)
  {
    hide MakeInputId, MakeId, AuditPaths;
    assert AuditChain(i, a) in [AuditChain(i, a)];
    match a
    case Auditd =>
    case KubeAPI =>
    case OpenShiftAPI =>
    case OVN =>
  }
}
