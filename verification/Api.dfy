/** The parts of the ClusterLogForwarder API that the model reads. */
module Api {
  import opened Wrappers

  datatype NamespaceContainer = NamespaceContainer(namespace: string, container: string)

  datatype InputType = Application | Infrastructure | Audit | Receiver

  /** `ContainerInputTuningSpec`; `limit` is `rateLimitPerContainer.maxRecordsPerSecond`. */
  datatype ContainerTuning = ContainerTuning(limit: Option<int>, maxMessageSize: Option<int>)

  datatype ApplicationSpec = ApplicationSpec(
    includes: seq<NamespaceContainer>, excludes: seq<NamespaceContainer>, tuning: Option<ContainerTuning>)

  datatype InfrastructureSource = NodeLogs | ContainerLogs

  /** `InfrastructureInputTuningSpec` */
  datatype InfrastructureTuning = InfrastructureTuning(container: Option<ContainerTuning>)

  datatype InfrastructureSpec = InfrastructureSpec(sources: seq<InfrastructureSource>, tuning: Option<InfrastructureTuning>)

  datatype AuditSource = Auditd | KubeAPI | OpenShiftAPI | OVN

  datatype AuditSpec = AuditSpec(sources: seq<AuditSource>)

  datatype ReceiverType = HTTP | Syslog

  /** `format` is None when the HTTP section is missing; `tls` names the secret holding key and certificate. */
  datatype ReceiverSpec = ReceiverSpec(kind: ReceiverType, port: int, format: Option<string>, tls: Option<string>)

  datatype InputSpec = InputSpec(
    name: string, kind: InputType,
    application: Option<ApplicationSpec>, infrastructure: Option<InfrastructureSpec>,
    audit: Option<AuditSpec>, receiver: Option<ReceiverSpec>)

  datatype FilterType = Parse | DetectMultiline | Drop | Prune | KubeAPIAudit | OpenshiftLabels

  datatype PruneSpec = PruneSpec(inList: Option<seq<string>>, notIn: Option<seq<string>>)

  /** `body` stands for the settings that only reach the generated script. */
  datatype FilterSpec = FilterSpec(name: string, kind: FilterType, prune: Option<PruneSpec>, body: string)

  datatype OutputType = GoogleCloudLogging | OtherOutput(kind: string)

  /** `limit` is `rateLimit.maxRecordsPerSecond`; `body` stands for the settings that only reach the sink. */
  datatype OutputSpec = OutputSpec(name: string, kind: OutputType, limit: Option<int>, body: string)

  datatype PipelineSpec = PipelineSpec(name: string, inputRefs: seq<string>, outputRefs: seq<string>, filterRefs: seq<string>)

  datatype ForwarderSpec = ForwarderSpec(
    inputs: seq<InputSpec>, outputs: seq<OutputSpec>, filters: seq<FilterSpec>, pipelines: seq<PipelineSpec>)

  const APPLICATION := "application"
  const INFRASTRUCTURE := "infrastructure"
  const AUDIT := "audit"
  const HTTP_FORMAT_KUBE_API_AUDIT := "kubeAPIAudit"

  // -------- what admission asks for

  /** The section that goes with the type of the input is there. */
  predicate HasOwnSection(i: InputSpec) {
    match i.kind
    case Application => i.application.Some?
    case Infrastructure => i.infrastructure.Some?
    case Audit => i.audit.Some?
    case Receiver => i.receiver.Some?
  }

  predicate HasOwnFilterSection(f: FilterSpec) {
    f.kind == Prune ==> f.prune.Some?
  }

  /** The validation rules of the resource definition on sections, which the API server enforces before any reconcile. */
  predicate Admitted(spec: ForwarderSpec) {
    (forall i :: i in spec.inputs ==> HasOwnSection(i)) && forall f :: f in spec.filters ==> HasOwnFilterSection(f)
  }

  // -------- name maps; a later entry with the same name wins

  function InputMap(inputs: seq<InputSpec>): map<string, InputSpec> {
    if inputs == [] then map[]
    else InputMap(inputs[..|inputs| - 1])[inputs[|inputs| - 1].name := inputs[|inputs| - 1]]
  }

  function OutputMap(outputs: seq<OutputSpec>): map<string, OutputSpec> {
    if outputs == [] then map[]
    else OutputMap(outputs[..|outputs| - 1])[outputs[|outputs| - 1].name := outputs[|outputs| - 1]]
  }

  function FilterMap(filters: seq<FilterSpec>): map<string, FilterSpec> {
    if filters == [] then map[]
    else FilterMap(filters[..|filters| - 1])[filters[|filters| - 1].name := filters[|filters| - 1]]
  }

  ghost predicate UniqueNames(inputs: seq<InputSpec>) {
    forall i, j :: 0 <= i < j < |inputs| ==> inputs[i].name != inputs[j].name
  }

  lemma {:induction false} InputMapOfUnique(inputs: seq<InputSpec>)
    requires UniqueNames(inputs)
    ensures forall n, i :: n in InputMap(inputs) && InputMap(inputs)[n] == i <==> i in inputs && i.name == n
  {
    if inputs != [] {
      var init, last := inputs[..|inputs| - 1], inputs[|inputs| - 1];
      assert inputs == init + [last];
      forall k | 0 <= k < |init| ensures init[k].name != last.name {
        assert init[k] == inputs[k];
      }
      InputMapOfUnique(init);
    }
  }

  lemma {:induction false} InputMapKeys(inputs: seq<InputSpec>)
    ensures forall n :: n in InputMap(inputs) ==> InputMap(inputs)[n] in inputs && InputMap(inputs)[n].name == n
    ensures forall i :: i in inputs ==> i.name in InputMap(inputs)
  {
    if inputs != [] {
      InputMapKeys(inputs[..|inputs| - 1]);
      assert inputs == inputs[..|inputs| - 1] + [inputs[|inputs| - 1]];
    }
  }

  lemma {:induction false} FilterMapKeys(filters: seq<FilterSpec>)
    ensures forall n :: n in FilterMap(filters) ==> FilterMap(filters)[n] in filters && FilterMap(filters)[n].name == n
    ensures forall f :: f in filters ==> f.name in FilterMap(filters)
  {
    if filters != [] {
      FilterMapKeys(filters[..|filters| - 1]);
      assert filters == filters[..|filters| - 1] + [filters[|filters| - 1]];
    }
  }

  lemma {:induction false} OutputMapKeys(outputs: seq<OutputSpec>)
    ensures forall n :: n in OutputMap(outputs) ==> OutputMap(outputs)[n] in outputs && OutputMap(outputs)[n].name == n
    ensures forall o :: o in outputs ==> o.name in OutputMap(outputs)
  {
    if outputs != [] {
      OutputMapKeys(outputs[..|outputs| - 1]);
      assert outputs == outputs[..|outputs| - 1] + [outputs[|outputs| - 1]];
    }
  }

  // -------- queries on inputs

  predicate HasContainer(i: InputSpec) {
    || i.kind == Application
    || (i.kind == Infrastructure && i.infrastructure.Some? &&
        (i.infrastructure.value.sources == [] || ContainerLogs in i.infrastructure.value.sources))
  }

  predicate HasJournal(i: InputSpec) {
    i.kind == Infrastructure && i.infrastructure.Some? &&
    (i.infrastructure.value.sources == [] || NodeLogs in i.infrastructure.value.sources)
  }

  predicate HasAudit(i: InputSpec, source: AuditSource) {
    || (i.kind == Audit && i.audit.Some? && (source in i.audit.value.sources || i.audit.value.sources == []))
    || (source == KubeAPI && i.kind == Receiver && i.receiver.Some? && i.receiver.value.format == Some(HTTP_FORMAT_KUBE_API_AUDIT))
  }

  predicate HasReceiver(i: InputSpec) {
    i.kind == Receiver && i.receiver.Some?
  }

  predicate HasContainerSource(inputs: seq<InputSpec>) {
    exists i :: i in inputs && HasContainer(i)
  }

  predicate HasJournalSource(inputs: seq<InputSpec>) {
    exists i :: i in inputs && HasJournal(i)
  }

  predicate HasAuditSource(inputs: seq<InputSpec>, source: AuditSource) {
    exists i :: i in inputs && HasAudit(i, source)
  }
}
