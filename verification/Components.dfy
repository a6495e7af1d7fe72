/**
 The components of the Vector configuration generated for a forwarder, as a function of its spec:
 which sources, transforms and sinks there are, their ids, and the ids each one reads from.
 */
module Components {
  import opened Wrappers
  import opened Ordering
  import opened Ids
  import opened Api
  import Selection

  /** Which container logs a source reads. */
  datatype Selector = Selector(includes: seq<string>, excludes: seq<string>)

  ghost function SelectorOf(i: InputSpec): Selector {
    if i.kind == Application then Selector(Selection.ApplicationIncludes(i.application), Selection.ApplicationExcludes(i.application))
    else Selector(Selection.InfrastructureIncludes(), Selection.LoggingExcludes())
  }

  datatype SourceKind =
    | KubernetesLogs(selector: Selector)
    | Journald
    | FileSource(paths: seq<string>)
    | HttpServer(port: int)
    | SyslogServer(port: int)
    | InternalMetrics

  /** What the system filter's script depends on. */
  datatype Facts = Facts(auditd: bool, kube: bool, openshift: bool, ovn: bool, container: bool, journal: bool, receiver: bool)

  datatype Label =
    | Source(source: SourceKind)
    | Normalize(logSource: string)
    | Items
    | InputThrottle(inputLimit: int)
    | System(facts: Facts)
    | User(filter: FilterSpec)
    | OutputThrottle(outputLimit: int)
    | Sink(output: OutputSpec)
    | NodenameToMetric
    | PrometheusSink

  datatype Node = Node(work: Label, inputs: seq<string>)

  datatype Kind = SourceNode | TransformNode | SinkNode

  datatype Component = Component(kind: Kind, id: string, node: Node)

  const VIAQ := "viaq"
  const INTERNAL_METRICS := "internal_metrics"
  const ADD_NODENAME := "add_nodename_to_metric"
  const PROMETHEUS_OUTPUT := "prometheus_output"

  // -------- inputs

  /** A source followed by the transforms in front of the pipelines; every transform reads the one before it. */
  datatype Chain = Chain(ids: seq<string>, labels: seq<Label>) {
    predicate Valid() { |ids| == |labels| && |ids| > 0 && labels[0].Source? }
    function Last(): string
      requires Valid()
    {
      ids[|ids| - 1]
    }
  }

  /** `MaxRecordsPerSecond`; the infrastructure branch reads `tuning.Container` without looking whether it is there. */
  function MaxRecordsPerSecond(i: InputSpec): Outcome<Option<int>> {
    if i.application.Some? && i.application.value.tuning.Some? && i.application.value.tuning.value.limit.Some? then
      Ok(i.application.value.tuning.value.limit)
    else if i.infrastructure.Some? && i.infrastructure.value.tuning.Some? then
      if i.infrastructure.value.tuning.value.container.None? then Panic
      else Ok(i.infrastructure.value.tuning.value.container.value.limit)
    else Ok(None)
  }

  function ContainerChain(i: InputSpec, selector: Selector): (c: Chain)
    ensures c.Valid()
  {
    var base := MakeInputId([i.name, "container"]);
    var limit := MaxRecordsPerSecond(i);
    var ids := [base, MakeId([base, "meta"])];
    var labels := [Source(KubernetesLogs(selector)), Normalize("container")];
    if limit.Ok? && limit.value.Some? then
      Chain(ids + [MakeId([base, "throttle"])], labels + [InputThrottle(limit.value.value)])
    else Chain(ids, labels)
  }

  function SourceAndMeta(i: InputSpec, purpose: string, source: SourceKind, logSource: string): (c: Chain)
    ensures c.Valid()
  {
    var id := MakeInputId([i.name, purpose]);
    Chain([id, MakeId([id, "meta"])], [Source(source), Normalize(logSource)])
  }

  function JournalChain(i: InputSpec): Chain {
    SourceAndMeta(i, "journal", Journald, "node")
  }

  function AuditPaths(source: AuditSource): seq<string> {
    match source
    case Auditd => ["/var/log/audit/audit.log"]
    case KubeAPI => ["/var/log/kube-apiserver/audit.log"]
    case OpenShiftAPI => ["/var/log/oauth-apiserver/audit.log", "/var/log/openshift-apiserver/audit.log", "/var/log/oauth-server/audit.log"]
    case OVN => ["/var/log/ovn/acl-audit-log.log"]
  }

  function AuditChain(i: InputSpec, source: AuditSource): Chain {
    match source
    case Auditd => SourceAndMeta(i, "host", FileSource(AuditPaths(source)), "auditd")
    case KubeAPI => SourceAndMeta(i, "kube", FileSource(AuditPaths(source)), "kubeAPI")
    case OpenShiftAPI => SourceAndMeta(i, "openshift", FileSource(AuditPaths(source)), "openshiftAPI")
    case OVN => SourceAndMeta(i, "ovn", FileSource(AuditPaths(source)), "ovn")
  }

  function ReceiverChain(i: InputSpec, r: ReceiverSpec): (c: Chain)
    ensures c.Valid()
  {
    var base := MakeInputId([i.name]);
    var meta := MakeId([base, "meta"]);
    match r.kind
    case Syslog => Chain([base, meta], [Source(SyslogServer(r.port)), Normalize("syslog")])
    case HTTP => Chain([base, MakeId([base, "items"]), meta], [Source(HttpServer(r.port)), Items, Normalize("kubeAPI")])
  }

  function InfrastructureSources(i: InputSpec): seq<InfrastructureSource> {
    if i.infrastructure.None? || i.infrastructure.value.sources == [] then [NodeLogs, ContainerLogs]
    else i.infrastructure.value.sources
  }

  function AuditSources(i: InputSpec): seq<AuditSource> {
    if i.audit.None? || i.audit.value.sources == [] then [KubeAPI, OpenShiftAPI, Auditd, OVN]
    else i.audit.value.sources
  }

  /** The chains of one input, in the order `NewSource` builds them. */
  ghost function InputChains(i: InputSpec): (cs: seq<Chain>)
    ensures forall c :: c in cs ==> c.Valid()
  {
    match i.kind
    case Application => [ContainerChain(i, SelectorOf(i))]
    case Infrastructure =>
      (if ContainerLogs in InfrastructureSources(i) then [ContainerChain(i, SelectorOf(i))] else [])
      + (if NodeLogs in InfrastructureSources(i) then [JournalChain(i)] else [])
    case Audit =>
      (if Auditd in AuditSources(i) then [AuditChain(i, Auditd)] else [])
      + (if KubeAPI in AuditSources(i) then [AuditChain(i, KubeAPI)] else [])
      + (if OpenShiftAPI in AuditSources(i) then [AuditChain(i, OpenShiftAPI)] else [])
      + (if OVN in AuditSources(i) then [AuditChain(i, OVN)] else [])
    case Receiver => if i.receiver.Some? then [ReceiverChain(i, i.receiver.value)] else []
  }

  /** `NewSource` runs into a missing section of the spec. */
  predicate SourcePanics(i: InputSpec) {
    match i.kind
    case Application => MaxRecordsPerSecond(i).Panic?
    case Infrastructure => ContainerLogs in InfrastructureSources(i) && MaxRecordsPerSecond(i).Panic?
    case Audit => false
    case Receiver => i.receiver.None?
  }

  function LastIds(chains: seq<Chain>): seq<string>
    requires forall c :: c in chains ==> c.Valid()
  {
    if chains == [] then [] else LastIds(chains[..|chains| - 1]) + [chains[|chains| - 1].Last()]
  }

  function ChainComponents(c: Chain): (cs: seq<Component>)
    requires c.Valid()
    ensures |cs| == |c.ids|
    ensures forall j :: 0 <= j < |cs| ==> cs[j] == ChainComponent(c, j)
  {
    seq(|c.ids|, j requires 0 <= j < |c.ids| => ChainComponent(c, j))
  }

  function ChainComponent(c: Chain, j: nat): Component
    requires c.Valid() && j < |c.ids|
  {
    Component(if j == 0 then SourceNode else TransformNode, c.ids[j], Node(c.labels[j], if j == 0 then [] else [c.ids[j - 1]]))
  }

  function ChainsComponents(chains: seq<Chain>): seq<Component>
    requires forall c :: c in chains ==> c.Valid()
  {
    if chains == [] then []
    else ChainsComponents(chains[..|chains| - 1]) + ChainComponents(chains[|chains| - 1])
  }

  // -------- pipelines

  function PipelineName(p: PipelineSpec, index: nat): string {
    if p.name == "" then MakeId(["pipeline", Itoa(index)]) else p.name
  }

  /** Parse and multiline filters run ahead of the system filter; a user filter named like it is never one of them. */
  predicate IsEarly(ref: string, filters: map<string, FilterSpec>) {
    ref != VIAQ && ref in filters && (filters[ref].kind == Parse || filters[ref].kind == DetectMultiline)
  }

  function Select(refs: seq<string>, filters: map<string, FilterSpec>, early: bool): seq<string> {
    if refs == [] then []
    else Select(refs[..|refs| - 1], filters, early)
         + if IsEarly(refs[|refs| - 1], filters) == early then [refs[|refs| - 1]] else []
  }

  /** The filter refs of a pipeline after `AddSystemFilters`. */
  function SystemOrder(refs: seq<string>, filters: map<string, FilterSpec>): seq<string> {
    Select(refs, filters, true) + [VIAQ] + Select(refs, filters, false)
  }

  predicate Resolves(ref: string, filters: map<string, FilterSpec>) {
    ref == VIAQ || ref in filters
  }

  function InputSpecsOf(inputs: seq<InputSpec>, refs: seq<string>): set<InputSpec> {
    set i | i in inputs && i.name in refs
  }

  function FactsOf(inputs: set<InputSpec>): Facts {
    Facts(exists i :: i in inputs && HasAudit(i, Auditd),
          exists i :: i in inputs && HasAudit(i, KubeAPI),
          exists i :: i in inputs && HasAudit(i, OpenShiftAPI),
          exists i :: i in inputs && HasAudit(i, OVN),
          exists i :: i in inputs && HasContainer(i),
          exists i :: i in inputs && HasJournal(i),
          exists i :: i in inputs && HasReceiver(i))
  }

  datatype Stage = Stage(id: string, work: Label)

  ghost function StageLabel(spec: ForwarderSpec, p: PipelineSpec, ref: string): Label
    requires Resolves(ref, FilterMap(spec.filters))
  {
    if ref == VIAQ then System(FactsOf(InputSpecsOf(spec.inputs, p.inputRefs))) else User(FilterMap(spec.filters)[ref])
  }

  predicate PipelineResolves(spec: ForwarderSpec, p: PipelineSpec) {
    forall ref :: ref in p.filterRefs ==> Resolves(ref, FilterMap(spec.filters))
  }

  lemma {:induction false} SelectMembers(refs: seq<string>, filters: map<string, FilterSpec>, early: bool)
    ensures forall r :: r in Select(refs, filters, early) <==> r in refs && IsEarly(r, filters) == early
  {
    if refs != [] {
      SelectMembers(refs[..|refs| - 1], filters, early);
      assert refs == refs[..|refs| - 1] + [refs[|refs| - 1]];
    }
  }

  lemma SystemOrderMembers(refs: seq<string>, filters: map<string, FilterSpec>)
    ensures forall r :: r in SystemOrder(refs, filters) <==> r in refs || r == VIAQ
  {
    SelectMembers(refs, filters, true);
    SelectMembers(refs, filters, false);
  }

  /** The filters of one pipeline in running order. */
  ghost function Stages(spec: ForwarderSpec, index: nat): (stages: seq<Stage>)
    requires index < |spec.pipelines| && PipelineResolves(spec, spec.pipelines[index])
    ensures |stages| == |SystemOrder(spec.pipelines[index].filterRefs, FilterMap(spec.filters))| > 0
    ensures forall k :: 0 <= k < |stages| ==> stages[k] == StageAt(spec, index, k)
  {
    var refs := SystemOrder(spec.pipelines[index].filterRefs, FilterMap(spec.filters));
    seq(|refs|, k requires 0 <= k < |refs| => StageAt(spec, index, k))
  }

  ghost function StageAt(spec: ForwarderSpec, index: nat, k: nat): Stage
    requires index < |spec.pipelines| && PipelineResolves(spec, spec.pipelines[index])
    requires k < |SystemOrder(spec.pipelines[index].filterRefs, FilterMap(spec.filters))|
  {
    var p := spec.pipelines[index];
    var refs := SystemOrder(p.filterRefs, FilterMap(spec.filters));
    SystemOrderMembers(p.filterRefs, FilterMap(spec.filters));
    assert refs[k] in refs;
    Stage(FilterId(PipelineName(p, index), refs[k], k), StageLabel(spec, p, refs[k]))
  }

  /** The ids a pipeline's first filter reads: those of the resolved inputs, sorted. */
  ghost function HeadInputs(spec: ForwarderSpec, refs: seq<string>): seq<string> {
    Sort(UnsortedHeadInputs(InputMap(spec.inputs), refs))
  }

  ghost function UnsortedHeadInputs(inputs: map<string, InputSpec>, refs: seq<string>): seq<string> {
    if refs == [] then []
    else UnsortedHeadInputs(inputs, refs[..|refs| - 1])
         + if refs[|refs| - 1] in inputs then LastIds(InputChains(inputs[refs[|refs| - 1]])) else []
  }

  ghost function StageComponents(spec: ForwarderSpec, index: nat): (cs: seq<Component>)
    requires index < |spec.pipelines| && PipelineResolves(spec, spec.pipelines[index])
    ensures |cs| == |Stages(spec, index)|
    ensures forall k :: 0 <= k < |cs| ==> cs[k] == StageComponent(spec, index, k)
  {
    seq(|Stages(spec, index)|, k requires 0 <= k < |Stages(spec, index)| => StageComponent(spec, index, k))
  }

  ghost function StageComponent(spec: ForwarderSpec, index: nat, k: nat): Component
    requires index < |spec.pipelines| && PipelineResolves(spec, spec.pipelines[index]) && k < |Stages(spec, index)|
  {
    var stages := Stages(spec, index);
    Component(TransformNode, stages[k].id,
              Node(stages[k].work, if k == 0 then HeadInputs(spec, spec.pipelines[index].inputRefs) else [stages[k - 1].id]))
  }

  ghost function LastStage(spec: ForwarderSpec, index: nat): string
    requires index < |spec.pipelines| && PipelineResolves(spec, spec.pipelines[index])
  {
    Stages(spec, index)[|Stages(spec, index)| - 1].id
  }

  /** Later pipelines replace earlier ones of the same name in the pipeline map. */
  function PipelineIndexes(pipelines: seq<PipelineSpec>): map<string, nat> {
    if pipelines == [] then map[]
    else PipelineIndexes(pipelines[..|pipelines| - 1])[pipelines[|pipelines| - 1].name := |pipelines| - 1]
  }

  lemma {:induction false} PipelineIndexRange(pipelines: seq<PipelineSpec>, n: string)
    requires n in PipelineIndexes(pipelines)
    ensures PipelineIndexes(pipelines)[n] < |pipelines| && pipelines[PipelineIndexes(pipelines)[n]].name == n
  {
    var last := |pipelines| - 1;
    if pipelines[last].name != n {
      PipelineIndexRange(pipelines[..last], n);
    }
  }

  lemma PipelineIndexesInRange(pipelines: seq<PipelineSpec>)
    ensures forall n :: n in PipelineIndexes(pipelines) ==> PipelineIndexes(pipelines)[n] < |pipelines|
  {
    forall n | n in PipelineIndexes(pipelines) ensures PipelineIndexes(pipelines)[n] < |pipelines| {
      PipelineIndexRange(pipelines, n);
    }
  }

  // -------- outputs

  function Count(refs: seq<string>, name: string): nat {
    if refs == [] then 0 else Count(refs[..|refs| - 1], name) + if refs[|refs| - 1] == name then 1 else 0
  }

  function Repeat(id: string, n: nat): seq<string> {
    if n == 0 then [] else Repeat(id, n - 1) + [id]
  }

  predicate AllResolve(spec: ForwarderSpec) {
    forall p :: p in spec.pipelines ==> PipelineResolves(spec, p)
  }

  /** The ids an output collects from the first `n` pipelines: the last filter of every pipeline that refers to it. */
  ghost function OutputInputs(spec: ForwarderSpec, name: string, n: nat): seq<string>
    requires AllResolve(spec) && n <= |spec.pipelines|
  {
    if n == 0 then []
    else OutputInputs(spec, name, n - 1) + Repeat(LastStage(spec, n - 1), Count(spec.pipelines[n - 1].outputRefs, name))
  }

  function OutputComponents(o: OutputSpec, inputs: seq<string>): seq<Component> {
    var base := MakeOutputId([o.name]);
    if o.limit.Some? && o.limit.value > 0 then
      var throttle := MakeId([base, "throttle"]);
      [Component(TransformNode, throttle, Node(OutputThrottle(o.limit.value), Sort(inputs))),
       Component(SinkNode, base, Node(Sink(o), [throttle]))]
    else [Component(SinkNode, base, Node(Sink(o), inputs))]
  }

  // -------- the whole configuration

  /** Components per adapter name. */
  type Table = map<string, seq<Component>>

  function FlattenNames(names: seq<string>, table: Table): seq<Component>
    requires forall n :: n in names ==> n in table
  {
    if names == [] then [] else FlattenNames(names[..|names| - 1], table) + table[names[|names| - 1]]
  }

  /** All components of a table, by adapter name in sorted order, as `sortAdapters` arranges them. */
  ghost function Flatten(table: Table): seq<Component> {
    FlattenNames(Listing(table.Keys), table)
  }

  ghost function InputTable(inputs: map<string, InputSpec>): Table {
    map n | n in inputs :: ChainsComponents(InputChains(inputs[n]))
  }

  ghost function PipelineTable(spec: ForwarderSpec, indexes: map<string, nat>): Table
    requires AllResolve(spec) && forall n :: n in indexes ==> indexes[n] < |spec.pipelines|
  {
    map n | n in indexes :: StageComponents(spec, indexes[n])
  }

  ghost function OutputTable(spec: ForwarderSpec, outputs: map<string, OutputSpec>): Table
    requires AllResolve(spec)
  {
    map n | n in outputs :: OutputComponents(outputs[n], OutputInputs(spec, n, |spec.pipelines|))
  }

  function MetricsSource(): Component {
    Component(SourceNode, INTERNAL_METRICS, Node(Source(InternalMetrics), []))
  }

  function MetricsOutput(): seq<Component> {
    [Component(TransformNode, ADD_NODENAME, Node(NodenameToMetric, [INTERNAL_METRICS])),
     Component(SinkNode, PROMETHEUS_OUTPUT, Node(PrometheusSink, [ADD_NODENAME]))]
  }

  /** Everything `Conf` writes into the configuration, in the order it writes it. */
  ghost function AllComponents(spec: ForwarderSpec): seq<Component>
    requires AllResolve(spec)
  {
    PipelineIndexesInRange(spec.pipelines);
    [MetricsSource()]
    + Flatten(InputTable(InputMap(spec.inputs)))
    + Flatten(PipelineTable(spec, PipelineIndexes(spec.pipelines)))
    + Flatten(OutputTable(spec, OutputMap(spec.outputs)))
    + MetricsOutput()
  }

  datatype Config = Config(sources: map<string, Node>, transforms: map<string, Node>, sinks: map<string, Node>)

  /** Writing a component replaces whatever its id and kind named before. */
  function Put(config: Config, c: Component): Config {
    match c.kind
    case SourceNode => config.(sources := config.sources[c.id := c.node])
    case TransformNode => config.(transforms := config.transforms[c.id := c.node])
    case SinkNode => config.(sinks := config.sinks[c.id := c.node])
  }

  function Assemble(cs: seq<Component>): Config {
    if cs == [] then Config(map[], map[], map[]) else Put(Assemble(cs[..|cs| - 1]), cs[|cs| - 1])
  }

  ghost predicate InputsPanic(spec: ForwarderSpec) {
    exists n :: n in InputMap(spec.inputs) && SourcePanics(InputMap(spec.inputs)[n])
  }

  /** The configuration generated for a spec. */
  ghost function Compile(spec: ForwarderSpec): Outcome<Config> {
    if !AllResolve(spec) || InputsPanic(spec) then Panic else Ok(Assemble(AllComponents(spec)))
  }
}
