/** What validation says of each input, output, filter and pipeline, and of the annotations. */
module Checks {
  import opened Wrappers
  import opened Ids
  import opened Api
  import opened Conditions
  import Globs

  /**
   What the checks learn from the cluster, and the checks whose rules are left out: the key and certificate references of
   receivers, the settings of outputs before and after the reference check, and the settings of filters. The last two
   are the values of the forwarder's annotations.
   */
  datatype World = World(
    account: AccountLookup,
    review: string -> Review,
    receiverMessages: InputSpec -> seq<string>,
    outputMessages: OutputSpec -> seq<string>,
    laterOutputMessages: OutputSpec -> seq<string>,
    filterMessages: FilterSpec -> seq<string>,
    logLevel: Option<string>,
    maxUnavailable: Option<string>)

  datatype AccountLookup = Found | NotFound(text: string) | LookupFailed(text: string)

  datatype Review = Allowed | Denied | ReviewFailed(text: string)

  datatype ListName = InputList | OutputList | FilterList | PipelineList

  function Prefix(l: ListName): string {
    match l
    case InputList => "observability.openshift.io/ValidInput"
    case OutputList => "observability.openshift.io/ValidOutput"
    case FilterList => "observability.openshift.io/ValidFilter"
    case PipelineList => "observability.openshift.io/ValidPipeline"
  }

  const AUTHORIZED := "observability.openshift.io/Authorized"
  const VALID := "observability.openshift.io/Valid"
  const READY := "Ready"
  const LOG_LEVEL := "observability.openshift.io/LogLevel"
  const MAX_UNAVAILABLE := "observability.openshift.io/MaxUnavailableAnnotation"

  function KindOf(l: ListName, name: string): string {
    Prefix(l) + "-" + name
  }

  function JoinWith(parts: seq<string>, separator: string): string {
    if parts == [] then "" else if |parts| == 1 then parts[0] else parts[0] + separator + JoinWith(parts[1..], separator)
  }

  function Passed(l: ListName, name: string, what: string): Verdict {
    Verdict(KindOf(l, name), True, "ValidationSuccess", what + " \"" + name + "\" is valid")
  }

  function Failed(l: ListName, name: string, reason: string, message: string): Verdict {
    Verdict(KindOf(l, name), False, reason, message)
  }

  function Judge(l: ListName, name: string, what: string, messages: seq<string>): Verdict {
    if messages == [] then Passed(l, name, what) else Failed(l, name, "ValidationFailure", JoinWith(messages, ","))
  }

  // -------- inputs

  function GlobMessages(list: string, globs: seq<NamespaceContainer>): seq<string> {
    if globs == [] then []
    else
      var n := |globs| - 1;
      GlobMessages(list, globs[..n])
      + (if Globs.ValidGlob(globs[n].namespace) then [] else [list + "[" + Itoa(n) + "].namespace"])
      + if Globs.ValidGlob(globs[n].container) then [] else [list + "[" + Itoa(n) + "].container"]
  }

  const GLOBS_MUST_MATCH := "globs must match \"^[a-zA-Z0-9\\\\*\\\\-]*$\" for: "

  /** The verdict on an input whose receiver section, if it should have one, is there. */
  function InputVerdict(i: InputSpec, world: World): Verdict {
    match i.kind
    case Application =>
      if i.application.None? then Failed(InputList, i.name, "MissingSpec", i.name + " has nil application spec")
      else
        var messages := GlobMessages("excludes", i.application.value.excludes) + GlobMessages("includes", i.application.value.includes);
        if messages == [] then Passed(InputList, i.name, "input")
        else Failed(InputList, i.name, "ValidationFailure", GLOBS_MUST_MATCH + JoinWith(messages, ","))
    case Infrastructure =>
      if i.infrastructure.None? then Failed(InputList, i.name, "MissingSpec", i.name + " has nil infrastructure spec")
      else if TuningMisplaced(i.infrastructure.value) then
        Failed(InputList, i.name, "ValidationFailure",
               i.name + " tuning section available only for \"container\" source type, but found " + JoinWith(SourceNames(i.infrastructure.value.sources), ","))
      else Passed(InputList, i.name, "input")
    case Audit =>
      if i.audit.None? then Failed(InputList, i.name, "MissingSpec", i.name + " has nil audit spec")
      else Passed(InputList, i.name, "input")
    case Receiver =>
      if i.receiver.None? then Failed(InputList, i.name, "MissingSpec", i.name + " has nil receiver spec")
      else if i.receiver.value.kind == HTTP && i.receiver.value.format.None? then
        Failed(InputList, i.name, "MissingSpec", i.name + " has nil HTTP receiver spec")
      else if i.receiver.value.kind == HTTP && i.receiver.value.format == Some("") then
        Failed(InputList, i.name, "ValidationFailure", i.name + " does not specify a format")
      else if i.receiver.value.tls.Some? && world.receiverMessages(i) != [] then
        Failed(InputList, i.name, "ValidationFailure", JoinWith(world.receiverMessages(i), ","))
      else Passed(InputList, i.name, "input")
  }

  predicate TuningMisplaced(s: InfrastructureSpec) {
    && s.sources != [] && ContainerLogs !in s.sources
    && s.tuning.Some? && s.tuning.value.container.Some? && s.tuning.value.container.value.maxMessageSize.Some?
  }

  function SourceNames(sources: seq<InfrastructureSource>): seq<string> {
    seq(|sources|, k requires 0 <= k < |sources| => if sources[k] == NodeLogs then "node" else "container")
  }

  // -------- outputs and filters

  predicate Referenced(o: OutputSpec, pipelines: seq<PipelineSpec>) {
    exists p :: p in pipelines && o.name in p.outputRefs
  }

  function OutputVerdict(o: OutputSpec, pipelines: seq<PipelineSpec>, world: World): Verdict {
    var reference := if Referenced(o, pipelines) then [] else ["not referenced by any pipeline"];
    Judge(OutputList, o.name, "output", world.outputMessages(o) + reference + world.laterOutputMessages(o))
  }

  function FilterVerdict(f: FilterSpec, world: World): Verdict {
    Judge(FilterList, f.name, "filter", world.filterMessages(f))
  }

  // -------- pipelines

  function Missing(refs: seq<string>, names: set<string>): seq<string> {
    if refs == [] then []
    else Missing(refs[..|refs| - 1], names) + if refs[|refs| - 1] in names then [] else [refs[|refs| - 1]]
  }

  function MissingText(what: string, refs: seq<string>): seq<string> {
    if refs == [] then [] else [what + "[" + JoinWith(refs, " ") + "]"]
  }

  function RefMessages(p: PipelineSpec, spec: ForwarderSpec): seq<string> {
    MissingText("inputs", Missing(p.inputRefs, InputMap(spec.inputs).Keys))
    + MissingText("outputs", Missing(p.outputRefs, OutputMap(spec.outputs).Keys))
    + MissingText("filters", Missing(p.filterRefs, FilterMap(spec.filters).Keys))
  }

  const HOSTNAME := ".hostname"

  predicate PrunesHostName(f: FilterSpec)
    requires f.kind == Prune ==> f.prune.Some?
  {
    f.kind == Prune &&
    ((f.prune.value.notIn.Some? && HOSTNAME !in f.prune.value.notIn.value) || (f.prune.value.inList.Some? && HOSTNAME in f.prune.value.inList.value))
  }

  /** The check of a pipeline towards Google Cloud Logging looks into a prune filter that has no prune section. */
  predicate HostNamePanics(p: PipelineSpec, spec: ForwarderSpec) {
    (exists o :: o in p.outputRefs && ToGoogle(o, spec)) && exists f :: f in p.filterRefs && Unsectioned(f, spec)
  }

  predicate Unsectioned(f: string, spec: ForwarderSpec) {
    f in FilterMap(spec.filters) && Sectionless(FilterMap(spec.filters)[f])
  }

  predicate Sectionless(f: FilterSpec) {
    f.kind == Prune && f.prune.None?
  }

  predicate ToGoogle(o: string, spec: ForwarderSpec) {
    o in OutputMap(spec.outputs) && OutputMap(spec.outputs)[o].kind == GoogleCloudLogging
  }

  function PruneText(f: string, o: string): string {
    "\"" + f + "\" prunes the `.hostname` field which is required for output: \"" + o + "\" of type \"googleCloudLogging\"."
  }

  function HostNameMessages(filterRefs: seq<string>, o: string, spec: ForwarderSpec): seq<string>
    requires forall f :: f in filterRefs ==> !Unsectioned(f, spec)
  {
    if filterRefs == [] then []
    else
      var f := filterRefs[|filterRefs| - 1];
      assert f in filterRefs && !Unsectioned(f, spec);
      HostNameMessages(filterRefs[..|filterRefs| - 1], o, spec)
      + if f in FilterMap(spec.filters) && PrunesHostName(FilterMap(spec.filters)[f]) then [PruneText(f, o)] else []
  }

  function GoogleMessages(p: PipelineSpec, outputRefs: seq<string>, spec: ForwarderSpec): seq<string>
    requires !HostNamePanics(p, spec) && forall o :: o in outputRefs ==> o in p.outputRefs
  {
    if outputRefs == [] then []
    else
      var o := outputRefs[|outputRefs| - 1];
      assert o in outputRefs;
      GoogleMessages(p, outputRefs[..|outputRefs| - 1], spec)
      + if ToGoogle(o, spec) then HostNameMessages(p.filterRefs, o, spec) else []
  }

  /** The complaints about one pipeline. */
  function PipelineMessages(p: PipelineSpec, spec: ForwarderSpec): seq<string>
    requires !HostNamePanics(p, spec)
  {
    var missing := RefMessages(p, spec);
    (if missing == [] then [] else ["refs not found: " + JoinWith(missing, ",")]) + GoogleMessages(p, p.outputRefs, spec)
  }

  /** All references of the pipeline resolve, and no filter takes the host name away from Google Cloud Logging. */
  ghost predicate PipelinePasses(p: PipelineSpec, spec: ForwarderSpec) {
    && (forall r :: r in p.inputRefs ==> r in InputMap(spec.inputs))
    && (forall r :: r in p.outputRefs ==> r in OutputMap(spec.outputs))
    && (forall r :: r in p.filterRefs ==> r in FilterMap(spec.filters))
    && (forall o :: o in p.outputRefs && ToGoogle(o, spec) ==> KeepsHostName(p, spec))
  }

  ghost predicate KeepsHostName(p: PipelineSpec, spec: ForwarderSpec) {
    forall f :: f in p.filterRefs ==> !Unsectioned(f, spec) && (f in FilterMap(spec.filters) ==> !PrunesHostName(FilterMap(spec.filters)[f]))
  }

  lemma {:induction false} MissingNone(refs: seq<string>, names: set<string>)
    ensures Missing(refs, names) == [] <==> forall r :: r in refs ==> r in names
  {
    if refs != [] {
      MissingNone(refs[..|refs| - 1], names);
      assert refs == refs[..|refs| - 1] + [refs[|refs| - 1]];
    }
  }

  lemma {:induction false} HostNameNone(filterRefs: seq<string>, o: string, spec: ForwarderSpec)
    requires forall f :: f in filterRefs ==> !Unsectioned(f, spec)
    ensures HostNameMessages(filterRefs, o, spec) == [] <==>
            forall f :: f in filterRefs && f in FilterMap(spec.filters) ==> !PrunesHostName(FilterMap(spec.filters)[f])
  {
    hide FilterMap, PruneText;
    if filterRefs != [] {
      HostNameNone(filterRefs[..|filterRefs| - 1], o, spec);
      var f := filterRefs[|filterRefs| - 1];
      assert filterRefs == filterRefs[..|filterRefs| - 1] + [f];
      assert f in filterRefs && !Unsectioned(f, spec);
    }
  }

  lemma {:induction false} GoogleNone(p: PipelineSpec, outputRefs: seq<string>, spec: ForwarderSpec)
    requires !HostNamePanics(p, spec) && forall o :: o in outputRefs ==> o in p.outputRefs
    ensures GoogleMessages(p, outputRefs, spec) == [] <==>
            forall o :: o in outputRefs && ToGoogle(o, spec) ==> KeepsHostName(p, spec)
  {
    hide FilterMap, OutputMap;
    if outputRefs != [] {
      var init, last := outputRefs[..|outputRefs| - 1], outputRefs[|outputRefs| - 1];
      GoogleNone(p, init, spec);
      assert outputRefs == init + [last];
      assert last in outputRefs;
      if ToGoogle(last, spec) {
        HostNameNone(p.filterRefs, last, spec);
      }
    }
  }

  /** The complaints speak exactly when the pipeline does not pass. */
  lemma MessagesExact(p: PipelineSpec, spec: ForwarderSpec)
    requires !HostNamePanics(p, spec)
    ensures PipelineMessages(p, spec) == [] <==> PipelinePasses(p, spec)
  {
    hide FilterMap, OutputMap, InputMap, PrunesHostName;
    MissingNone(p.inputRefs, InputMap(spec.inputs).Keys);
    MissingNone(p.outputRefs, OutputMap(spec.outputs).Keys);
    MissingNone(p.filterRefs, FilterMap(spec.filters).Keys);
    GoogleNone(p, p.outputRefs, spec);
  }

  // -------- annotations

  const LOG_LEVELS := {"trace", "debug", "info", "warn", "error", "off"}

  function LogLevelVerdict(world: World): Option<Verdict> {
    if world.logLevel.Some? && world.logLevel.value !in LOG_LEVELS then
      Some(Verdict(LOG_LEVEL, False, "LogLevelSupported",
                   "log level \"" + world.logLevel.value + "\" must be one of [debug, error, info, off, trace, warn]"))
    else None
  }

  predicate Digits(s: string) {
    forall c :: c in s ==> '0' <= c <= '9'
  }

  /** The regular expression `^(100%|[1-9][0-9]?%|[1-9][0-9]*)$` */
  predicate IsPercentOrWholeNumber(s: string) {
    || s == "100%"
    || (2 <= |s| <= 3 && s[|s| - 1] == '%' && Digits(s[..|s| - 1]) && s[0] != '0')
    || (|s| > 0 && Digits(s) && s[0] != '0')
  }

  function MaxUnavailableVerdict(world: World): Option<Verdict> {
    if world.maxUnavailable.Some? && !IsPercentOrWholeNumber(world.maxUnavailable.value) then
      Some(Verdict(MAX_UNAVAILABLE, False, "MaxUnavailableAnnotationSupported",
                   "max-unavailable-rollout value \"" + world.maxUnavailable.value + "\" must be an absolute number or a valid percentage"))
    else None
  }
}
