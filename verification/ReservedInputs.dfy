/** What migration makes of inputs, and that pipelines referring to a reserved name get all the logs it stands for. */
module ReservedInputs {
  import opened Wrappers
  import opened Api
  import opened Components
  import opened Routes
  import opened Distinctness
  import opened Migration
  import opened Checks
  import opened GateProofs
  import opened Selection
  import opened SelectionProofs
  import opened Sources
  import opened Provenance

  ghost predicate Referred(pipelines: seq<PipelineSpec>, name: string) {
    exists p :: p in pipelines && name in p.inputRefs
  }

  lemma {:induction false} ReservedReferred(pipelines: seq<PipelineSpec>, name: string)
    ensures name in ReservedRefs(pipelines) <==> name in RESERVED && Referred(pipelines, name)
  {
    if pipelines != [] {
      ReservedReferred(pipelines[..|pipelines| - 1], name);
      assert pipelines == pipelines[..|pipelines| - 1] + [pipelines[|pipelines| - 1]];
    }
  }

  /** Nothing is left out of what a reserved name stands for, and nothing is limited. */
  ghost predicate Everything(i: InputSpec) {
    && (i.name == "application" ==> i.kind == Application && i.application == Some(ApplicationSpec([], [], None)) && i.infrastructure.None?)
    && (i.name == "infrastructure" ==> i.kind == Infrastructure && i.infrastructure.Some? && i.application.None?
                                       && NodeLogs in i.infrastructure.value.sources && ContainerLogs in i.infrastructure.value.sources
                                       && i.infrastructure.value.tuning.None?)
    && (i.name == "audit" ==> i.kind == Audit && i.audit.Some? && forall a: AuditSource :: a in i.audit.value.sources)
  }

  /** Only a missing certificate of a receiver is filled in, with the secret of the forwarder and the input. */
  ghost predicate Completed(from: InputSpec, to: InputSpec, forwarder: string) {
    if from.kind == Receiver && from.receiver.Some? && from.receiver.value.tls.None? then
      && to == from.(receiver := to.receiver) && to.receiver.Some?
      && to.receiver.value == from.receiver.value.(tls := Some(forwarder + "-" + from.name))
    else to == from
  }

  lemma ReservedNames(name: string)
    ensures name in RESERVED <==> name == "application" || name == "infrastructure" || name == "audit"
  {
  }

  lemma ReservedEverything(name: string)
    requires name in RESERVED
    ensures ReservedInput(name).name == name && Everything(ReservedInput(name)) && ReservedInput(name).kind != Receiver
  {
    assert |APPLICATION| == 11 && |INFRASTRUCTURE| == 14 && |AUDIT| == 5;
    forall a: AuditSource ensures a in [KubeAPI, OpenShiftAPI, Auditd, OVN] {
      assert [KubeAPI, OpenShiftAPI, Auditd, OVN][match a case KubeAPI => 0 case OpenShiftAPI => 1 case Auditd => 2 case OVN => 3] == a;
    }
  }

  /**
   A migrated input is everything its reserved name stands for if a pipeline refers to it by that name, and otherwise the
   input of the spec, completed. The names are those of the spec and the reserved ones referred to.
   */
  lemma MigratedMeaning(spec: ForwarderSpec, forwarder: string, inputs: seq<InputSpec>)
    requires IsMigration(spec, forwarder, inputs)
    ensures forall i :: i in inputs ==>
              if i.name in RESERVED && Referred(spec.pipelines, i.name) then Everything(i)
              else exists from :: from in spec.inputs && from.name == i.name && Completed(from, i, forwarder)
    ensures forall n :: (exists i :: i in inputs && i.name == n) <==>
                        (n in RESERVED && Referred(spec.pipelines, n)) || exists from :: from in spec.inputs && from.name == n
  {
    InputMapKeys(spec.inputs);
    forall i | i in inputs
      ensures if i.name in RESERVED && Referred(spec.pipelines, i.name) then Everything(i)
              else exists from :: from in spec.inputs && from.name == i.name && Completed(from, i, forwarder)
    {
      MigratedOne(spec, forwarder, inputs, i);
    }
    hide Referred, Everything, Completed, ReservedInput, InputMap;
    forall n ensures (exists i :: i in inputs && i.name == n) <==>
                     (n in RESERVED && Referred(spec.pipelines, n)) || exists from :: from in spec.inputs && from.name == n
    {
      ReservedReferred(spec.pipelines, n);
      assert n in Migrated(spec, forwarder) <==> n in InputMap(spec.inputs) || n in ReservedRefs(spec.pipelines);
    }
  }

  lemma MigratedOne(spec: ForwarderSpec, forwarder: string, inputs: seq<InputSpec>, i: InputSpec)
    requires IsMigration(spec, forwarder, inputs) && i in inputs
    ensures if i.name in RESERVED && Referred(spec.pipelines, i.name) then Everything(i)
            else exists from :: from in spec.inputs && from.name == i.name && Completed(from, i, forwarder)
  {
    InputMapKeys(spec.inputs);
    ReservedReferred(spec.pipelines, i.name);
    hide Referred, Everything, ReservedInput, InputMap, ReservedRefs;
    var n := i.name;
    assert n in Unmigrated(spec) && MigrateReceiver(Unmigrated(spec)[n], forwarder) == Ok(i);
    if n in ReservedRefs(spec.pipelines) {
      ReservedEverything(n);
    } else {
      var from := InputMap(spec.inputs)[n];
      assert Completed(from, i, forwarder);
    }
  }

  lemma ReservedThere(spec: ForwarderSpec, forwarder: string, inputs: seq<InputSpec>, p: PipelineSpec, name: string)
    requires IsMigration(spec, forwarder, inputs) && p in spec.pipelines && name in p.inputRefs && name in RESERVED
    ensures ReservedInput(name) in inputs
  {
    assert Referred(spec.pipelines, name);
    ReservedReferred(spec.pipelines, name);
    ReservedEverything(name);
    hide Referred, Everything, ReservedInput, InputMap, ReservedRefs;
    assert Migrated(spec, forwarder)[name] == ReservedInput(name);
  }

  lemma MigratedUnique(spec: ForwarderSpec, forwarder: string, inputs: seq<InputSpec>)
    requires IsMigration(spec, forwarder, inputs)
    ensures UniqueNames(inputs)
  {
  }

  /** Referring to `audit` makes the collector read every audit log. */
  lemma AuditReadsAll(spec: ForwarderSpec, forwarder: string, migrated: ForwarderSpec, config: Config, p: PipelineSpec)
    requires migrated == spec.(inputs := migrated.inputs) && IsMigration(spec, forwarder, migrated.inputs)
    requires UniquePipelines(migrated) && NoClash(migrated) && Compile(migrated) == Ok(config)
    requires p in spec.pipelines && "audit" in p.inputRefs
    ensures ReadsFile(config, AUDITD_LOG) && ReadsFile(config, KUBE_API_LOG) && ReadsFile(config, OVN_LOG)
    ensures ReadsFile(config, OAUTH_API_LOG) && ReadsFile(config, OPENSHIFT_API_LOG) && ReadsFile(config, OAUTH_SERVER_LOG)
  {
    MigratedUnique(spec, forwarder, migrated.inputs);
    ReservedThere(spec, forwarder, migrated.inputs, p, AUDIT);
    ReservedEverything(AUDIT);
    hide UniquePipelines, NoClash, Compile, UniqueNames, IsMigration, ReadsFile, ReservedInput;
    AuditExact(migrated, config);
    forall a: AuditSource ensures SomeAsksAudit(migrated, a) {
      assert AsksAudit(ReservedInput(AUDIT), a);
    }
  }

  /** Referring to `infrastructure` makes it read the node logs and the container logs of infrastructure namespaces, but for the logging stack's. */
  lemma InfrastructureReadsAll(spec: ForwarderSpec, forwarder: string, world: World, migrated: ForwarderSpec, config: Config, p: PipelineSpec, f: LogFile)
    requires migrated == spec.(inputs := migrated.inputs) && IsMigration(spec, forwarder, migrated.inputs)
    requires SpecPasses(migrated, world) && UniquePipelines(migrated) && NoClash(migrated) && Compile(migrated) == Ok(config)
    requires p in spec.pipelines && "infrastructure" in p.inputRefs
    ensures Runs(config, Journald)
    ensures f.Valid() && IsInfra(f.ns) && !IsLoggingFile(f) ==> Collected(config, f.Path())
  {
    MigratedUnique(spec, forwarder, migrated.inputs);
    ReservedThere(spec, forwarder, migrated.inputs, p, INFRASTRUCTURE);
    InfrastructureShape(ReservedInput(INFRASTRUCTURE));
    hide UniquePipelines, NoClash, Compile, UniqueNames, IsMigration, ReservedInput, Runs, Collected, SpecPasses, IsLoggingFile, LogFile.Path, LogFile.Valid,
         AsksNodes, ReadsContainers;
    JournalExact(migrated, config);
    if f.Valid() && IsInfra(f.ns) && !IsLoggingFile(f) {
      CollectsExact(migrated, world, config, f);
      assert InputAsks(ReservedInput(INFRASTRUCTURE), f);
    }
  }

  lemma InfrastructureShape(i: InputSpec)
    requires i == ReservedInput(INFRASTRUCTURE)
    ensures i.kind == Infrastructure && AsksNodes(i) && ReadsContainers(i)
  {
    ReservedEverything(INFRASTRUCTURE);
    hide ReservedInput;
  }

  /** Referring to `application` makes it read the container logs of all other namespaces. */
  lemma ApplicationReadsAll(spec: ForwarderSpec, forwarder: string, world: World, migrated: ForwarderSpec, config: Config, p: PipelineSpec, f: LogFile)
    requires migrated == spec.(inputs := migrated.inputs) && IsMigration(spec, forwarder, migrated.inputs)
    requires SpecPasses(migrated, world) && UniquePipelines(migrated) && NoClash(migrated) && Compile(migrated) == Ok(config)
    requires p in spec.pipelines && "application" in p.inputRefs && f.Valid() && !IsInfra(f.ns)
    ensures Collected(config, f.Path())
  {
    MigratedUnique(spec, forwarder, migrated.inputs);
    ReservedThere(spec, forwarder, migrated.inputs, p, APPLICATION);
    ReservedKinds();
    hide UniquePipelines, NoClash, Compile, UniqueNames, IsMigration, ReservedInput, Collected, SpecPasses, IsLoggingFile, LogFile.Path, LogFile.Valid;
    LoggingIsInfra(f);
    Partition(f);
    InfrastructureSelects(f);
    ApplicationSelects(DEFAULT_APPLICATION, f);
    CollectsExact(migrated, world, config, f);
    assert InputAsks(ReservedInput(APPLICATION), f);
  }

  lemma LoggingIsInfra(f: LogFile)
    ensures IsLoggingFile(f) ==> IsInfra(f.ns)
  {
    assert IsLoggingFile(f) ==> InGroup(f.ns, OpenshiftGroup);
  }
}
