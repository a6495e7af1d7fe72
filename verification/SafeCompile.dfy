/** What the gate guarantees to the generator, and the one section it forgets to look at. */
module SafeCompile {
  import opened Wrappers
  import opened Api
  import opened Conditions
  import opened Components
  import opened Graph
  import opened Routes
  import opened Rank
  import opened Migration
  import opened Checks
  import opened Permissions
  import opened Gate
  import opened GateProofs

  /** The input reads container logs and has infrastructure tuning without a container section. */
  predicate TuningWithoutContainer(i: InputSpec) {
    && (i.kind == Application || (i.kind == Infrastructure && ContainerLogs in InfrastructureSources(i)))
    && i.infrastructure.Some? && i.infrastructure.value.tuning.Some? && i.infrastructure.value.tuning.value.container.None?
    && !(i.application.Some? && i.application.value.tuning.Some? && i.application.value.tuning.value.limit.Some?)
  }

  lemma ValidInputPanics(i: InputSpec, world: World)
    requires InputVerdict(i, world).status == True
    ensures SourcePanics(i) <==> TuningWithoutContainer(i)
  {
    hide GlobMessages, JoinWith, SourceNames, KindOf;
  }

  lemma PassingResolves(spec: ForwarderSpec)
    requires forall p :: p in spec.pipelines ==> PipelinePasses(p, spec)
    ensures AllResolve(spec)
  {
    hide FilterMap, OutputMap, InputMap;
  }

  /** Behind the gate, generation fails exactly on tuning without a container section. */
  lemma PassingCompiles(spec: ForwarderSpec, world: World)
    requires SpecPasses(spec, world) && UniqueNames(spec.inputs)
    ensures AllResolve(spec)
    ensures Compile(spec).Panic? <==> exists i :: i in spec.inputs && TuningWithoutContainer(i)
  {
    hide PipelinePasses, InputMap, AllComponents, SourcePanics, InputVerdict, TuningWithoutContainer, Permitted, OutputVerdict, FilterVerdict, UniqueNames;
    PassingResolves(spec);
    InputMapOfUnique(spec.inputs);
    forall i | i in spec.inputs ensures SourcePanics(i) <==> TuningWithoutContainer(i) {
      ValidInputPanics(i, world);
    }
    if i :| i in spec.inputs && TuningWithoutContainer(i) {
      assert i.name in InputMap(spec.inputs) && InputMap(spec.inputs)[i.name] == i;
    }
  }

  /** From the gate to the graph: a valid refresh is followed by a generated configuration without dangling edges. */
  lemma ValidSpecCompiles(prior: Status, spec: ForwarderSpec, name: string, world: World, now: int,
                          migrated: ForwarderSpec, order: seq<FilterSpec>, after: Status, a: string, b: string)
    requires Refreshed(prior, spec, name, world, now, migrated, order, true, after)
    requires UniqueStatus(prior) && UniqueSpec(spec)
    ensures Compile(migrated).Ok? <==> forall i :: i in migrated.inputs ==> !TuningWithoutContainer(i)
    ensures Compile(migrated).Ok? && Edge(Compile(migrated).value, a, b) ==>
              a in Compile(migrated).value.sources || a in Compile(migrated).value.transforms
  {
    GateExact(prior, spec, name, world, now, migrated, order, true, after);
    UniqueAfterMigration(spec, name, migrated);
    hide SpecPasses, Compile, TuningWithoutContainer, Refreshed, UniqueStatus, UniqueSpec, Edge, UniqueNames, UniquePipelines;
    PassingCompiles(migrated, world);
    if Compile(migrated).Ok? && Edge(Compile(migrated).value, a, b) {
      EdgesClosed(migrated, Compile(migrated).value, a, b);
    }
  }

  lemma UniqueAfterMigration(spec: ForwarderSpec, name: string, migrated: ForwarderSpec)
    requires migrated == spec.(inputs := migrated.inputs) && IsMigration(spec, name, migrated.inputs) && UniqueSpec(spec)
    ensures UniqueNames(migrated.inputs) && UniquePipelines(migrated)
  {
    hide Migrated, MigrationPanics;
    forall i, j | 0 <= i < j < |migrated.pipelines| ensures migrated.pipelines[i].name != migrated.pipelines[j].name {
      assert PipelineNames(spec.pipelines)[i] != PipelineNames(spec.pipelines)[j];
    }
  }

  /** An input that validation accepts and generation trips over. */
  lemma AcceptedYetPanics(world: World) returns (i: InputSpec)
    ensures InputVerdict(i, world).status == True && SourcePanics(i)
  {
    i := InputSpec("infra", Infrastructure, None, Some(InfrastructureSpec([], Some(InfrastructureTuning(None)))), None, None);
    assert InfrastructureSources(i) == [NodeLogs, ContainerLogs];
  }
}
