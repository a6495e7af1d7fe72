/** The generated configuration does not depend on the order in which a Go map hands over the inputs. */
module Determinism {
  import opened Api
  import opened Components
  import opened Migration

  /** The same inputs in any order; names are unique because the lists come out of a map keyed by name. */
  ghost predicate SameInputs(s: ForwarderSpec, t: ForwarderSpec) {
    && t == s.(inputs := t.inputs)
    && UniqueNames(s.inputs) && UniqueNames(t.inputs)
    && (forall i :: i in s.inputs <==> i in t.inputs)
  }

  lemma InputMapSame(s: ForwarderSpec, t: ForwarderSpec)
    requires SameInputs(s, t)
    ensures InputMap(s.inputs) == InputMap(t.inputs)
  {
    hide InputMap;
    var a, b := InputMap(s.inputs), InputMap(t.inputs);
    InputMapOfUnique(s.inputs);
    InputMapOfUnique(t.inputs);
    forall n | n in a ensures n in b && b[n] == a[n] {
      assert a[n] in t.inputs && a[n].name == n;
    }
    forall n | n in b ensures n in a {
      assert b[n] in s.inputs && b[n].name == n;
    }
  }

  lemma StagesSame(s: ForwarderSpec, t: ForwarderSpec, k: nat)
    requires SameInputs(s, t) && AllResolve(s) && k < |s.pipelines| && s.pipelines[k] in s.pipelines
    ensures Stages(s, k) == Stages(t, k)
  {
    hide SystemOrder, FactsOf, FilterMap, UniqueNames;
    var p := s.pipelines[k];
    assert InputSpecsOf(s.inputs, p.inputRefs) == InputSpecsOf(t.inputs, p.inputRefs);
    var a, b := Stages(s, k), Stages(t, k);
    forall j | 0 <= j < |a| ensures a[j] == b[j] {
      assert a[j] == StageAt(s, k, j) && b[j] == StageAt(t, k, j);
    }
  }

  lemma StageComponentsSame(s: ForwarderSpec, t: ForwarderSpec, k: nat)
    requires SameInputs(s, t) && AllResolve(s) && k < |s.pipelines| && s.pipelines[k] in s.pipelines
    ensures StageComponents(s, k) == StageComponents(t, k) && LastStage(s, k) == LastStage(t, k)
  {
    StagesSame(s, t, k);
    InputMapSame(s, t);
    hide Stages, UniqueNames, InputMap, FilterMap, UnsortedHeadInputs;
    var a, b := StageComponents(s, k), StageComponents(t, k);
    forall j | 0 <= j < |a| ensures a[j] == b[j] {
      assert a[j] == StageComponent(s, k, j) && b[j] == StageComponent(t, k, j);
    }
  }

  lemma {:induction false} OutputInputsSame(s: ForwarderSpec, t: ForwarderSpec, o: string, n: nat)
    requires SameInputs(s, t) && AllResolve(s) && n <= |s.pipelines|
    ensures OutputInputs(s, o, n) == OutputInputs(t, o, n)
  {
    hide LastStage, UniqueNames, FilterMap;
    if n > 0 {
      assert s.pipelines[n - 1] in s.pipelines;
      StageComponentsSame(s, t, n - 1);
      OutputInputsSame(s, t, o, n - 1);
    }
  }

  lemma TablesSame(s: ForwarderSpec, t: ForwarderSpec)
    requires SameInputs(s, t) && AllResolve(s)
    requires forall n :: n in PipelineIndexes(s.pipelines) ==> PipelineIndexes(s.pipelines)[n] < |s.pipelines|
    ensures PipelineTable(s, PipelineIndexes(s.pipelines)) == PipelineTable(t, PipelineIndexes(s.pipelines))
    ensures OutputTable(s, OutputMap(s.outputs)) == OutputTable(t, OutputMap(s.outputs))
  {
    hide StageComponents, OutputInputs, OutputComponents, UniqueNames, FilterMap;
    var indexes := PipelineIndexes(s.pipelines);
    forall n | n in indexes ensures StageComponents(s, indexes[n]) == StageComponents(t, indexes[n]) {
      StageComponentsSame(s, t, indexes[n]);
    }
    forall o | o in OutputMap(s.outputs) ensures OutputInputs(s, o, |s.pipelines|) == OutputInputs(t, o, |s.pipelines|) {
      OutputInputsSame(s, t, o, |s.pipelines|);
    }
  }

  /** Components, ids, edges and the failure to generate are the same for every order of the inputs. */
  lemma CompileSame(s: ForwarderSpec, t: ForwarderSpec)
    requires SameInputs(s, t)
    ensures Compile(s) == Compile(t)
  {
    hide Flatten, InputTable, PipelineTable, OutputTable, Assemble, SourcePanics, UniqueNames, InputMap, FilterMap;
    InputMapSame(s, t);
    if AllResolve(s) {
      PipelineIndexesInRange(s.pipelines);
      TablesSame(s, t);
      assert AllComponents(s) == AllComponents(t);
    }
  }

  /** Two migrations of one spec, walked in different map orders, generate the same configuration. */
  lemma MigrationOrderIrrelevant(spec: ForwarderSpec, forwarder: string, a: seq<InputSpec>, b: seq<InputSpec>)
    requires IsMigration(spec, forwarder, a) && IsMigration(spec, forwarder, b)
    ensures Compile(spec.(inputs := a)) == Compile(spec.(inputs := b))
  {
    MigrationsAgree(spec, forwarder, a, b);
    hide Migrated, MigrationPanics, Compile, UniqueNames;
    CompileSame(spec.(inputs := a), spec.(inputs := b));
  }
}
