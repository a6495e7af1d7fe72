/** Inputs as the rest of the operator sees them: reserved names filled in and receivers given a certificate secret. */
module Migration {
  import opened Wrappers
  import opened Api

  /** The input that a reserved name stands for. */
  function ReservedInput(name: string): InputSpec
    requires name in RESERVED
  {
    if name == APPLICATION then InputSpec(name, Application, Some(ApplicationSpec([], [], None)), None, None, None)
    else if name == INFRASTRUCTURE then InputSpec(name, Infrastructure, None, Some(InfrastructureSpec([NodeLogs, ContainerLogs], None)), None, None)
    else InputSpec(name, Audit, None, None, Some(AuditSpec([KubeAPI, OpenShiftAPI, Auditd, OVN])), None)
  }

  const RESERVED := {APPLICATION, INFRASTRUCTURE, AUDIT}

  function ReservedIn(refs: seq<string>): set<string> {
    set r | r in refs && r in RESERVED
  }

  function ReservedRefs(pipelines: seq<PipelineSpec>): (names: set<string>)
    ensures names <= RESERVED
  {
    if pipelines == [] then {} else ReservedRefs(pipelines[..|pipelines| - 1]) + ReservedIn(pipelines[|pipelines| - 1].inputRefs)
  }

  /** A referenced reserved name replaces whatever the spec defines under it. */
  function WithReserved(inputs: map<string, InputSpec>, reserved: set<string>): map<string, InputSpec>
    requires reserved <= RESERVED
  {
    map n | n in inputs.Keys + reserved :: if n in reserved then ReservedInput(n) else inputs[n]
  }

  /** A receiver without TLS settings reads its key and certificate from a secret named after forwarder and input. */
  function MigrateReceiver(i: InputSpec, forwarder: string): Outcome<InputSpec> {
    if i.kind != Receiver then Ok(i)
    else if i.receiver.None? then Panic
    else if i.receiver.value.tls.Some? then Ok(i)
    else Ok(i.(receiver := Some(i.receiver.value.(tls := Some(forwarder + "-" + i.name)))))
  }

  function Unmigrated(spec: ForwarderSpec): map<string, InputSpec> {
    WithReserved(InputMap(spec.inputs), ReservedRefs(spec.pipelines))
  }

  predicate MigrationPanics(spec: ForwarderSpec) {
    exists n :: n in Unmigrated(spec) && MigrateReceiver(Unmigrated(spec)[n], "").Panic?
  }

  function Migrated(spec: ForwarderSpec, forwarder: string): map<string, InputSpec>
    requires !MigrationPanics(spec)
  {
    map n | n in Unmigrated(spec) :: MigrateReceiver(Unmigrated(spec)[n], forwarder).value
  }

  /** `inputs` lists the values of `m`, whose keys are their names, in any order. */
  ghost predicate Lists(inputs: seq<InputSpec>, m: map<string, InputSpec>) {
    && UniqueNames(inputs)
    && (forall n :: n in m ==> m[n].name == n && m[n] in inputs)
    && (forall i :: i in inputs ==> i.name in m && m[i.name] == i)
  }

  ghost predicate IsMigration(spec: ForwarderSpec, forwarder: string, inputs: seq<InputSpec>) {
    !MigrationPanics(spec) && Lists(inputs, Migrated(spec, forwarder))
  }

  lemma UnmigratedNames(spec: ForwarderSpec, n: string)
    requires n in Unmigrated(spec)
    ensures Unmigrated(spec)[n].name == n
  {
    InputMapKeys(spec.inputs);
  }

  lemma ReserveOne(inputs: map<string, InputSpec>, reserved: set<string>, n: string)
    requires reserved <= RESERVED && n in RESERVED
    ensures WithReserved(inputs, reserved + {n}) == WithReserved(inputs, reserved)[n := ReservedInput(n)]
  {
    hide ReservedInput;
  }

  method AddReserved(inputs: map<string, InputSpec>, pipelines: seq<PipelineSpec>) returns (r: map<string, InputSpec>)
    ensures r == WithReserved(inputs, ReservedRefs(pipelines))
  {
    hide ReservedInput, WithReserved;
    r := inputs;
    NoneReserved(inputs);
    for k := 0 to |pipelines|
      invariant r == WithReserved(inputs, ReservedRefs(pipelines[..k]))
    {
      var refs := pipelines[k].inputRefs;
      ghost var before := ReservedRefs(pipelines[..k]);
      assert before + ReservedIn(refs[..0]) == before;
      for j := 0 to |refs|
        invariant r == WithReserved(inputs, before + ReservedIn(refs[..j]))
      {
        assert refs[..j + 1] == refs[..j] + [refs[j]];
        if refs[j] in RESERVED {
          r := r[refs[j] := ReservedInput(refs[j])];
          ReserveOne(inputs, before + ReservedIn(refs[..j]), refs[j]);
          assert before + ReservedIn(refs[..j + 1]) == before + ReservedIn(refs[..j]) + {refs[j]};
        } else {
          assert ReservedIn(refs[..j + 1]) == ReservedIn(refs[..j]);
        }
      }
      assert refs[..|refs|] == refs;
      assert pipelines[..k + 1][..k] == pipelines[..k];
    }
    assert pipelines[..|pipelines|] == pipelines;
  }

  lemma NoneReserved(inputs: map<string, InputSpec>)
    ensures WithReserved(inputs, {}) == inputs
  {
  }

  lemma ListsSnoc(inputs: seq<InputSpec>, m: map<string, InputSpec>, i: InputSpec)
    requires Lists(inputs, m) && i.name !in m
    ensures Lists(inputs + [i], m[i.name := i])
  {
    var more := inputs + [i];
    forall a, b | 0 <= a < b < |more| ensures more[a].name != more[b].name {
      assert more[a] in inputs;
    }
  }

  /** `MigrateInputs`; the list follows the order in which the map happens to be walked. */
  method MigrateInputs(spec: ForwarderSpec, forwarder: string) returns (r: Outcome<seq<InputSpec>>)
    ensures r.Panic? <==> MigrationPanics(spec)
    ensures r.Ok? ==> IsMigration(spec, forwarder, r.value)
  {
    hide Lists, UniqueNames;
    var inputs := AddReserved(InputMap(spec.inputs), spec.pipelines);
    var todo := inputs.Keys;
    var result: seq<InputSpec> := [];
    ghost var done: map<string, InputSpec> := map[];
    assert Lists([], map[]) by { NothingListed(); }
    hide WithReserved, ReservedInput;
    while todo != {}
      invariant todo <= inputs.Keys && done.Keys == inputs.Keys - todo
      invariant forall n :: n in done ==> MigrateReceiver(inputs[n], forwarder) == Ok(done[n])
      invariant Lists(result, done)
      decreases todo
    {
      var n :| n in todo;
      UnmigratedNames(spec, n);
      var i := MigrateReceiver(inputs[n], forwarder);
      if i.Panic? {
        return Panic;
      }
      ListsSnoc(result, done, i.value);
      result := result + [i.value];
      done := done[n := i.value];
      todo := todo - {n};
    }
    assert done.Keys == inputs.Keys;
    assert !MigrationPanics(spec);
    assert done == Migrated(spec, forwarder);
    r := Ok(result);
  }

  lemma NothingListed()
    ensures Lists([], map[])
  {
  }

  /** Two lists handed over for the same spec hold the same inputs. */
  lemma MigrationsAgree(spec: ForwarderSpec, forwarder: string, a: seq<InputSpec>, b: seq<InputSpec>)
    requires IsMigration(spec, forwarder, a) && IsMigration(spec, forwarder, b)
    ensures forall i :: i in a <==> i in b
  {
  }

  lemma ListsInputMap(inputs: seq<InputSpec>, m: map<string, InputSpec>)
    requires Lists(inputs, m)
    ensures InputMap(inputs) == m
  {
    InputMapOfUnique(inputs);
  }

  lemma MigratedIsFixed(spec: ForwarderSpec, forwarder: string, again: ForwarderSpec)
    requires !MigrationPanics(spec) && again.pipelines == spec.pipelines && InputMap(again.inputs) == Migrated(spec, forwarder)
    ensures Unmigrated(again) == Migrated(spec, forwarder)
  {
    var m := Migrated(spec, forwarder);
    forall n | n in ReservedRefs(spec.pipelines) ensures n in m && m[n] == ReservedInput(n) {
    }
  }

  lemma MigratedTwice(spec: ForwarderSpec, forwarder: string, again: ForwarderSpec)
    requires !MigrationPanics(spec) && Unmigrated(again) == Migrated(spec, forwarder)
    ensures !MigrationPanics(again) && Migrated(again, forwarder) == Migrated(spec, forwarder)
  {
    hide Unmigrated;
  }

  /** Migrating a migrated spec again changes no input. */
  lemma MigrationIdempotent(spec: ForwarderSpec, forwarder: string, once: seq<InputSpec>, twice: seq<InputSpec>)
    requires IsMigration(spec, forwarder, once)
    ensures !MigrationPanics(spec.(inputs := once))
    ensures IsMigration(spec.(inputs := once), forwarder, twice) ==> forall i :: i in once <==> i in twice
  {
    var again := spec.(inputs := once);
    ListsInputMap(once, Migrated(spec, forwarder));
    MigratedIsFixed(spec, forwarder, again);
    MigratedTwice(spec, forwarder, again);
    hide Migrated, MigrationPanics, InputMap, UniqueNames;
  }
}
