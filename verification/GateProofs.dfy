/** The gate is exact, forgets the past, keeps condition types unique, and moves transition times as it should but for one case. */
module GateProofs {
  import opened Wrappers
  import opened Api
  import opened Conditions
  import opened Migration
  import opened Checks
  import opened Permissions
  import opened Gate

  // -------- each list

  lemma KindInjective(l: ListName, a: string, b: string)
    requires KindOf(l, a) == KindOf(l, b)
    ensures a == b
  {
    hide Prefix;
    var head := Prefix(l) + "-";
    assert KindOf(l, a)[|head|..] == a && KindOf(l, b)[|head|..] == b;
  }

  lemma KindPrefix(l: ListName, name: string)
    ensures Prefix(l) <= KindOf(l, name)
  {
    hide Prefix;
  }

  lemma KindInList(l: ListName, names: seq<string>, name: string)
    ensures KindOf(l, name) in KindsOf(l, names) <==> name in names
  {
    hide KindOf;
    if KindOf(l, name) in KindsOf(l, names) {
      var k :| 0 <= k < |names| && KindOf(l, names[k]) == KindOf(l, name);
      KindInjective(l, names[k], name);
    }
    if name in names {
      var k :| 0 <= k < |names| && names[k] == name;
      assert KindsOf(l, names)[k] == KindOf(l, name);
    }
  }

  ghost predicate UniqueStrings(names: seq<string>) {
    forall i, j :: 0 <= i < j < |names| ==> names[i] != names[j]
  }

  /** Verdicts on the things called `names`, in this order, answer a pruning down to any of these names. */
  lemma NamedAnswers(l: ListName, names: seq<string>, persisted: seq<string>, vs: seq<Verdict>)
    requires UniqueStrings(names) && UniqueStrings(persisted) && forall n :: n in persisted ==> n in names
    requires |vs| == |names| && forall k {:trigger vs[k]} :: 0 <= k < |vs| ==> vs[k].kind == KindOf(l, names[k])
    ensures Answers(vs, KindsOf(l, persisted))
  {
    hide KindOf;
    forall i, j | 0 <= i < j < |vs| ensures vs[i].kind != vs[j].kind {
      if vs[i].kind == vs[j].kind { KindInjective(l, names[i], names[j]); }
    }
    var wanted := KindsOf(l, persisted);
    forall i, j | 0 <= i < j < |wanted| ensures wanted[i] != wanted[j] {
      if wanted[i] == wanted[j] { KindInjective(l, persisted[i], persisted[j]); }
    }
    forall w | w in wanted ensures exists v :: v in vs && v.kind == w {
      var k :| 0 <= k < |wanted| && wanted[k] == w;
      assert persisted[k] in names;
      var m :| 0 <= m < |names| && names[m] == persisted[k];
      assert vs[m] in vs && vs[m].kind == w;
    }
  }

  // -------- one refresh of the whole status

  ghost predicate UniqueStatus(s: Status) {
    Unique(s.conditions) && Unique(s.inputs) && Unique(s.outputs) && Unique(s.filters) && Unique(s.pipelines)
  }

  ghost predicate UniqueSpec(spec: ForwarderSpec) {
    && UniqueStrings(InputNames(spec.inputs)) && UniqueStrings(OutputNames(spec.outputs))
    && UniqueStrings(FilterNames(spec.filters)) && UniqueStrings(PipelineNames(spec.pipelines))
  }

  /** What pruning against the stored spec, migrating and validating make of a status. */
  ghost predicate Refreshed(prior: Status, spec: ForwarderSpec, name: string, world: World, now: int,
                            migrated: ForwarderSpec, order: seq<FilterSpec>, valid: bool, after: Status)
  {
    && migrated == spec.(inputs := migrated.inputs) && IsMigration(spec, name, migrated.inputs)
    && !PipelinesPanic(migrated.pipelines, migrated)
    && ListsFilters(order, FilterMap(spec.filters))
    && after.inputs == SetAll(Kept(prior.inputs, KindsOf(InputList, InputNames(spec.inputs))), InputVerdicts(migrated.inputs, world), now)
    && after.outputs == SetAll(Kept(prior.outputs, KindsOf(OutputList, OutputNames(spec.outputs))),
                               OutputVerdicts(spec.outputs, spec.pipelines, world), now)
    && after.filters == SetAll(Kept(prior.filters, KindsOf(FilterList, FilterNames(spec.filters))), FilterVerdicts(order, world), now)
    && after.pipelines == SetAll(Kept(prior.pipelines, KindsOf(PipelineList, PipelineNames(spec.pipelines))),
                                 PipelineVerdicts(migrated.pipelines, migrated), now)
    && (valid <==>
          && (exists c :: c in CheckedConditions(prior.conditions, migrated, world, now) && c.kind == AUTHORIZED && c.status == True)
          && AllTrue(after.inputs, Prefix(InputList), |migrated.inputs|)
          && AllTrue(after.outputs, Prefix(OutputList), |spec.outputs|)
          && AllTrue(after.pipelines, Prefix(PipelineList), |spec.pipelines|)
          && AllTrue(after.filters, Prefix(FilterList), |spec.filters|))
    && after.conditions == Set(CheckedConditions(prior.conditions, migrated, world, now), ValidVerdict(valid), now)
  }

  ghost predicate UniqueNamesOf(names: seq<string>, spec: ForwarderSpec) {
    UniqueStrings(names) && UniqueStrings(OutputNames(spec.outputs)) && UniqueStrings(FilterNames(spec.filters)) && UniqueStrings(PipelineNames(spec.pipelines))
  }

  ghost function Pruned(prior: Status, names: seq<string>, spec: ForwarderSpec): Status {
    Status(prior.conditions, Kept(prior.inputs, KindsOf(InputList, names)), Kept(prior.outputs, KindsOf(OutputList, OutputNames(spec.outputs))),
           Kept(prior.filters, KindsOf(FilterList, FilterNames(spec.filters))), Kept(prior.pipelines, KindsOf(PipelineList, PipelineNames(spec.pipelines))))
  }

  lemma KeptUnique(l: ListName, items: seq<Condition>, names: seq<string>)
    requires UniqueStrings(names) && Unique(items)
    ensures Unique(Kept(items, KindsOf(l, names)))
  {
    hide KindOf;
    var wanted := KindsOf(l, names);
    forall i, j | 0 <= i < j < |wanted| ensures wanted[i] != wanted[j] {
      if wanted[i] == wanted[j] { KindInjective(l, names[i], names[j]); }
    }
    KeptFind(items, wanted);
  }

  lemma PrunedUnique(prior: Status, spec: ForwarderSpec)
    ensures UniqueStatus(prior) && UniqueSpec(spec) ==> UniqueStatus(Pruned(prior, InputNames(spec.inputs), spec))
  {
    if UniqueStatus(prior) && UniqueSpec(spec) {
      PrunedNamesUnique(prior, InputNames(spec.inputs), spec);
    }
  }

  lemma PrunedNamesUnique(prior: Status, names: seq<string>, spec: ForwarderSpec)
    requires UniqueStatus(prior) && UniqueNamesOf(names, spec)
    ensures UniqueStatus(Pruned(prior, names, spec))
  {
    hide KindsOf, Kept, Unique, UniqueStrings;
    KeptUnique(InputList, prior.inputs, names);
    KeptUnique(OutputList, prior.outputs, OutputNames(spec.outputs));
    KeptUnique(FilterList, prior.filters, FilterNames(spec.filters));
    KeptUnique(PipelineList, prior.pipelines, PipelineNames(spec.pipelines));
  }

  /** What is written when the pipelines' check stops after `done` of them. */
  ghost function Partly(prior: Status, spec: ForwarderSpec, world: World, now: int, names: seq<string>, order: seq<FilterSpec>, done: nat): Status
    requires done <= |spec.pipelines| && !PipelinesPanic(spec.pipelines[..done], spec)
  {
    var pruned := Pruned(prior, names, spec);
    Status(CheckedConditions(prior.conditions, spec, world, now), SetAll(pruned.inputs, InputVerdicts(spec.inputs, world), now),
           SetAll(pruned.outputs, OutputVerdicts(spec.outputs, spec.pipelines, world), now), SetAll(pruned.filters, FilterVerdicts(order, world), now),
           SetAll(pruned.pipelines, PipelineVerdicts(spec.pipelines[..done], spec), now))
  }

  /** A refresh that runs into a filter without its section at pipeline `done`. */
  ghost predicate Stopped(prior: Status, spec: ForwarderSpec, name: string, world: World, now: int,
                          migrated: ForwarderSpec, order: seq<FilterSpec>, done: nat, after: Status)
  {
    && migrated == spec.(inputs := migrated.inputs) && IsMigration(spec, name, migrated.inputs)
    && ListsFilters(order, FilterMap(spec.filters))
    && done < |migrated.pipelines| && HostNamePanics(migrated.pipelines[done], migrated)
    && !PipelinesPanic(migrated.pipelines[..done], migrated)
    && after == Partly(prior, migrated, world, now, InputNames(spec.inputs), order, done)
  }

  lemma StoppedUnique(prior: Status, spec: ForwarderSpec, name: string, world: World, now: int,
                      migrated: ForwarderSpec, order: seq<FilterSpec>, done: nat, after: Status)
    requires Stopped(prior, spec, name, world, now, migrated, order, done, after)
    requires UniqueStatus(prior) && UniqueSpec(spec)
    ensures UniqueStatus(after)
  {
    hide Unique, UniqueStrings, KindsOf, Kept, CheckedConditions, SetAll, PipelinesPanic, HostNamePanics, ListsFilters, IsMigration;
    var pruned := Pruned(prior, InputNames(spec.inputs), migrated);
    PrunedNamesUnique(prior, InputNames(spec.inputs), migrated);
    AuthorizedExact(prior.conditions, migrated, world, now);
    SetAllKinds(pruned.inputs, InputVerdicts(migrated.inputs, world), now);
    SetAllKinds(pruned.outputs, OutputVerdicts(migrated.outputs, migrated.pipelines, world), now);
    SetAllKinds(pruned.filters, FilterVerdicts(order, world), now);
    SetAllKinds(pruned.pipelines, PipelineVerdicts(migrated.pipelines[..done], migrated), now);
  }

  /** Migration has looked into the sections of all receivers already. */
  lemma MigratedReceivers(spec: ForwarderSpec, name: string, migrated: ForwarderSpec)
    requires IsMigration(spec, name, migrated.inputs)
    ensures !ReadsSectionlessReceiver(migrated)
  {
    hide InputMap, ReservedRefs, ReservedInput, RefersTo;
    forall i | i in migrated.inputs ensures i.kind == Receiver ==> i.receiver.Some? {
      assert i.name in Migrated(spec, name) && Migrated(spec, name)[i.name] == i;
    }
  }

  /** `removeStaleStatuses`, `initialize` and `validateForwarder` in a row; a nil section of the spec stops it. */
  method Refresh(f: Forwarder, world: World, now: int) returns (r: Outcome<bool>, ghost order: seq<FilterSpec>, ghost done: nat)
    requires f.Valid()
    modifies f`spec, f.Lists()
    ensures r.Panic? <==> MigrationPanics(old(f.spec)) || PipelinesPanic(f.spec.pipelines, f.spec)
    ensures !MigrationPanics(old(f.spec)) ==> f.spec == old(f.spec).(inputs := f.spec.inputs) && IsMigration(old(f.spec), f.name, f.spec.inputs)
    ensures r.Ok? ==> Refreshed(old(f.Snapshot()), old(f.spec), f.name, world, now, f.spec, order, r.value, f.Snapshot())
    ensures MigrationPanics(old(f.spec)) ==> f.Snapshot() == Pruned(old(f.Snapshot()), InputNames(old(f.spec).inputs), old(f.spec))
    ensures r.Panic? && !MigrationPanics(old(f.spec)) ==>
              Stopped(old(f.Snapshot()), old(f.spec), f.name, world, now, f.spec, order, done, f.Snapshot())
  {
    hide MigrationPanics, PipelinesPanic, SetAll, Kept, InputVerdicts, OutputVerdicts, FilterVerdicts, PipelineVerdicts, CheckedConditions,
         AllTrue, IsMigration, Prefix, KindsOf, FilterMap, ListsFilters, Set, ValidVerdict, HostNamePanics,
         InputNames, OutputNames, FilterNames, PipelineNames;
    order, done := [], 0;
    f.RemoveStaleStatuses();
    var init := f.Initialize();
    if init.Panic? {
      return Panic, order, done;
    }
    assert !MigrationPanics(old(f.spec));
    MigratedReceivers(old(f.spec), f.name, f.spec);
    var permissions := f.ValidateConditions(world, now);
    ValidateInputs(f.inputConditions, f.spec.inputs, world, now);
    ValidateOutputs(f.outputConditions, f.spec.outputs, f.spec.pipelines, world, now);
    FilterMapKeys(f.spec.filters);
    order := ValidateFilters(f.filterConditions, FilterMap(f.spec.filters), world, now);
    var checked;
    checked, done := ValidatePipelines(f.pipelineConditions, f.spec, now);
    if checked.Panic? {
      return Panic, order, done;
    }
    var valid := f.IsValidSpec();
    var changed := f.conditions.SetCondition(ValidVerdict(valid), now);
    r := Ok(valid);
  }

  // -------- missing sections

  /** With the sections that admission asks for, a refresh never stops short. */
  lemma AdmittedNeverPanics(spec: ForwarderSpec, name: string, inputs: seq<InputSpec>)
    requires Admitted(spec)
    ensures !MigrationPanics(spec)
    ensures IsMigration(spec, name, inputs) ==> !PipelinesPanic(spec.pipelines, spec.(inputs := inputs))
  {
    InputMapKeys(spec.inputs);
    FilterMapKeys(spec.filters);
    hide ReservedRefs, InputMap, FilterMap, OutputMap;
    forall n | n in Unmigrated(spec) ensures MigrateReceiver(Unmigrated(spec)[n], "").Ok? {
      ReservedNoReceiver(n);
      if n !in ReservedRefs(spec.pipelines) {
        assert InputMap(spec.inputs)[n] in spec.inputs;
      }
    }
    forall f ensures !Unsectioned(f, spec) {
      assert f in FilterMap(spec.filters) ==> FilterMap(spec.filters)[f] in spec.filters;
    }
  }

  lemma ReservedNoReceiver(n: string)
    ensures n in RESERVED ==> ReservedInput(n).kind != Receiver
  {
  }

  /** A prune filter without its section, in front of Google Cloud Logging, stops the check of the pipelines. */
  lemma SectionlessPruneStops(body: string) returns (spec: ForwarderSpec)
    ensures !MigrationPanics(spec) && PipelinesPanic(spec.pipelines, spec)
  {
    var f, o := FilterSpec("ff", Prune, None, body), OutputSpec("oo", GoogleCloudLogging, None, body);
    var p := PipelineSpec("pp", [], ["oo"], ["ff"]);
    spec := ForwarderSpec([], [o], [f], [p]);
    FilterMapKeys(spec.filters);
    OutputMapKeys(spec.outputs);
    assert f in spec.filters && o in spec.outputs && p in spec.pipelines;
    hide FilterMap, OutputMap;
    assert Unsectioned("ff", spec) && ToGoogle("oo", spec);
    assert "ff" in p.filterRefs && "oo" in p.outputRefs;
    assert HostNamePanics(p, spec);
    NothingToMigrate(spec, p);
  }

  lemma NothingToMigrate(spec: ForwarderSpec, p: PipelineSpec)
    requires spec.inputs == [] && spec.pipelines == [p] && p.inputRefs == []
    ensures !MigrationPanics(spec)
  {
    assert spec.pipelines[..0] == [];
    assert ReservedRefs([]) == {} && ReservedRefs(spec.pipelines) == {};
  }

  /** A receiver input without its section stops migration. */
  lemma SectionlessReceiverStops(name: string) returns (spec: ForwarderSpec)
    requires name !in RESERVED
    ensures MigrationPanics(spec)
  {
    var i := InputSpec(name, Receiver, None, None, None, None);
    spec := ForwarderSpec([i], [], [], []);
    InputMapKeys(spec.inputs);
    assert i in spec.inputs && name in Unmigrated(spec);
    assert MigrateReceiver(Unmigrated(spec)[name], "").Panic?;
  }

  // -------- the verdicts, list by list

  lemma InputsAnswer(spec: ForwarderSpec, name: string, inputs: seq<InputSpec>, world: World)
    requires UniqueStrings(InputNames(spec.inputs)) && IsMigration(spec, name, inputs)
    ensures Answers(InputVerdicts(inputs, world), KindsOf(InputList, InputNames(spec.inputs)))
  {
    hide KindOf, InputVerdict;
    var names := InputNames(inputs);
    InputMapKeys(spec.inputs);
    forall n | n in InputNames(spec.inputs) ensures n in names {
      var k :| 0 <= k < |spec.inputs| && spec.inputs[k].name == n;
      assert spec.inputs[k] in spec.inputs && n in Migrated(spec, name);
      var m :| 0 <= m < |inputs| && inputs[m] == Migrated(spec, name)[n];
      assert names[m] == n;
    }
    forall k | 0 <= k < |inputs| ensures InputVerdict(inputs[k], world).kind == KindOf(InputList, names[k]) {
      InputVerdictKind(inputs[k], world);
    }
    NamedAnswers(InputList, names, InputNames(spec.inputs), InputVerdicts(inputs, world));
  }

  lemma InputVerdictKind(i: InputSpec, world: World)
    ensures InputVerdict(i, world).kind == KindOf(InputList, i.name)
  {
    hide KindOf, GlobMessages, JoinWith, SourceNames, TuningMisplaced;
  }

  lemma OutputsAnswer(spec: ForwarderSpec, world: World)
    requires UniqueStrings(OutputNames(spec.outputs))
    ensures Answers(OutputVerdicts(spec.outputs, spec.pipelines, world), KindsOf(OutputList, OutputNames(spec.outputs)))
  {
    hide KindOf;
    NamedAnswers(OutputList, OutputNames(spec.outputs), OutputNames(spec.outputs), OutputVerdicts(spec.outputs, spec.pipelines, world));
  }

  lemma FiltersAnswer(spec: ForwarderSpec, order: seq<FilterSpec>, world: World)
    requires UniqueStrings(FilterNames(spec.filters)) && ListsFilters(order, FilterMap(spec.filters))
    ensures Answers(FilterVerdicts(order, world), KindsOf(FilterList, FilterNames(spec.filters)))
    ensures (forall f :: f in order <==> f in spec.filters) && |order| == |spec.filters|
  {
    hide KindOf;
    var names := FilterNames(order);
    FilterMapUnique(spec.filters);
    forall n | n in FilterNames(spec.filters) ensures n in names {
      var k :| 0 <= k < |spec.filters| && spec.filters[k].name == n;
      var m :| 0 <= m < |order| && order[m] == FilterMap(spec.filters)[n];
      assert names[m] == n;
    }
    SameLength(order, spec.filters);
    NamedAnswers(FilterList, names, FilterNames(spec.filters), FilterVerdicts(order, world));
  }

  lemma {:induction false} FilterMapUnique(filters: seq<FilterSpec>)
    requires UniqueStrings(FilterNames(filters))
    ensures forall f :: f in filters ==> f.name in FilterMap(filters) && FilterMap(filters)[f.name] == f
    ensures forall n :: n in FilterMap(filters) ==> FilterMap(filters)[n] in filters
  {
    if filters != [] {
      var init, last := filters[..|filters| - 1], filters[|filters| - 1];
      assert filters == init + [last];
      forall i, j | 0 <= i < j < |init| ensures init[i].name != init[j].name {
        assert FilterNames(filters)[i] != FilterNames(filters)[j];
      }
      FilterMapUnique(init);
      forall f | f in init ensures f.name != last.name {
        var k :| 0 <= k < |init| && init[k] == f;
        assert FilterNames(filters)[k] != FilterNames(filters)[|init|];
      }
    }
  }

  lemma SameLength(a: seq<FilterSpec>, b: seq<FilterSpec>)
    requires (forall i, j :: 0 <= i < j < |a| ==> a[i].name != a[j].name) && UniqueStrings(FilterNames(b))
    requires forall f :: f in a <==> f in b
    ensures |a| == |b|
  {
    forall i, j | 0 <= i < j < |b| ensures b[i] != b[j] {
      assert FilterNames(b)[i] != FilterNames(b)[j];
    }
    ElementsCount(a);
    ElementsCount(b);
    assert (set f | f in a) == (set f | f in b);
  }

  lemma {:induction false} ElementsCount<T>(s: seq<T>)
    requires forall i, j :: 0 <= i < j < |s| ==> s[i] != s[j]
    ensures |set x | x in s| == |s|
  {
    if s != [] {
      var init, last := s[..|s| - 1], s[|s| - 1];
      ElementsCount(init);
      assert s == init + [last];
      assert (set x | x in s) == (set x | x in init) + {last};
    }
  }

  lemma PipelinesAnswer(migrated: ForwarderSpec)
    requires UniqueStrings(PipelineNames(migrated.pipelines)) && !PipelinesPanic(migrated.pipelines, migrated)
    ensures Answers(PipelineVerdicts(migrated.pipelines, migrated), KindsOf(PipelineList, PipelineNames(migrated.pipelines)))
  {
    hide KindOf, PipelinesPanic;
    NamedAnswers(PipelineList, PipelineNames(migrated.pipelines), PipelineNames(migrated.pipelines), PipelineVerdicts(migrated.pipelines, migrated));
  }

  // -------- pipelines

  lemma {:induction false} GatheredNone(pipelines: seq<PipelineSpec>, spec: ForwarderSpec)
    requires !PipelinesPanic(pipelines, spec)
    ensures Gathered(pipelines, spec) == [] <==> forall p :: p in pipelines ==> PipelinePasses(p, spec)
  {
    hide PipelinePasses, PipelineMessages, HostNamePanics;
    if pipelines != [] {
      var init, last := pipelines[..|pipelines| - 1], pipelines[|pipelines| - 1];
      assert pipelines == init + [last];
      assert last in pipelines;
      GatheredNone(init, spec);
      MessagesExact(last, spec);
    }
  }

  /**
   Complaints leak into later pipelines: a pipeline is reported True exactly when it and all pipelines before it pass.
   */
  lemma {:induction false} PipelineLeak(pipelines: seq<PipelineSpec>, spec: ForwarderSpec, k: nat)
    requires !PipelinesPanic(pipelines, spec) && k < |pipelines|
    ensures PipelineVerdicts(pipelines, spec)[k].status == True <==> forall j :: 0 <= j <= k ==> PipelinePasses(pipelines[j], spec)
  {
    hide PipelinePasses, HostNamePanics;
    var n := |pipelines| - 1;
    if k < n {
      PipelineLeak(pipelines[..n], spec, k);
      assert forall j :: 0 <= j <= k ==> pipelines[..n][j] == pipelines[j];
    } else {
      GatheredNone(pipelines, spec);
    }
  }

  lemma AllPipelinesTrue(spec: ForwarderSpec)
    requires !PipelinesPanic(spec.pipelines, spec)
    ensures (forall v :: v in PipelineVerdicts(spec.pipelines, spec) ==> v.status == True) <==>
            forall p :: p in spec.pipelines ==> PipelinePasses(p, spec)
  {
    hide PipelinePasses, PipelineVerdicts, PipelinesPanic;
    var vs := PipelineVerdicts(spec.pipelines, spec);
    forall k | 0 <= k < |vs| ensures vs[k].status == True <==> forall j :: 0 <= j <= k ==> PipelinePasses(spec.pipelines[j], spec) {
      PipelineLeak(spec.pipelines, spec, k);
    }
    forall p | (forall v :: v in vs ==> v.status == True) && p in spec.pipelines ensures PipelinePasses(p, spec) {
      var k :| 0 <= k < |spec.pipelines| && spec.pipelines[k] == p;
      assert vs[k] in vs;
    }
  }

  // -------- authorization

  lemma RemoveElsewhere(items: seq<Condition>, kind: string, v: Option<Verdict>, now: int)
    requires Unique(items) && (v.Some? ==> v.value.kind == kind)
    ensures Unique(SetOrRemove(items, kind, v, now))
  {
    WithoutFind(items, kind);
    if v.Some? {
      SetUnique(items, v.value, now);
    }
  }

  lemma AnnotationsUnique(items: seq<Condition>, world: World, now: int)
    requires Unique(items)
    ensures Unique(AnnotationConditions(items, world, now))
  {
    var levels := SetOrRemove(items, LOG_LEVEL, LogLevelVerdict(world), now);
    RemoveElsewhere(items, LOG_LEVEL, LogLevelVerdict(world), now);
    RemoveElsewhere(levels, MAX_UNAVAILABLE, MaxUnavailableVerdict(world), now);
    hide SetOrRemove, LogLevelVerdict, MaxUnavailableVerdict;
  }

  lemma AuthorizedExact(items: seq<Condition>, spec: ForwarderSpec, world: World, now: int)
    requires Unique(items)
    ensures (exists c :: c in CheckedConditions(items, spec, world, now) && c.kind == AUTHORIZED && c.status == True) <==> Permitted(spec, world)
    ensures Unique(CheckedConditions(items, spec, world, now))
  {
    AnnotationsUnique(items, world, now);
    var both := AnnotationConditions(items, world, now);
    hide AnnotationConditions;
    AccessExact(spec, world);
    hide AccessVerdict, Permitted;
    var v := AccessVerdict(spec, world);
    SetUnique(both, v, now);
    SetFind(both, v, now, AUTHORIZED);
    FindIn(Set(both, v, now), AUTHORIZED);
    forall c | c in Set(both, v, now) && c.kind == AUTHORIZED ensures c.status == v.status {
      FindUnique(Set(both, v, now), c);
    }
  }

  // -------- the gate

  /** Every part of the spec passes the check of its own. */
  ghost predicate SpecPasses(spec: ForwarderSpec, world: World) {
    && Permitted(spec, world)
    && (forall i :: i in spec.inputs ==> InputVerdict(i, world).status == True)
    && (forall o :: o in spec.outputs ==> OutputVerdict(o, spec.pipelines, world).status == True)
    && (forall f :: f in spec.filters ==> FilterVerdict(f, world).status == True)
    && (forall p :: p in spec.pipelines ==> PipelinePasses(p, spec))
  }

  /** The gate is exact, whatever the status held before. */
  lemma GateExact(prior: Status, spec: ForwarderSpec, name: string, world: World, now: int,
                  migrated: ForwarderSpec, order: seq<FilterSpec>, valid: bool, after: Status)
    requires Refreshed(prior, spec, name, world, now, migrated, order, valid, after)
    requires UniqueStatus(prior) && UniqueSpec(spec)
    ensures valid <==> SpecPasses(migrated, world)
  {
    hide AllTrue, SetAll, Kept, CheckedConditions, Permitted, InputVerdict, OutputVerdict, FilterVerdict, PipelinePasses, Prefix,
         KindsOf, FilterMap, ListsFilters, IsMigration, PipelinesPanic, Set, Unique, UniqueStrings,
         InputVerdicts, OutputVerdicts, FilterVerdicts, PipelineVerdicts, ValidVerdict;
    AuthorizedExact(prior.conditions, migrated, world, now);
    InputsExact(prior.inputs, spec, name, migrated.inputs, world, now);
    OutputsExact(prior.outputs, spec, world, now);
    FiltersExact(prior.filters, spec, order, world, now);
    PipelinesExact(prior.pipelines, migrated, now);
  }

  lemma InputsExact(prior: seq<Condition>, spec: ForwarderSpec, name: string, inputs: seq<InputSpec>, world: World, now: int)
    requires Unique(prior) && UniqueStrings(InputNames(spec.inputs)) && IsMigration(spec, name, inputs)
    ensures AllTrue(SetAll(Kept(prior, KindsOf(InputList, InputNames(spec.inputs))), InputVerdicts(inputs, world), now), Prefix(InputList), |inputs|)
            <==> forall i :: i in inputs ==> InputVerdict(i, world).status == True
  {
    InputsAnswer(spec, name, inputs, world);
    hide AllTrue, SetAll, Kept, Answers, InputVerdict, KindOf, Prefix, IsMigration;
    var vs := InputVerdicts(inputs, world);
    forall k | 0 <= k < |vs| ensures Prefix(InputList) <= vs[k].kind {
      InputVerdictKind(inputs[k], world);
      KindPrefix(InputList, inputs[k].name);
    }
    ListGate(prior, KindsOf(InputList, InputNames(spec.inputs)), vs, Prefix(InputList), now);
    forall i | (forall v :: v in vs ==> v.status == True) && i in inputs ensures InputVerdict(i, world).status == True {
      var k :| 0 <= k < |inputs| && inputs[k] == i;
      assert vs[k] in vs;
    }
  }

  lemma OutputsExact(prior: seq<Condition>, spec: ForwarderSpec, world: World, now: int)
    requires Unique(prior) && UniqueStrings(OutputNames(spec.outputs))
    ensures AllTrue(SetAll(Kept(prior, KindsOf(OutputList, OutputNames(spec.outputs))), OutputVerdicts(spec.outputs, spec.pipelines, world), now),
                    Prefix(OutputList), |spec.outputs|)
            <==> forall o :: o in spec.outputs ==> OutputVerdict(o, spec.pipelines, world).status == True
  {
    OutputsAnswer(spec, world);
    hide AllTrue, SetAll, Kept, Answers, KindOf, Prefix;
    var vs := OutputVerdicts(spec.outputs, spec.pipelines, world);
    forall k | 0 <= k < |vs| ensures Prefix(OutputList) <= vs[k].kind {
      KindPrefix(OutputList, spec.outputs[k].name);
    }
    hide OutputVerdict;
    ListGate(prior, KindsOf(OutputList, OutputNames(spec.outputs)), vs, Prefix(OutputList), now);
    forall o | (forall v :: v in vs ==> v.status == True) && o in spec.outputs ensures OutputVerdict(o, spec.pipelines, world).status == True {
      var k :| 0 <= k < |spec.outputs| && spec.outputs[k] == o;
      assert vs[k] in vs;
    }
  }

  lemma FiltersExact(prior: seq<Condition>, spec: ForwarderSpec, order: seq<FilterSpec>, world: World, now: int)
    requires Unique(prior) && UniqueStrings(FilterNames(spec.filters)) && ListsFilters(order, FilterMap(spec.filters))
    ensures AllTrue(SetAll(Kept(prior, KindsOf(FilterList, FilterNames(spec.filters))), FilterVerdicts(order, world), now),
                    Prefix(FilterList), |spec.filters|)
            <==> forall f :: f in spec.filters ==> FilterVerdict(f, world).status == True
  {
    FiltersAnswer(spec, order, world);
    hide AllTrue, SetAll, Kept, Answers, KindOf, Prefix, FilterMap, ListsFilters;
    var vs := FilterVerdicts(order, world);
    forall k | 0 <= k < |vs| ensures Prefix(FilterList) <= vs[k].kind {
      KindPrefix(FilterList, order[k].name);
    }
    hide FilterVerdict;
    ListGate(prior, KindsOf(FilterList, FilterNames(spec.filters)), vs, Prefix(FilterList), now);
    forall f | (forall v :: v in vs ==> v.status == True) && f in spec.filters ensures FilterVerdict(f, world).status == True {
      assert f in order;
      var k :| 0 <= k < |order| && order[k] == f;
      assert vs[k] in vs;
    }
  }

  lemma PipelinesExact(prior: seq<Condition>, spec: ForwarderSpec, now: int)
    requires Unique(prior) && UniqueStrings(PipelineNames(spec.pipelines)) && !PipelinesPanic(spec.pipelines, spec)
    ensures AllTrue(SetAll(Kept(prior, KindsOf(PipelineList, PipelineNames(spec.pipelines))), PipelineVerdicts(spec.pipelines, spec), now),
                    Prefix(PipelineList), |spec.pipelines|)
            <==> forall p :: p in spec.pipelines ==> PipelinePasses(p, spec)
  {
    PipelinesAnswer(spec);
    AllPipelinesTrue(spec);
    hide AllTrue, SetAll, Kept, Answers, KindOf, Prefix, PipelineVerdicts, PipelinePasses, PipelinesPanic;
    var vs := PipelineVerdicts(spec.pipelines, spec);
    forall k | 0 <= k < |vs| ensures Prefix(PipelineList) <= vs[k].kind {
      KindPrefix(PipelineList, spec.pipelines[k].name);
    }
    ListGate(prior, KindsOf(PipelineList, PipelineNames(spec.pipelines)), vs, Prefix(PipelineList), now);
  }

  /** Condition types stay unique, so the gate's requirement on the status is one it keeps up itself. */
  lemma TypesStayUnique(prior: Status, spec: ForwarderSpec, name: string, world: World, now: int,
                        migrated: ForwarderSpec, order: seq<FilterSpec>, valid: bool, after: Status)
    requires Refreshed(prior, spec, name, world, now, migrated, order, valid, after)
    requires UniqueStatus(prior) && UniqueSpec(spec)
    ensures UniqueStatus(after)
  {
    hide AllTrue, SetAll, Kept, CheckedConditions, Permitted, Prefix, KindsOf, FilterMap, ListsFilters, IsMigration, PipelinesPanic, Unique,
         Answers, Kinds, Set;
    AuthorizedExact(prior.conditions, migrated, world, now);
    SetUnique(CheckedConditions(prior.conditions, migrated, world, now), ValidVerdict(valid), now);
    ListsAnswer(spec, name, world, migrated, order);
    RefreshedKinds(prior.inputs, KindsOf(InputList, InputNames(spec.inputs)), InputVerdicts(migrated.inputs, world), now);
    RefreshedKinds(prior.outputs, KindsOf(OutputList, OutputNames(spec.outputs)), OutputVerdicts(spec.outputs, spec.pipelines, world), now);
    RefreshedKinds(prior.filters, KindsOf(FilterList, FilterNames(spec.filters)), FilterVerdicts(order, world), now);
    RefreshedKinds(prior.pipelines, KindsOf(PipelineList, PipelineNames(spec.pipelines)), PipelineVerdicts(migrated.pipelines, migrated), now);
  }

  lemma ListsAnswer(spec: ForwarderSpec, name: string, world: World, migrated: ForwarderSpec, order: seq<FilterSpec>)
    requires migrated == spec.(inputs := migrated.inputs) && IsMigration(spec, name, migrated.inputs)
    requires !PipelinesPanic(migrated.pipelines, migrated) && ListsFilters(order, FilterMap(spec.filters)) && UniqueSpec(spec)
    ensures Answers(InputVerdicts(migrated.inputs, world), KindsOf(InputList, InputNames(spec.inputs)))
    ensures Answers(OutputVerdicts(spec.outputs, spec.pipelines, world), KindsOf(OutputList, OutputNames(spec.outputs)))
    ensures Answers(FilterVerdicts(order, world), KindsOf(FilterList, FilterNames(spec.filters)))
    ensures Answers(PipelineVerdicts(migrated.pipelines, migrated), KindsOf(PipelineList, PipelineNames(spec.pipelines)))
  {
    hide Answers, KindsOf, FilterMap, ListsFilters, IsMigration, PipelinesPanic;
    InputsAnswer(spec, name, migrated.inputs, world);
    OutputsAnswer(spec, world);
    FiltersAnswer(spec, order, world);
    PipelinesAnswer(migrated);
  }

  // -------- the past does not matter

  /** A condition list without its times. */
  ghost function Contents(items: seq<Condition>): set<Verdict> {
    set c | c in items :: Verdict(c.kind, c.status, c.reason, c.message)
  }

  lemma RefreshedContents(prior: seq<Condition>, wanted: seq<string>, vs: seq<Verdict>, now: int)
    requires Unique(prior) && Answers(vs, wanted)
    ensures Contents(SetAll(Kept(prior, wanted), vs, now)) == set v | v in vs
  {
    hide SetAll, Kept, Unique, Answers;
    var items := SetAll(Kept(prior, wanted), vs, now);
    forall c | c in items ensures Verdict(c.kind, c.status, c.reason, c.message) in vs {
      var v := RefreshedCondition(prior, wanted, vs, now, c);
    }
    forall v | v in vs ensures v in Contents(items) {
      var c := RefreshedVerdict(prior, wanted, vs, now, v);
      assert Verdict(c.kind, c.status, c.reason, c.message) in Contents(items);
    }
  }

  lemma {:induction false} SameComplaints(pipelines: seq<PipelineSpec>, a: ForwarderSpec, b: ForwarderSpec)
    requires b == a.(inputs := b.inputs) && InputMap(a.inputs) == InputMap(b.inputs)
    requires !PipelinesPanic(pipelines, a) && !PipelinesPanic(pipelines, b)
    ensures Gathered(pipelines, a) == Gathered(pipelines, b) && PipelineVerdicts(pipelines, a) == PipelineVerdicts(pipelines, b)
  {
    hide HostNamePanics, InputMap, Judge;
    if pipelines != [] {
      var n := |pipelines| - 1;
      assert pipelines[n] in pipelines;
      SameMessages(pipelines[n], pipelines[n].outputRefs, a, b);
      SameComplaints(pipelines[..n], a, b);
    }
  }

  lemma {:induction false} SameMessages(p: PipelineSpec, outputRefs: seq<string>, a: ForwarderSpec, b: ForwarderSpec)
    requires b == a.(inputs := b.inputs) && InputMap(a.inputs) == InputMap(b.inputs)
    requires !HostNamePanics(p, a) && !HostNamePanics(p, b) && forall o :: o in outputRefs ==> o in p.outputRefs
    ensures GoogleMessages(p, outputRefs, a) == GoogleMessages(p, outputRefs, b)
    ensures RefMessages(p, a) == RefMessages(p, b)
  {
    hide InputMap, OutputMap, FilterMap;
    if outputRefs != [] {
      SameMessages(p, outputRefs[..|outputRefs| - 1], a, b);
      if ToGoogle(outputRefs[|outputRefs| - 1], a) {
        assert outputRefs[|outputRefs| - 1] in outputRefs;
        SameHostName(p.filterRefs, outputRefs[|outputRefs| - 1], a, b);
      }
    }
  }

  lemma {:induction false} SameHostName(refs: seq<string>, o: string, a: ForwarderSpec, b: ForwarderSpec)
    requires b == a.(inputs := b.inputs) && (forall f :: f in refs ==> !Unsectioned(f, a)) && forall f :: f in refs ==> !Unsectioned(f, b)
    ensures HostNameMessages(refs, o, a) == HostNameMessages(refs, o, b)
  {
    hide FilterMap, PruneText, PrunesHostName;
    if refs != [] {
      SameHostName(refs[..|refs| - 1], o, a, b);
    }
  }

  /**
   Two refreshes of one spec in one world agree on validity and on everything the lists say, whatever status, clock and
   map orders they started from.
   */
  lemma HistoryFree(prior1: Status, prior2: Status, spec: ForwarderSpec, name: string, world: World, now1: int, now2: int,
                    migrated1: ForwarderSpec, migrated2: ForwarderSpec, order1: seq<FilterSpec>, order2: seq<FilterSpec>,
                    valid1: bool, valid2: bool, after1: Status, after2: Status)
    requires Refreshed(prior1, spec, name, world, now1, migrated1, order1, valid1, after1)
    requires Refreshed(prior2, spec, name, world, now2, migrated2, order2, valid2, after2)
    requires UniqueStatus(prior1) && UniqueStatus(prior2) && UniqueSpec(spec)
    ensures valid1 == valid2
    ensures Contents(after1.inputs) == Contents(after2.inputs) && Contents(after1.outputs) == Contents(after2.outputs)
    ensures Contents(after1.filters) == Contents(after2.filters) && Contents(after1.pipelines) == Contents(after2.pipelines)
  {
    ContentsGiven(prior1, spec, name, world, now1, migrated1, order1, valid1, after1);
    ContentsGiven(prior2, spec, name, world, now2, migrated2, order2, valid2, after2);
    GateExact(prior1, spec, name, world, now1, migrated1, order1, valid1, after1);
    GateExact(prior2, spec, name, world, now2, migrated2, order2, valid2, after2);
    SamePieces(spec, name, world, migrated1, migrated2, order1, order2);
  }

  lemma ContentsGiven(prior: Status, spec: ForwarderSpec, name: string, world: World, now: int,
                      migrated: ForwarderSpec, order: seq<FilterSpec>, valid: bool, after: Status)
    requires Refreshed(prior, spec, name, world, now, migrated, order, valid, after)
    requires UniqueStatus(prior) && UniqueSpec(spec)
    ensures migrated == spec.(inputs := migrated.inputs) && IsMigration(spec, name, migrated.inputs)
    ensures ListsFilters(order, FilterMap(spec.filters)) && !PipelinesPanic(migrated.pipelines, migrated)
    ensures Contents(after.inputs) == set v | v in InputVerdicts(migrated.inputs, world)
    ensures Contents(after.outputs) == set v | v in OutputVerdicts(spec.outputs, spec.pipelines, world)
    ensures Contents(after.filters) == set v | v in FilterVerdicts(order, world)
    ensures Contents(after.pipelines) == set v | v in PipelineVerdicts(migrated.pipelines, migrated)
  {
    hide AllTrue, SetAll, Kept, CheckedConditions, KindsOf, FilterMap, ListsFilters, IsMigration, PipelinesPanic, Unique, Answers, Kinds, Set;
    ListsAnswer(spec, name, world, migrated, order);
    RefreshedContents(prior.inputs, KindsOf(InputList, InputNames(spec.inputs)), InputVerdicts(migrated.inputs, world), now);
    RefreshedContents(prior.outputs, KindsOf(OutputList, OutputNames(spec.outputs)), OutputVerdicts(spec.outputs, spec.pipelines, world), now);
    RefreshedContents(prior.filters, KindsOf(FilterList, FilterNames(spec.filters)), FilterVerdicts(order, world), now);
    RefreshedContents(prior.pipelines, KindsOf(PipelineList, PipelineNames(spec.pipelines)), PipelineVerdicts(migrated.pipelines, migrated), now);
  }

  lemma VerdictsOfMembers(a: seq<InputSpec>, b: seq<InputSpec>, world: World)
    requires forall i :: i in a ==> i in b
    ensures forall v :: v in InputVerdicts(a, world) ==> v in InputVerdicts(b, world)
  {
    hide InputVerdict;
    forall k | 0 <= k < |a| ensures InputVerdict(a[k], world) in InputVerdicts(b, world) {
      assert a[k] in b;
      var m :| 0 <= m < |b| && b[m] == a[k];
      assert InputVerdicts(b, world)[m] == InputVerdict(a[k], world);
    }
  }

  lemma FilterVerdictsOfMembers(a: seq<FilterSpec>, b: seq<FilterSpec>, world: World)
    requires forall f :: f in a ==> f in b
    ensures forall v :: v in FilterVerdicts(a, world) ==> v in FilterVerdicts(b, world)
  {
    hide FilterVerdict;
    forall k | 0 <= k < |a| ensures FilterVerdict(a[k], world) in FilterVerdicts(b, world) {
      assert a[k] in b;
      var m :| 0 <= m < |b| && b[m] == a[k];
      assert FilterVerdicts(b, world)[m] == FilterVerdict(a[k], world);
    }
  }

  lemma SamePieces(spec: ForwarderSpec, name: string, world: World, m1: ForwarderSpec, m2: ForwarderSpec,
                   order1: seq<FilterSpec>, order2: seq<FilterSpec>)
    requires m1 == spec.(inputs := m1.inputs) && m2 == spec.(inputs := m2.inputs)
    requires IsMigration(spec, name, m1.inputs) && IsMigration(spec, name, m2.inputs)
    requires ListsFilters(order1, FilterMap(spec.filters)) && ListsFilters(order2, FilterMap(spec.filters))
    requires !PipelinesPanic(m1.pipelines, m1) && !PipelinesPanic(m2.pipelines, m2)
    ensures (set v | v in InputVerdicts(m1.inputs, world)) == set v | v in InputVerdicts(m2.inputs, world)
    ensures (set v | v in FilterVerdicts(order1, world)) == set v | v in FilterVerdicts(order2, world)
    ensures PipelineVerdicts(m1.pipelines, m1) == PipelineVerdicts(m2.pipelines, m2)
    ensures SpecPasses(m1, world) <==> SpecPasses(m2, world)
  {
    MigrationsAgree(spec, name, m1.inputs, m2.inputs);
    ListsInputMap(m1.inputs, Migrated(spec, name));
    ListsInputMap(m2.inputs, Migrated(spec, name));
    assert forall f :: f in order1 <==> f in order2;
    hide PipelinesPanic, ListsFilters, IsMigration, FilterMap, InputMap, InputVerdict, FilterVerdict, OutputVerdict, PipelineVerdicts;
    VerdictsOfMembers(m1.inputs, m2.inputs, world);
    VerdictsOfMembers(m2.inputs, m1.inputs, world);
    FilterVerdictsOfMembers(order1, order2, world);
    FilterVerdictsOfMembers(order2, order1, world);
    SameComplaints(spec.pipelines, m1, m2);
    SamePermissions(m1, m2, world);
    SamePipelines(m1, m2);
  }

  lemma SamePermissions(a: ForwarderSpec, b: ForwarderSpec, world: World)
    requires b == a.(inputs := b.inputs) && forall i :: i in a.inputs <==> i in b.inputs
    ensures Permitted(a, world) <==> Permitted(b, world)
  {
    hide CollectedBy;
    forall t | t in RESERVED ensures Collects(a, t) <==> Collects(b, t) {
    }
  }

  lemma SamePipelines(a: ForwarderSpec, b: ForwarderSpec)
    requires b == a.(inputs := b.inputs) && InputMap(a.inputs) == InputMap(b.inputs)
    ensures forall p :: PipelinePasses(p, a) <==> PipelinePasses(p, b)
  {
    hide InputMap, OutputMap, FilterMap;
  }

  // -------- transition times

  lemma OutputKind(o: OutputSpec, pipelines: seq<PipelineSpec>, world: World)
    ensures OutputVerdict(o, pipelines, world).kind == KindOf(OutputList, o.name)
  {
  }

  lemma FilterKind(f: FilterSpec, world: World)
    ensures FilterVerdict(f, world).kind == KindOf(FilterList, f.name)
  {
  }

  /** Times of outputs, filters and pipelines move exactly when the status flips. */
  lemma OutputTimes(prior: Status, spec: ForwarderSpec, name: string, world: World, now: int,
                    migrated: ForwarderSpec, order: seq<FilterSpec>, valid: bool, after: Status, o: OutputSpec)
    requires Refreshed(prior, spec, name, world, now, migrated, order, valid, after)
    requires UniqueStatus(prior) && UniqueSpec(spec) && o in spec.outputs
    ensures var v := OutputVerdict(o, spec.pipelines, world); Find(after.outputs, v.kind) == Some(Stamp(v, Since(prior.outputs, v, now)))
  {
    hide AllTrue, SetAll, Kept, CheckedConditions, FilterMap, ListsFilters, IsMigration, PipelinesPanic, Unique, Kinds, Set, Since, OutputVerdict, KindsOf;
    OutputsAnswer(spec, world);
    var k :| 0 <= k < |spec.outputs| && spec.outputs[k] == o;
    OutputKind(o, spec.pipelines, world);
    assert OutputNames(spec.outputs)[k] == o.name;
    KindInList(OutputList, OutputNames(spec.outputs), o.name);
    assert OutputVerdicts(spec.outputs, spec.pipelines, world)[k] == OutputVerdict(o, spec.pipelines, world);
    TransitionTime(prior.outputs, KindsOf(OutputList, OutputNames(spec.outputs)), OutputVerdicts(spec.outputs, spec.pipelines, world), now,
                   OutputVerdict(o, spec.pipelines, world));
  }

  lemma FilterTimes(prior: Status, spec: ForwarderSpec, name: string, world: World, now: int,
                    migrated: ForwarderSpec, order: seq<FilterSpec>, valid: bool, after: Status, f: FilterSpec)
    requires Refreshed(prior, spec, name, world, now, migrated, order, valid, after)
    requires UniqueStatus(prior) && UniqueSpec(spec) && f in spec.filters
    ensures var v := FilterVerdict(f, world); Find(after.filters, v.kind) == Some(Stamp(v, Since(prior.filters, v, now)))
  {
    hide AllTrue, SetAll, Kept, CheckedConditions, FilterMap, ListsFilters, IsMigration, PipelinesPanic, Unique, Kinds, Set, Since, FilterVerdict, KindsOf;
    FiltersAnswer(spec, order, world);
    var m :| 0 <= m < |order| && order[m] == f;
    FilterKind(f, world);
    assert FilterVerdicts(order, world)[m] == FilterVerdict(f, world);
    var k :| 0 <= k < |spec.filters| && spec.filters[k] == f;
    assert FilterNames(spec.filters)[k] == f.name;
    KindInList(FilterList, FilterNames(spec.filters), f.name);
    TransitionTime(prior.filters, KindsOf(FilterList, FilterNames(spec.filters)), FilterVerdicts(order, world), now, FilterVerdict(f, world));
  }

  lemma PipelineTimes(prior: Status, spec: ForwarderSpec, name: string, world: World, now: int,
                      migrated: ForwarderSpec, order: seq<FilterSpec>, valid: bool, after: Status, k: nat)
    requires Refreshed(prior, spec, name, world, now, migrated, order, valid, after)
    requires UniqueStatus(prior) && UniqueSpec(spec) && k < |spec.pipelines|
    ensures var v := PipelineVerdicts(migrated.pipelines, migrated)[k];
            Find(after.pipelines, v.kind) == Some(Stamp(v, Since(prior.pipelines, v, now)))
  {
    hide AllTrue, SetAll, Kept, CheckedConditions, FilterMap, ListsFilters, IsMigration, PipelinesPanic, Unique, Kinds, Set, Since, KindsOf, PipelineVerdicts;
    PipelinesAnswer(migrated);
    assert PipelineNames(spec.pipelines)[k] == spec.pipelines[k].name;
    KindInList(PipelineList, PipelineNames(spec.pipelines), spec.pipelines[k].name);
    TransitionTime(prior.pipelines, KindsOf(PipelineList, PipelineNames(spec.pipelines)), PipelineVerdicts(migrated.pipelines, migrated), now,
                   PipelineVerdicts(migrated.pipelines, migrated)[k]);
  }

  /**
   Times of inputs do so exactly for inputs that the stored spec lists. A reserved input that pipelines only refer to is
   pruned and set anew each time, so its time is always now.
   */
  lemma InputTimes(prior: Status, spec: ForwarderSpec, name: string, world: World, now: int,
                   migrated: ForwarderSpec, order: seq<FilterSpec>, valid: bool, after: Status, i: InputSpec)
    requires Refreshed(prior, spec, name, world, now, migrated, order, valid, after)
    requires UniqueStatus(prior) && UniqueSpec(spec) && i in migrated.inputs
    ensures Find(after.inputs, KindOf(InputList, i.name)) ==
            Some(Stamp(InputVerdict(i, world),
                       if i.name in InputNames(spec.inputs) then Since(prior.inputs, InputVerdict(i, world), now) else now))
  {
    hide AllTrue, SetAll, Kept, CheckedConditions, FilterMap, ListsFilters, IsMigration, PipelinesPanic, Unique, Kinds, Set, Since, InputVerdict, KindsOf;
    ListsAnswer(spec, name, world, migrated, order);
    var v := InputVerdict(i, world);
    InputVerdictKind(i, world);
    var k :| 0 <= k < |migrated.inputs| && migrated.inputs[k] == i;
    assert InputVerdicts(migrated.inputs, world)[k] == v;
    KindInList(InputList, InputNames(spec.inputs), i.name);
    TransitionTime(prior.inputs, KindsOf(InputList, InputNames(spec.inputs)), InputVerdicts(migrated.inputs, world), now, v);
  }

  /** So the time of such an input moves although its status stays. */
  lemma ReservedInputTimeMoves(prior: Status, spec: ForwarderSpec, name: string, world: World, now: int,
                               migrated: ForwarderSpec, order: seq<FilterSpec>, valid: bool, after: Status, i: InputSpec, c: Condition)
    requires Refreshed(prior, spec, name, world, now, migrated, order, valid, after)
    requires UniqueStatus(prior) && UniqueSpec(spec) && i in migrated.inputs && i.name !in InputNames(spec.inputs)
    requires Find(prior.inputs, KindOf(InputList, i.name)) == Some(c) && c.status == InputVerdict(i, world).status && c.since != now
    ensures Find(after.inputs, KindOf(InputList, i.name)).Some?
    ensures Find(after.inputs, KindOf(InputList, i.name)).value.status == c.status
    ensures Find(after.inputs, KindOf(InputList, i.name)).value.since != c.since
  {
    hide Refreshed, UniqueStatus, UniqueSpec, KindOf, InputVerdict;
    InputTimes(prior, spec, name, world, now, migrated, order, valid, after, i);
  }

  // -------- the forwarder's own conditions

  lemma OwnTypesDiffer()
    ensures AUTHORIZED != VALID && AUTHORIZED != READY && VALID != READY && LOG_LEVEL != MAX_UNAVAILABLE
    ensures LOG_LEVEL !in {AUTHORIZED, VALID, READY} && MAX_UNAVAILABLE !in {AUTHORIZED, VALID, READY}
  {
    assert |AUTHORIZED| == 37 && |VALID| == 32 && |READY| == 5 && |LOG_LEVEL| == 35 && |MAX_UNAVAILABLE| == 51;
  }

  lemma WithoutAt(items: seq<Condition>, gone: string, kind: string)
    requires Unique(items)
    ensures Find(Without(items, gone), kind) == if kind == gone then None else Find(items, kind)
  {
    WithoutFind(items, gone);
    FindIn(items, kind);
    FindIn(Without(items, gone), kind);
    if kind != gone && Find(items, kind).Some? {
      FindUnique(Without(items, gone), Find(items, kind).value);
    }
  }

  lemma SetOrRemoveAt(items: seq<Condition>, own: string, v: Option<Verdict>, now: int, kind: string)
    requires Unique(items) && (v.Some? ==> v.value.kind == own)
    ensures Find(SetOrRemove(items, own, v, now), kind) ==
            if kind != own then Find(items, kind)
            else if v.None? then None else Some(Stamp(v.value, Since(items, v.value, now)))
  {
    if v.Some? {
      SetFind(items, v.value, now, kind);
    } else {
      WithoutAt(items, own, kind);
    }
  }

  /** What a condition that is set while there is something to report, and removed otherwise, looks like afterwards. */
  function Reported(items: seq<Condition>, v: Option<Verdict>, now: int): Option<Condition> {
    if v.None? then None else Some(Stamp(v.value, Since(items, v.value, now)))
  }

  lemma AnnotationsAt(items: seq<Condition>, world: World, now: int, kind: string)
    requires Unique(items)
    ensures Find(AnnotationConditions(items, world, now), kind) ==
            if kind == LOG_LEVEL then Reported(items, LogLevelVerdict(world), now)
            else if kind == MAX_UNAVAILABLE then Reported(items, MaxUnavailableVerdict(world), now)
            else Find(items, kind)
  {
    OwnTypesDiffer();
    var level, unavailable := LogLevelVerdict(world), MaxUnavailableVerdict(world);
    AnnotationKinds(world);
    hide LogLevelVerdict, MaxUnavailableVerdict;
    var levels := SetOrRemove(items, LOG_LEVEL, level, now);
    SetOrRemoveAt(items, LOG_LEVEL, level, now, kind);
    SetOrRemoveAt(items, LOG_LEVEL, level, now, MAX_UNAVAILABLE);
    RemoveElsewhere(items, LOG_LEVEL, level, now);
    SetOrRemoveAt(levels, MAX_UNAVAILABLE, unavailable, now, kind);
    hide SetOrRemove;
  }

  lemma AnnotationKinds(world: World)
    ensures LogLevelVerdict(world).Some? ==> LogLevelVerdict(world).value.kind == LOG_LEVEL
    ensures MaxUnavailableVerdict(world).Some? ==> MaxUnavailableVerdict(world).value.kind == MAX_UNAVAILABLE
  {
  }

  lemma CheckedAt(items: seq<Condition>, spec: ForwarderSpec, world: World, now: int, kind: string)
    requires Unique(items)
    ensures Find(CheckedConditions(items, spec, world, now), kind) ==
            if kind == AUTHORIZED then Reported(items, Some(AccessVerdict(spec, world)), now)
            else if kind == LOG_LEVEL then Reported(items, LogLevelVerdict(world), now)
            else if kind == MAX_UNAVAILABLE then Reported(items, MaxUnavailableVerdict(world), now)
            else Find(items, kind)
  {
    hide Set, AnnotationConditions, LogLevelVerdict, MaxUnavailableVerdict, Unique;
    OwnTypesDiffer();
    AccessExact(spec, world);
    hide AccessVerdict, Permitted;
    AnnotationsAt(items, world, now, kind);
    AnnotationsAt(items, world, now, AUTHORIZED);
    hide Find, Reported;
    SetLater(items, AnnotationConditions(items, world, now), AccessVerdict(spec, world), now, kind);
  }

  /**
   The forwarder's own conditions after a refresh. Authorized and Valid keep their time as long as their status stays; the
   two annotation conditions do so while the annotation stays wrong and are gone otherwise; nothing else is touched.
   */
  lemma OwnTimes(prior: Status, spec: ForwarderSpec, name: string, world: World, now: int,
                 migrated: ForwarderSpec, order: seq<FilterSpec>, valid: bool, after: Status, kind: string)
    requires Refreshed(prior, spec, name, world, now, migrated, order, valid, after) && UniqueStatus(prior)
    ensures Find(after.conditions, kind) ==
            if kind == AUTHORIZED then Reported(prior.conditions, Some(AccessVerdict(migrated, world)), now)
            else if kind == VALID then Reported(prior.conditions, Some(ValidVerdict(valid)), now)
            else if kind == LOG_LEVEL then Reported(prior.conditions, LogLevelVerdict(world), now)
            else if kind == MAX_UNAVAILABLE then Reported(prior.conditions, MaxUnavailableVerdict(world), now)
            else Find(prior.conditions, kind)
  {
    var checked := CheckedConditions(prior.conditions, migrated, world, now);
    assert after.conditions == Set(checked, ValidVerdict(valid), now);
    ValidKind(valid);
    hide Refreshed, Set, CheckedConditions, LogLevelVerdict, MaxUnavailableVerdict, AccessVerdict, ValidVerdict, Reported, Find;
    OwnTypesDiffer();
    CheckedAt(prior.conditions, migrated, world, now, kind);
    CheckedAt(prior.conditions, migrated, world, now, VALID);
    SetLater(prior.conditions, checked, ValidVerdict(valid), now, kind);
  }

  lemma ValidKind(valid: bool)
    ensures ValidVerdict(valid).kind == VALID
  {
  }

  /** Setting a verdict on a list in which its type has not been touched yet. */
  lemma SetLater(items: seq<Condition>, later: seq<Condition>, v: Verdict, now: int, kind: string)
    requires Find(later, v.kind) == Find(items, v.kind)
    ensures Find(Set(later, v, now), kind) == if kind == v.kind then Reported(items, Some(v), now) else Find(later, kind)
  {
    SetFind(later, v, now, kind);
  }

  /**
   An annotation that is put right and then spoiled again is reported with a new time, although its condition was False
   each time it was there.
   */
  lemma SpoiledAgain(prior: Status, spec: ForwarderSpec, name: string, world: World, now: int,
                     migrated: ForwarderSpec, order: seq<FilterSpec>, valid: bool, after: Status,
                     stored: Status, spec2: ForwarderSpec, world2: World, now2: int,
                     migrated2: ForwarderSpec, order2: seq<FilterSpec>, valid2: bool, after2: Status)
    requires Refreshed(prior, spec, name, world, now, migrated, order, valid, after) && UniqueStatus(prior)
    requires Find(stored.conditions, LOG_LEVEL) == Find(after.conditions, LOG_LEVEL) && UniqueStatus(stored)
    requires Refreshed(stored, spec2, name, world2, now2, migrated2, order2, valid2, after2)
    requires LogLevelVerdict(world).None? && LogLevelVerdict(world2).Some?
    ensures Find(after2.conditions, LOG_LEVEL) == Some(Stamp(LogLevelVerdict(world2).value, now2))
  {
    hide Refreshed, UniqueStatus, LogLevelVerdict, MaxUnavailableVerdict, AccessVerdict;
    OwnTypesDiffer();
    AnnotationKinds(world2);
    OwnTimes(prior, spec, name, world, now, migrated, order, valid, after, LOG_LEVEL);
    OwnTimes(stored, spec2, name, world2, now2, migrated2, order2, valid2, after2, LOG_LEVEL);
  }

  // -------- the stored status

  /** A merge patch leaves out empty lists, so an emptied list keeps what was stored. */
  function MergeList(stored: seq<Condition>, written: seq<Condition>): seq<Condition> {
    if written == [] then stored else written
  }

  function Merge(stored: Status, written: Status): Status {
    Status(MergeList(stored.conditions, written.conditions), MergeList(stored.inputs, written.inputs), MergeList(stored.outputs, written.outputs),
           MergeList(stored.filters, written.filters), MergeList(stored.pipelines, written.pipelines))
  }

  /** The stored status keeps its types unique. */
  lemma MergeUnique(stored: Status, written: Status)
    requires UniqueStatus(stored) && UniqueStatus(written)
    ensures UniqueStatus(Merge(stored, written))
  {
  }

  /** Conditions of filters that are gone stay behind exactly when none is left to write. */
  lemma StaleFilterConditions(prior: Status, spec: ForwarderSpec, name: string, world: World, now: int,
                              migrated: ForwarderSpec, order: seq<FilterSpec>, valid: bool, after: Status)
    requires Refreshed(prior, spec, name, world, now, migrated, order, valid, after)
    requires UniqueStatus(prior) && UniqueSpec(spec)
    ensures Merge(prior, after).filters != after.filters <==> spec.filters == [] && prior.filters != []
  {
    hide SetAll, Kept, CheckedConditions, AllTrue, Unique, Answers, Kinds, KindsOf, FilterVerdict, FilterMap, PipelinesPanic, IsMigration, ListsFilters;
    FiltersAnswer(spec, order, world);
    RefreshedKinds(prior.filters, KindsOf(FilterList, FilterNames(spec.filters)), FilterVerdicts(order, world), now);
  }
}
