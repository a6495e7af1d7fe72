/** What the verdicts of the gate mean for the generated configuration, and which annotations it accepts. */
module Verdicts {
  import opened Wrappers
  import opened Ids
  import opened Api
  import opened Components
  import opened Routes
  import opened Distinctness
  import opened Traces
  import opened Conditions
  import opened Migration
  import opened Checks
  import opened Permissions
  import opened Gate
  import opened GateProofs
  import opened Provenance
  import opened SystemFilter
  import opened SourceChains

  // -------- inputs

  predicate LimitsMessages(i: InputSpec) {
    && i.infrastructure.Some? && i.infrastructure.value.tuning.Some? && i.infrastructure.value.tuning.value.container.Some?
    && i.infrastructure.value.tuning.value.container.value.maxMessageSize.Some?
  }

  /** An infrastructure input limits the size of container messages only where it has container logs. */
  lemma InfrastructureAccepted(i: InputSpec, world: World)
    requires i.kind == Infrastructure
    ensures InputVerdict(i, world).status == True <==> i.infrastructure.Some? && (LimitsMessages(i) ==> AsksContainers(i))
  {
    hide KindOf, JoinWith, SourceNames;
  }

  lemma AuditAccepted(i: InputSpec, world: World)
    requires i.kind == Audit
    ensures InputVerdict(i, world).status == True <==> i.audit.Some?
  {
    hide KindOf, JoinWith, SourceNames;
  }

  /** An HTTP receiver names its format, and the key and certificate of a receiver, if it names them, can be used. */
  lemma ReceiverAccepted(i: InputSpec, world: World)
    requires i.kind == Receiver
    ensures InputVerdict(i, world).status == True <==>
            && i.receiver.Some?
            && (i.receiver.value.kind == HTTP ==> i.receiver.value.format.Some? && i.receiver.value.format.value != "")
            && (i.receiver.value.tls.Some? ==> world.receiverMessages(i) == [])
  {
    hide KindOf, JoinWith, SourceNames;
  }

  // -------- outputs and filters

  lemma JudgedTrue(l: ListName, name: string, what: string, messages: seq<string>)
    ensures Judge(l, name, what, messages).status == True <==> messages == []
  {
    hide KindOf, JoinWith;
  }

  /** An output is accepted exactly when some pipeline delivers to it and its settings draw no complaint. */
  lemma OutputAccepted(o: OutputSpec, pipelines: seq<PipelineSpec>, world: World)
    ensures OutputVerdict(o, pipelines, world).status == True <==>
            && world.outputMessages(o) == [] && world.laterOutputMessages(o) == []
            && exists k, m :: 0 <= k < |pipelines| && 0 <= m < |pipelines[k].outputRefs| && pipelines[k].outputRefs[m] == o.name
  {
    var reference := if Referenced(o, pipelines) then [] else ["not referenced by any pipeline"];
    JudgedTrue(OutputList, o.name, "output", world.outputMessages(o) + reference + world.laterOutputMessages(o));
    hide Judge;
    if k, m :| 0 <= k < |pipelines| && 0 <= m < |pipelines[k].outputRefs| && pipelines[k].outputRefs[m] == o.name {
      assert pipelines[k] in pipelines && o.name in pipelines[k].outputRefs;
    }
    if Referenced(o, pipelines) {
      var p :| p in pipelines && o.name in p.outputRefs;
      var k :| 0 <= k < |pipelines| && pipelines[k] == p;
      var m :| 0 <= m < |p.outputRefs| && p.outputRefs[m] == o.name;
    }
  }

  lemma FilterAccepted(f: FilterSpec, world: World)
    ensures FilterVerdict(f, world).status == True <==> world.filterMessages(f) == []
  {
    JudgedTrue(FilterList, f.name, "filter", world.filterMessages(f));
  }

  lemma SectionGivesChain(i: InputSpec)
    requires HasOwnSection(i)
    ensures InputChains(i) != []
  {
    ChainAsked(i);
    hide InputChains, SelectorOf, AuditPaths;
    match i.kind {
      case Application => assert AsksContainers(i);
      case Infrastructure =>
        var sources := i.infrastructure.value.sources;
        if sources == [] || sources[0] == ContainerLogs {
          assert AsksContainers(i);
        } else {
          assert AsksNodes(i);
        }
      case Audit =>
        var sources := i.audit.value.sources;
        assert AsksAudit(i, if sources == [] then Auditd else sources[0]);
      case Receiver => assert Listens(i, i.receiver.value.kind, i.receiver.value.port);
    }
  }

  /** Behind the gate records flow to every output, provided pipelines name an input, as the API asks of them. */
  lemma OutputsReached(spec: ForwarderSpec, world: World, config: Config, o: OutputSpec) returns (trace: seq<Label>)
    requires SpecPasses(spec, world) && UniquePipelines(spec) && NoClash(spec) && Compile(spec) == Ok(config)
    requires o in spec.outputs && UniqueStrings(OutputNames(spec.outputs)) && forall p :: p in spec.pipelines ==> p.inputRefs != []
    ensures IsTrace(config, trace) && trace != [] && trace[|trace| - 1] == Sink(o)
  {
    var k := DeliveringPipeline(spec, world, o);
    PassingSections(spec, world);
    PassingInputs(spec, world, spec.pipelines[k]);
    OutputMapUnique(spec.outputs);
    InputMapKeys(spec.inputs);
    hide *;
    trace := TraceTo(spec, config, k, o);
  }

  lemma DeliveringPipeline(spec: ForwarderSpec, world: World, o: OutputSpec) returns (k: nat)
    requires SpecPasses(spec, world) && o in spec.outputs
    ensures k < |spec.pipelines| && spec.pipelines[k] in spec.pipelines && o.name in spec.pipelines[k].outputRefs
  {
    hide Permitted, InputVerdict, OutputVerdict, FilterVerdict, PipelinePasses;
    OutputAccepted(o, spec.pipelines, world);
    var i: nat, m: nat :| i < |spec.pipelines| && m < |spec.pipelines[i].outputRefs| && spec.pipelines[i].outputRefs[m] == o.name;
    k := i;
  }

  lemma TraceTo(spec: ForwarderSpec, config: Config, k: nat, o: OutputSpec) returns (trace: seq<Label>)
    requires UniquePipelines(spec) && NoClash(spec) && Compile(spec) == Ok(config)
    requires k < |spec.pipelines| && o.name in spec.pipelines[k].outputRefs && o.name in OutputMap(spec.outputs) && OutputMap(spec.outputs)[o.name] == o
    requires spec.pipelines[k].inputRefs != [] && forall n :: n in spec.pipelines[k].inputRefs ==> n in InputMap(spec.inputs)
    requires forall n :: n in InputMap(spec.inputs) ==> HasOwnSection(InputMap(spec.inputs)[n])
    ensures IsTrace(config, trace) && trace != [] && trace[|trace| - 1] == Sink(o)
  {
    hide InputMap, OutputMap, InputChains, NoClash, UniquePipelines, IsTrace, HasOwnSection, FilterWorks, AllComponents, Assemble, InputsPanic;
    var n := spec.pipelines[k].inputRefs[0];
    SectionGivesChain(InputMap(spec.inputs)[n]);
    var c := InputChains(InputMap(spec.inputs)[n])[0];
    assert Denotes(spec, n, c, k, o.name);
    trace := SpecTrace(spec, n, c, k, o.name);
    assert Asks(spec, trace);
    RoutingOfNames(spec, config, trace);
    assert DeliveryWorks(o)[|DeliveryWorks(o)| - 1] == Sink(o);
  }

  lemma PassingInputs(spec: ForwarderSpec, world: World, p: PipelineSpec)
    requires SpecPasses(spec, world) && p in spec.pipelines
    ensures forall n :: n in p.inputRefs ==> n in InputMap(spec.inputs)
  {
    hide Permitted, InputMap, OutputMap, FilterMap;
  }

  lemma {:induction false} OutputMapUnique(outputs: seq<OutputSpec>)
    requires UniqueStrings(OutputNames(outputs))
    ensures forall o :: o in outputs ==> o.name in OutputMap(outputs) && OutputMap(outputs)[o.name] == o
  {
    if outputs != [] {
      var init, last := outputs[..|outputs| - 1], outputs[|outputs| - 1];
      assert outputs == init + [last];
      forall i, j | 0 <= i < j < |init| ensures init[i].name != init[j].name {
        assert OutputNames(outputs)[i] != OutputNames(outputs)[j];
      }
      OutputMapUnique(init);
      forall o | o in init ensures o.name != last.name {
        var k :| 0 <= k < |init| && init[k] == o;
        assert OutputNames(outputs)[k] != OutputNames(outputs)[|init|];
      }
    }
  }

  // -------- the forwarder

  /** The Valid condition is True exactly when every part of the spec passes its own check. */
  lemma ValidExact(prior: Status, spec: ForwarderSpec, name: string, world: World, now: int,
                   migrated: ForwarderSpec, order: seq<FilterSpec>, valid: bool, after: Status)
    requires Refreshed(prior, spec, name, world, now, migrated, order, valid, after)
    requires UniqueStatus(prior) && UniqueSpec(spec)
    ensures Find(after.conditions, VALID).Some? && (Find(after.conditions, VALID).value.status == True <==> SpecPasses(migrated, world))
  {
    hide Refreshed, UniqueSpec, SpecPasses, LogLevelVerdict, MaxUnavailableVerdict, AccessVerdict;
    OwnTypesDiffer();
    GateExact(prior, spec, name, world, now, migrated, order, valid, after);
    OwnTimes(prior, spec, name, world, now, migrated, order, valid, after, VALID);
  }

  /** A log type is reviewed only because pipelines refer to it by name or read an input that can hold such logs. */
  lemma ReviewedNeeded(spec: ForwarderSpec, t: string)
    requires t in CollectedTypes(spec)
    ensures exists p :: p in spec.pipelines && (t in p.inputRefs || exists i :: i in spec.inputs && i.name in p.inputRefs && CanHold(i, t))
  {
    if !RefersTo(spec, t) {
      var i :| i in spec.inputs && RefersTo(spec, i.name) && CollectedBy(i, t);
      var p :| p in spec.pipelines && i.name in p.inputRefs;
      ReservedNamesOnly(t);
      if i.kind == Application && t == INFRASTRUCTURE {
        var n :| n in i.application.value.includes && InfraNamespace(n.namespace);
        assert NamesInfra(i);
      }
      assert CanHold(i, t);
    } else {
      var p :| p in spec.pipelines && t in p.inputRefs;
    }
  }

  predicate CanHold(i: InputSpec, t: string) {
    || (t == APPLICATION && i.kind == Application)
    || (t == INFRASTRUCTURE && (i.kind == Infrastructure || NamesInfra(i) || (i.receiver.Some? && Listens(i, Syslog, i.receiver.value.port))))
    || (t == AUDIT && i.kind == Audit)
  }

  lemma ReservedNamesOnly(t: string)
    requires t in RESERVED
    ensures t == APPLICATION || t == INFRASTRUCTURE || t == AUDIT
  {
  }

  // -------- annotations

  lemma LogLevelAccepted(world: World)
    ensures LogLevelVerdict(world).None? <==>
            || world.logLevel.None? || world.logLevel.value == "trace" || world.logLevel.value == "debug" || world.logLevel.value == "info"
            || world.logLevel.value == "warn" || world.logLevel.value == "error" || world.logLevel.value == "off"
  {
  }

  lemma DigitsInOrder()
    ensures forall d :: 0 <= d < 10 ==> DIGITS[d] == ('0' as int + d) as char
  {
    assert DIGITS[0] == '0' && DIGITS[1] == '1' && DIGITS[2] == '2' && DIGITS[3] == '3' && DIGITS[4] == '4';
    assert DIGITS[5] == '5' && DIGITS[6] == '6' && DIGITS[7] == '7' && DIGITS[8] == '8' && DIGITS[9] == '9';
  }

  lemma {:induction false} ItoaStart(n: nat)
    requires n > 0
    ensures Itoa(n) != "" && Itoa(n)[0] != '0' && Digits(Itoa(n)) && (|Itoa(n)| <= 2 <==> n < 100)
  {
    DigitsInOrder();
    if n >= 10 {
      ItoaStart(n / 10);
      if n / 10 < 10 {
        assert |Itoa(n / 10)| == 1;
      } else {
        ItoaLength(n / 10);
      }
    }
  }

  lemma PrefixDigits(s: string, k: nat)
    requires Digits(s) && k <= |s|
    ensures Digits(s[..k])
  {
    forall c | c in s[..k] ensures c in s {
      var j :| 0 <= j < k && s[j] == c;
    }
  }

  /** Every string of digits without a leading zero is a number. */
  lemma {:induction false} DigitsNumber(s: string) returns (n: nat)
    requires s != "" && Digits(s) && s[0] != '0'
    ensures n > 0 && Itoa(n) == s
  {
    var last := |s| - 1;
    assert s[last] in s;
    var d := (s[last] as int) - ('0' as int);
    DigitsInOrder();
    assert DIGITS[d] == s[last];
    if last == 0 {
      n := d;
      assert s == [s[0]];
    } else {
      PrefixDigits(s, last);
      var m := DigitsNumber(s[..last]);
      n := m * 10 + d;
      assert n / 10 == m && n % 10 == d;
      assert s == s[..last] + [s[last]];
    }
  }

  /** The accepted values are the positive numbers and the percentages from 1 to 100. */
  lemma PercentOrWholeNumberMeans(s: string)
    ensures IsPercentOrWholeNumber(s) <==> (exists n: nat :: n > 0 && s == Itoa(n)) || exists n: nat :: 0 < n <= 100 && s == Itoa(n) + "%"
  {
    if IsPercentOrWholeNumber(s) {
      AcceptedNumber(s);
    }
    if n: nat :| n > 0 && s == Itoa(n) {
      ItoaStart(n);
    }
    if n: nat :| 0 < n <= 100 && s == Itoa(n) + "%" {
      ItoaStart(n);
      if n == 100 {
        Hundred();
      } else {
        assert s[..|s| - 1] == Itoa(n);
      }
    }
  }

  lemma Hundred()
    ensures Itoa(100) == "100"
  {
    assert Itoa(1) == "1";
    assert Itoa(10) == Itoa(1) + [DIGITS[0]] == "10";
    assert Itoa(100) == Itoa(10) + [DIGITS[0]];
  }

  lemma AcceptedNumber(s: string)
    requires IsPercentOrWholeNumber(s)
    ensures (exists n: nat :: n > 0 && s == Itoa(n)) || exists n: nat :: 0 < n <= 100 && s == Itoa(n) + "%"
  {
    hide Itoa;
    if |s| > 0 && Digits(s) && s[0] != '0' {
      var n := DigitsNumber(s);
    } else if s == "100%" {
      Hundred();
      assert s == Itoa(100) + "%";
    } else {
      var n := DigitsNumber(s[..|s| - 1]);
      ItoaStart(n);
      assert s == s[..|s| - 1] + "%";
    }
  }
}
