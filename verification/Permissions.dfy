/** The permission check: which log types the pipelines collect and whether the service account may collect them. */
module Permissions {
  import opened Wrappers
  import opened Ordering
  import opened Api
  import opened Conditions
  import opened Migration
  import opened Checks
  import Selection

  // -------- what has to be allowed

  /** The regular expression `^default$|^openshift.*$|^kube.*$` */
  predicate InfraNamespace(ns: string) {
    Selection.IsInfra(ns) && '\n' !in ns
  }

  predicate RefersTo(spec: ForwarderSpec, name: string) {
    exists p :: p in spec.pipelines && name in p.inputRefs
  }

  predicate ReadsInfraNamespace(i: InputSpec) {
    i.application.Some? && exists n :: n in i.application.value.includes && InfraNamespace(n.namespace)
  }

  /** The input holds logs of type `t`. */
  predicate CollectedBy(i: InputSpec, t: string) {
    match i.kind
    case Application => t == APPLICATION || (t == INFRASTRUCTURE && ReadsInfraNamespace(i))
    case Infrastructure => t == INFRASTRUCTURE
    case Audit => t == AUDIT
    case Receiver => t == INFRASTRUCTURE && i.receiver.Some? && i.receiver.value.kind == Syslog
  }

  /** The log type `t` has to be collected for the pipelines. */
  predicate Collects(spec: ForwarderSpec, t: string)
    requires t in RESERVED
  {
    || RefersTo(spec, t)
    || exists i :: i in spec.inputs && RefersTo(spec, i.name) && CollectedBy(i, t)
  }

  predicate ReadsReceiver(spec: ForwarderSpec) {
    exists i :: i in spec.inputs && RefersTo(spec, i.name) && i.kind == Receiver
  }

  predicate ReadsSectionlessReceiver(spec: ForwarderSpec) {
    exists i :: i in spec.inputs && RefersTo(spec, i.name) && i.kind == Receiver && i.receiver.None?
  }

  /** The account exists and may collect every type there is to collect, or only other receivers are read. */
  predicate Permitted(spec: ForwarderSpec, world: World) {
    && world.account == Found
    && (forall t :: t in RESERVED && Collects(spec, t) ==> world.review(t) == Allowed)
    && ((exists t :: t in RESERVED && Collects(spec, t)) || ReadsReceiver(spec))
  }

  // -------- gathering

  function CollectedTypes(spec: ForwarderSpec): set<string> {
    set t | t in RESERVED && Collects(spec, t)
  }

  /** The types that the referenced ones among `inputs` add to those referred to by name. */
  function TypesOf(refs: set<string>, inputs: seq<InputSpec>): set<string> {
    set t | t in RESERVED && (t in refs || exists i :: i in inputs && i.name in refs && CollectedBy(i, t))
  }

  method GatherPipelineInputs(spec: ForwarderSpec) returns (r: Outcome<(set<string>, bool)>)
    ensures r.Panic? <==> ReadsSectionlessReceiver(spec)
    ensures r.Ok? ==> r.value.0 == CollectedTypes(spec) && r.value.1 == ReadsReceiver(spec)
  {
    var inputRefs, inputTypes := GatherRefs(spec.pipelines);
    assert forall n :: n in inputRefs <==> RefersTo(spec, n);
    hide RefersTo;
    var noOfReceivers := 0;
    for k := 0 to |spec.inputs|
      invariant inputTypes == TypesOf(inputRefs, spec.inputs[..k])
      invariant noOfReceivers > 0 <==> exists i :: i in spec.inputs[..k] && i.name in inputRefs && i.kind == Receiver
      invariant !exists i :: i in spec.inputs[..k] && i.name in inputRefs && i.kind == Receiver && i.receiver.None?
      invariant noOfReceivers >= 0
    {
      var input := spec.inputs[k];
      assert spec.inputs[..k + 1] == spec.inputs[..k] + [input] && input in spec.inputs;
      if input.name in inputRefs {
        if input.kind == Receiver && input.receiver.None? {
          return Panic;
        }
        var added := TypesOfInput(input);
        AddInput(inputRefs, spec.inputs[..k], input);
        inputTypes := inputTypes + added;
        if input.kind == Receiver {
          noOfReceivers := noOfReceivers + 1;
        }
      } else {
        SkipInput(inputRefs, spec.inputs[..k], input);
      }
    }
    assert spec.inputs[..|spec.inputs|] == spec.inputs;
    r := Ok((inputTypes, noOfReceivers > 0));
  }

  /** Every reference of every pipeline, and those among them that are log types. */
  method GatherRefs(pipelines: seq<PipelineSpec>) returns (inputRefs: set<string>, inputTypes: set<string>)
    ensures forall n :: n in inputRefs <==> exists p :: p in pipelines && n in p.inputRefs
    ensures inputTypes == TypesOf(inputRefs, [])
  {
    inputRefs, inputTypes := {}, {};
    for k := 0 to |pipelines|
      invariant forall n :: n in inputRefs <==> exists p :: p in pipelines[..k] && n in p.inputRefs
      invariant inputTypes == inputRefs * RESERVED
    {
      var refs := pipelines[k].inputRefs;
      ghost var before := inputRefs;
      for j := 0 to |refs|
        invariant forall n :: n in inputRefs <==> n in before || n in refs[..j]
        invariant inputTypes == inputRefs * RESERVED
      {
        assert refs[..j + 1] == refs[..j] + [refs[j]];
        inputRefs := inputRefs + {refs[j]};
        if refs[j] in RESERVED {
          inputTypes := inputTypes + {refs[j]};
        }
      }
      assert refs[..|refs|] == refs;
      assert pipelines[..k + 1] == pipelines[..k] + [pipelines[k]];
    }
    assert pipelines[..|pipelines|] == pipelines;
  }

  method TypesOfInput(input: InputSpec) returns (types: set<string>)
    requires input.kind == Receiver ==> input.receiver.Some?
    ensures types == set t | t in RESERVED && CollectedBy(input, t)
  {
    types := {};
    match input.kind {
      case Application =>
        types := {APPLICATION};
        if input.application.Some? {
          var includes := input.application.value.includes;
          for k := 0 to |includes|
            invariant types == {APPLICATION} + if exists n :: n in includes[..k] && InfraNamespace(n.namespace) then {INFRASTRUCTURE} else {}
          {
            assert includes[..k + 1] == includes[..k] + [includes[k]];
            if InfraNamespace(includes[k].namespace) {
              types := types + {INFRASTRUCTURE};
            }
          }
          assert includes[..|includes|] == includes;
        }
      case Infrastructure => types := {INFRASTRUCTURE};
      case Audit => types := {AUDIT};
      case Receiver =>
        if input.receiver.value.kind == Syslog {
          types := {INFRASTRUCTURE};
        }
    }
  }

  lemma AddInput(refs: set<string>, inputs: seq<InputSpec>, i: InputSpec)
    requires i.name in refs
    ensures TypesOf(refs, inputs + [i]) == TypesOf(refs, inputs) + set t | t in RESERVED && CollectedBy(i, t)
  {
    hide CollectedBy;
  }

  lemma SkipInput(refs: set<string>, inputs: seq<InputSpec>, i: InputSpec)
    requires i.name !in refs
    ensures TypesOf(refs, inputs + [i]) == TypesOf(refs, inputs)
  {
    hide CollectedBy;
  }

  // -------- reviewing

  datatype Access = Granted | NoInputs | CallFailed(text: string) | NotAllowed(types: seq<string>)

  /** The first review of the list that fails as a call. */
  function FirstFailure(types: seq<string>, review: string -> Review): Option<string> {
    if types == [] then None
    else
      var before, last := FirstFailure(types[..|types| - 1], review), review(types[|types| - 1]);
      if before.Some? then before else if last.ReviewFailed? then Some(last.text) else None
  }

  function Members(list: seq<string>): set<string> {
    set t | t in list
  }

  ghost function DeniedAmong(types: set<string>, review: string -> Review): set<string> {
    set t | t in types && review(t) == Denied
  }

  /** What the reviews amount to: they run in sorted order up to the first call that fails. */
  ghost function AccessOf(types: set<string>, hasReceivers: bool, review: string -> Review): Access {
    if types == {} then if hasReceivers then Granted else NoInputs
    else if FirstFailure(Listing(types), review).Some? then CallFailed(FirstFailure(Listing(types), review).value)
    else if forall t :: t in types ==> review(t) == Allowed then Granted
    else NotAllowed(Listing(DeniedAmong(types, review)))
  }

  method ValidateServiceAccountPermissions(inputs: set<string>, hasReceiverInputs: bool, review: string -> Review) returns (access: Access)
    ensures access == AccessOf(inputs, hasReceiverInputs, review)
  {
    if inputs == {} {
      return if hasReceiverInputs then Granted else NoInputs;
    }
    hide IsListing, DeniedAmong;
    var list := ListSet(inputs);
    var failedInputs: seq<string> := [];
    assert list[..0] == [];
    NothingDenied(review);
    for k := 0 to |list|
      invariant FirstFailure(list[..k], review) == None
      invariant IsListing(failedInputs, DeniedAmong(Members(list[..k]), review))
    {
      assert list[..k + 1][..k] == list[..k];
      var answer := review(list[k]);
      if answer.ReviewFailed? {
        FailureStays(list, k + 1, review);
        return CallFailed(answer.text);
      }
      DeniedSnoc(failedInputs, list, inputs, k, review);
      if answer == Denied {
        failedInputs := failedInputs + [list[k]];
      }
    }
    assert list[..|list|] == list;
    ReviewsDone(inputs, hasReceiverInputs, list, failedInputs, review);
    return if failedInputs != [] then NotAllowed(failedInputs) else Granted;
  }

  lemma NothingDenied(review: string -> Review)
    ensures IsListing([], DeniedAmong(Members([]), review))
  {
  }

  lemma ReviewsDone(types: set<string>, hasReceivers: bool, list: seq<string>, failed: seq<string>, review: string -> Review)
    requires types != {} && list == Listing(types) && FirstFailure(list, review) == None
    requires IsListing(failed, DeniedAmong(Members(list), review))
    ensures AccessOf(types, hasReceivers, review) == if failed != [] then NotAllowed(failed) else Granted
  {
    assert Members(list) == types;
    ListingUnique(failed, Listing(DeniedAmong(types, review)), DeniedAmong(types, review));
    ListingEmpty(failed, DeniedAmong(types, review));
    NoFailure(list, review);
    assert forall t :: t in types ==> review(t) == Denied || review(t) == Allowed;
    if failed == [] {
      assert forall t :: t in types ==> t !in DeniedAmong(types, review);
    } else {
      assert failed[0] in DeniedAmong(types, review);
    }
  }

  lemma {:induction false} FailureStays(types: seq<string>, k: nat, review: string -> Review)
    requires k <= |types| && FirstFailure(types[..k], review).Some?
    ensures FirstFailure(types, review) == FirstFailure(types[..k], review)
    decreases |types| - k
  {
    if k == |types| {
      assert types[..k] == types;
    } else {
      assert types[..k + 1][..k] == types[..k];
      FailureStays(types, k + 1, review);
    }
  }

  lemma DeniedSnoc(failed: seq<string>, list: seq<string>, types: set<string>, k: nat, review: string -> Review)
    requires k < |list| && IsListing(list, types)
    requires IsListing(failed, DeniedAmong(Members(list[..k]), review))
    ensures IsListing(if review(list[k]) == Denied then failed + [list[k]] else failed, DeniedAmong(Members(list[..k + 1]), review))
  {
    assert list[..k + 1] == list[..k] + [list[k]];
    var more := failed + [list[k]];
    forall i, j | 0 <= i < j < |more| ensures Less(more[i], more[j]) {
      if j == |failed| {
        assert failed[i] in failed;
        var m :| 0 <= m < k && list[m] == failed[i];
      }
    }
  }

  // -------- the condition

  function QuotedList(types: seq<string>): string {
    "[" + JoinWith(seq(|types|, k requires 0 <= k < |types| => "\"" + types[k] + "\""), " ") + "]"
  }

  function AccessText(access: Access, types: seq<string>): string {
    match access
    case Granted => "permitted to collect log types: [" + JoinWith(types, " ") + "]"
    case NoInputs => "There is an error in the input permission validation; no inputs were found to evaluate"
    case CallFailed(text) => text
    case NotAllowed(denied) => "insufficient permissions on service account, not authorized to collect " + QuotedList(denied) + " logs"
  }

  function Describe(access: Access, types: seq<string>): Verdict {
    if access == Granted then Verdict(AUTHORIZED, True, "ClusterRolesExist", AccessText(access, types))
    else Verdict(AUTHORIZED, False, "ClusterRoleMissing", AccessText(access, types))
  }

  ghost function AccessVerdict(spec: ForwarderSpec, world: World): Verdict {
    match world.account
    case NotFound(text) => Verdict(AUTHORIZED, False, "ServiceAccountDoesNotExist", text)
    case LookupFailed(text) => Verdict(AUTHORIZED, False, "ServiceAccountCheckFailure", text)
    case Found => Describe(AccessOf(CollectedTypes(spec), ReadsReceiver(spec), world.review), Listing(CollectedTypes(spec)))
  }

  /** `ValidatePermissions` up to the setting of the condition. */
  method ValidatePermissions(spec: ForwarderSpec, world: World) returns (r: Outcome<Verdict>)
    ensures r.Panic? <==> world.account == Found && ReadsSectionlessReceiver(spec)
    ensures r.Ok? ==> r.value == AccessVerdict(spec, world)
  {
    match world.account {
      case NotFound(text) => return Ok(Verdict(AUTHORIZED, False, "ServiceAccountDoesNotExist", text));
      case LookupFailed(text) => return Ok(Verdict(AUTHORIZED, False, "ServiceAccountCheckFailure", text));
      case Found =>
        var gathered := GatherPipelineInputs(spec);
        if gathered.Panic? {
          return Panic;
        }
        var access := ValidateServiceAccountPermissions(gathered.value.0, gathered.value.1, world.review);
        var types := ListSet(gathered.value.0);
        r := Ok(Describe(access, types));
    }
  }

  // -------- exactness

  lemma {:induction false} NoFailure(types: seq<string>, review: string -> Review)
    ensures FirstFailure(types, review).Some? <==> exists t :: t in types && review(t).ReviewFailed?
  {
    if types != [] {
      NoFailure(types[..|types| - 1], review);
      assert types == types[..|types| - 1] + [types[|types| - 1]];
    }
  }

  lemma GrantedExact(types: set<string>, hasReceivers: bool, review: string -> Review)
    ensures AccessOf(types, hasReceivers, review) == Granted <==>
            (forall t :: t in types ==> review(t) == Allowed) && (types != {} || hasReceivers)
  {
    NoFailure(Listing(types), review);
    hide FirstFailure, DeniedAmong;
  }

  /** The whole check ends in True exactly when the account may collect what the pipelines need. */
  lemma AccessExact(spec: ForwarderSpec, world: World)
    ensures AccessVerdict(spec, world).kind == AUTHORIZED
    ensures AccessVerdict(spec, world).status == if Permitted(spec, world) then True else False
  {
    var access := AccessOf(CollectedTypes(spec), ReadsReceiver(spec), world.review);
    GrantedExact(CollectedTypes(spec), ReadsReceiver(spec), world.review);
    DescribeStatus(access, Listing(CollectedTypes(spec)));
    hide AccessOf, Describe;
    PermittedTypes(spec, world);
    hide Permitted, CollectedTypes, ReadsReceiver;
  }

  lemma PermittedTypes(spec: ForwarderSpec, world: World)
    ensures Permitted(spec, world) <==>
            world.account == Found && (forall t :: t in CollectedTypes(spec) ==> world.review(t) == Allowed)
            && (CollectedTypes(spec) != {} || ReadsReceiver(spec))
  {
    hide Collects, ReadsReceiver;
    assert forall t :: t in CollectedTypes(spec) <==> t in RESERVED && Collects(spec, t);
  }

  lemma DescribeStatus(access: Access, types: seq<string>)
    ensures Describe(access, types).kind == AUTHORIZED
    ensures Describe(access, types).status == if access == Granted then True else False
  {
    hide AccessText;
  }

  /** Without failing calls the complaint names exactly the types that are collected and denied, each once and sorted. */
  lemma DeniedNamed(types: set<string>, hasReceivers: bool, review: string -> Review)
    requires types != {} && forall t :: t in types ==> !review(t).ReviewFailed?
    ensures AccessOf(types, hasReceivers, review)
         == if DeniedAmong(types, review) == {} then Granted else NotAllowed(Listing(DeniedAmong(types, review)))
  {
    NoFailure(Listing(types), review);
    assert forall t :: t in types ==> (t in DeniedAmong(types, review) <==> review(t) != Allowed);
  }
}
