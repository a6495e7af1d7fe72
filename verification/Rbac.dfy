/**
 Roles and role bindings of the forwarders in one namespace. Each forwarder reconciles a role and a binding to it, then
 removes the role of an older naming scheme unless some binding still refers to it.
 */
module Rbac {
  import opened Calls

  datatype RoleRef = Role(name: string) | ClusterRole(name: string)

  datatype Binding = Binding(ref: RoleRef, subject: string)

  datatype State = State(roles: set<string>, bindings: map<string, Binding>)

  /** How the calls of one reconcile turn out. */
  datatype Attempt = Attempt(
    clusterBinding: Call, findRole: Call, writeRole: Call, getBinding: Call, deleteBinding: Call, createBinding: Call,
    updateBinding: Call, list: Call, deleteRole: Call)

  function RoleName(forwarder: string, account: string): string {
    forwarder + "-" + account + "-scc"
  }

  function BindingName(forwarder: string): string {
    forwarder + "-scc"
  }

  function OldRoleName(account: string): string {
    account + "-scc"
  }

  function Desired(forwarder: string, account: string): Binding {
    Binding(Role(RoleName(forwarder, account)), account)
  }

  // -------- the steps

  datatype Outcome = Outcome(state: State, ok: bool)

  function AfterRole(s: State, role: string, a: Attempt): Outcome {
    if a.findRole != Done then Outcome(s, false)
    else Outcome(if a.writeRole.Took() then s.(roles := s.roles + {role}) else s, a.writeRole == Done)
  }

  function AfterCreate(s: State, name: string, desired: Binding, a: Attempt): Outcome {
    Outcome(if a.createBinding.Took() then s.(bindings := s.bindings[name := desired]) else s, a.createBinding == Done)
  }

  function AfterBinding(s: State, name: string, desired: Binding, a: Attempt): Outcome {
    if a.getBinding != Done then Outcome(s, false)
    else if name !in s.bindings then AfterCreate(s, name, desired, a)
    else if s.bindings[name].ref != desired.ref then
      var without := s.(bindings := s.bindings - {name});
      if a.deleteBinding != Done then Outcome(if a.deleteBinding.Took() then without else s, false)
      else AfterCreate(without, name, desired, a)
    else Outcome(if a.updateBinding.Took() then s.(bindings := s.bindings[name := Binding(s.bindings[name].ref, desired.subject)]) else s,
                 a.updateBinding == Done)
  }

  /** The scan looks at names only, so a binding to a cluster role of that name counts as well. */
  predicate Referenced(s: State, role: string) {
    exists b :: b in s.bindings && s.bindings[b].ref.name == role
  }

  function AfterCleanup(s: State, role: string, a: Attempt): Outcome {
    if a.list != Done then Outcome(s, false)
    else if Referenced(s, role) then Outcome(s, true)
    else Outcome(if a.deleteRole.Took() then s.(roles := s.roles - {role}) else s, a.deleteRole == Done)
  }

  function Reconciled(s: State, forwarder: string, account: string, a: Attempt): Outcome {
    if a.clusterBinding != Done then Outcome(s, false)
    else
      var role := AfterRole(s, RoleName(forwarder, account), a);
      if !role.ok then role
      else
        var binding := AfterBinding(role.state, BindingName(forwarder), Desired(forwarder, account), a);
        if !binding.ok then binding else AfterCleanup(binding.state, OldRoleName(account), a)
  }

  /** The objects of one namespace as the API server stores them. */
  class Namespace {
    var state: State

    constructor (state: State)
      ensures this.state == state
    {
      this.state := state;
    }

    method ReconcileRole(role: string, a: Attempt) returns (ok: bool)
      modifies this
      ensures Outcome(state, ok) == AfterRole(old(state), role, a)
    {
      if a.findRole != Done {
        return false;
      }
      if a.writeRole.Took() {
        state := state.(roles := state.roles + {role});
      }
      return a.writeRole == Done;
    }

    method ReconcileBinding(name: string, desired: Binding, a: Attempt) returns (ok: bool)
      modifies this
      ensures Outcome(state, ok) == AfterBinding(old(state), name, desired, a)
    {
      if a.getBinding != Done {
        return false;
      }
      if name in state.bindings && state.bindings[name].ref == desired.ref {
        if a.updateBinding.Took() {
          state := state.(bindings := state.bindings[name := state.bindings[name].(subject := desired.subject)]);
        }
        return a.updateBinding == Done;
      }
      if name in state.bindings {
        if a.deleteBinding.Took() {
          state := state.(bindings := state.bindings - {name});
        }
        if a.deleteBinding != Done {
          return false;
        }
      }
      if a.createBinding.Took() {
        state := state.(bindings := state.bindings[name := desired]);
      }
      return a.createBinding == Done;
    }

    method CleanUp(role: string, a: Attempt) returns (ok: bool)
      modifies this
      ensures Outcome(state, ok) == AfterCleanup(old(state), role, a)
    {
      if a.list != Done {
        return false;
      }
      var hasReferences := false;
      var todo := state.bindings.Keys;
      while todo != {} && !hasReferences
        invariant todo <= state.bindings.Keys && state == old(state)
        invariant hasReferences ==> Referenced(state, role)
        invariant !hasReferences ==> forall b :: b in state.bindings && state.bindings[b].ref.name == role ==> b in todo
        decreases todo, !hasReferences
      {
        var b :| b in todo;
        todo := todo - {b};
        hasReferences := state.bindings[b].ref.name == role;
      }
      if hasReferences {
        return true;
      }
      if a.deleteRole.Took() {
        state := state.(roles := state.roles - {role});
      }
      return a.deleteRole == Done;
    }

    method ReconcileRBAC(forwarder: string, account: string, a: Attempt) returns (ok: bool)
      modifies this
      ensures Outcome(state, ok) == Reconciled(old(state), forwarder, account, a)
    {
      if a.clusterBinding != Done {
        return false;
      }
      ok := ReconcileRole(RoleName(forwarder, account), a);
      if !ok {
        return;
      }
      ok := ReconcileBinding(BindingName(forwarder), Desired(forwarder, account), a);
      if !ok {
        return;
      }
      ok := CleanUp(OldRoleName(account), a);
    }
  }

  // -------- reference integrity

  /** The bindings whose role is not there. */
  ghost function Dangling(s: State): set<string> {
    set b | b in s.bindings && s.bindings[b].ref.Role? && s.bindings[b].ref.name !in s.roles
  }

  /** Wherever it is cut, a reconcile leaves no binding dangling that did not dangle before. */
  lemma DanglingShrinks(s: State, forwarder: string, account: string, a: Attempt)
    ensures Dangling(Reconciled(s, forwarder, account, a).state) <= Dangling(s)
  {
    hide RoleName, BindingName, OldRoleName;
    var role := AfterRole(s, RoleName(forwarder, account), a);
    assert Dangling(role.state) <= Dangling(s);
    var binding := AfterBinding(role.state, BindingName(forwarder), Desired(forwarder, account), a);
    if role.ok {
      BindingDangling(role.state, BindingName(forwarder), Desired(forwarder, account), a);
      CleanupDangling(binding.state, OldRoleName(account), a);
    }
  }

  lemma BindingDangling(s: State, name: string, desired: Binding, a: Attempt)
    requires desired.ref.name in s.roles
    ensures Dangling(AfterBinding(s, name, desired, a).state) <= Dangling(s)
  {
  }

  lemma CleanupDangling(s: State, role: string, a: Attempt)
    ensures Dangling(AfterCleanup(s, role, a).state) <= Dangling(s)
  {
    var t := AfterCleanup(s, role, a).state;
    forall b | b in Dangling(t) ensures b in Dangling(s) {
      assert b in s.bindings;
    }
  }

  /** The forwarder's binding, to its role, for its account, and the role is there. */
  ghost predicate Owns(s: State, forwarder: string, account: string) {
    && BindingName(forwarder) in s.bindings && s.bindings[BindingName(forwarder)] == Desired(forwarder, account)
    && RoleName(forwarder, account) in s.roles
  }

  /** A completed reconcile leaves the forwarder's own binding on an existing role, and the old role only where it is still in use. */
  lemma CompletedOwns(s: State, forwarder: string, account: string, a: Attempt)
    requires Reconciled(s, forwarder, account, a).ok
    ensures Owns(Reconciled(s, forwarder, account, a).state, forwarder, account)
    ensures OldRoleName(account) in Reconciled(s, forwarder, account, a).state.roles ==>
              Referenced(Reconciled(s, forwarder, account, a).state, OldRoleName(account))
  {
    hide RoleName, BindingName, OldRoleName;
    var role := AfterRole(s, RoleName(forwarder, account), a);
    var binding := AfterBinding(role.state, BindingName(forwarder), Desired(forwarder, account), a);
    var end := AfterCleanup(binding.state, OldRoleName(account), a).state;
    assert end.bindings == binding.state.bindings;
    assert RoleName(forwarder, account) == OldRoleName(account) ==> Referenced(binding.state, OldRoleName(account)) by {
      assert binding.state.bindings[BindingName(forwarder)].ref.name == RoleName(forwarder, account);
    }
  }

  /** The same in the names that an administrator sees. */
  lemma CompletedObjects(s: State, forwarder: string, account: string, a: Attempt, t: State)
    requires Reconciled(s, forwarder, account, a) == Outcome(t, true)
    ensures forwarder + "-scc" in t.bindings
    ensures t.bindings[forwarder + "-scc"] == Binding(Role(forwarder + "-" + account + "-scc"), account)
    ensures forwarder + "-" + account + "-scc" in t.roles
    ensures account + "-scc" in t.roles ==> exists b :: b in t.bindings && t.bindings[b].ref.name == account + "-scc"
  {
    CompletedOwns(s, forwarder, account, a);
    hide Reconciled;
  }

  lemma BindingNamesDiffer(f: string, g: string)
    requires f != g
    ensures BindingName(f) != BindingName(g)
  {
    assert BindingName(f)[..|BindingName(f)| - 4] == f && BindingName(g)[..|BindingName(g)| - 4] == g;
  }

  /** Reconciles of other forwarders, cut or not, take neither binding nor role away, also when their old role name is this role's. */
  lemma OthersKeep(s: State, forwarder: string, account: string, other: string, otherAccount: string, a: Attempt)
    requires Owns(s, forwarder, account) && other != forwarder
    ensures Owns(Reconciled(s, other, otherAccount, a).state, forwarder, account)
  {
    BindingNamesDiffer(forwarder, other);
    hide RoleName, BindingName, OldRoleName;
    var role := AfterRole(s, RoleName(other, otherAccount), a);
    var binding := AfterBinding(role.state, BindingName(other), Desired(other, otherAccount), a);
    assert Owns(role.state, forwarder, account);
    assert Owns(binding.state, forwarder, account);
    CleanupKeeps(binding.state, OldRoleName(otherAccount), forwarder, account, a);
  }

  lemma CleanupKeeps(s: State, role: string, forwarder: string, account: string, a: Attempt)
    requires Owns(s, forwarder, account)
    ensures Owns(AfterCleanup(s, role, a).state, forwarder, account)
  {
    hide RoleName, BindingName;
    assert s.bindings[BindingName(forwarder)].ref.name == RoleName(forwarder, account);
  }

  // -------- runs

  datatype Event = Event(forwarder: string, account: string, attempt: Attempt)

  ghost predicate Run(states: seq<State>, events: seq<Event>) {
    && |states| == |events| + 1
    && forall k :: 0 <= k < |events| ==> states[k + 1] == Reconciled(states[k], events[k].forwarder, events[k].account, events[k].attempt).state
  }

  /** Over any sequential run of reconciles the dangling bindings only become fewer. */
  lemma {:induction false} RunDangling(states: seq<State>, events: seq<Event>, i: nat, j: nat)
    requires Run(states, events) && i <= j < |states|
    ensures Dangling(states[j]) <= Dangling(states[i])
  {
    hide Reconciled;
    if i < j {
      RunDangling(states, events, i, j - 1);
      DanglingShrinks(states[j - 1], events[j - 1].forwarder, events[j - 1].account, events[j - 1].attempt);
    }
  }

  /** What a completed reconcile set up lasts until the same forwarder is reconciled again. */
  lemma {:induction false} RunOwns(states: seq<State>, events: seq<Event>, i: nat, j: nat)
    requires Run(states, events) && i < j < |states|
    requires Reconciled(states[i], events[i].forwarder, events[i].account, events[i].attempt).ok
    requires forall k :: i < k < j ==> events[k].forwarder != events[i].forwarder
    ensures Owns(states[j], events[i].forwarder, events[i].account)
  {
    hide Reconciled, Owns;
    if j == i + 1 {
      CompletedOwns(states[i], events[i].forwarder, events[i].account, events[i].attempt);
    } else {
      RunOwns(states, events, i, j - 1);
      OthersKeep(states[j - 1], events[i].forwarder, events[i].account, events[j - 1].forwarder, events[j - 1].account, events[j - 1].attempt);
    }
  }
}
