/**
 The ConfigMap that tells the admission policies which ServiceAccounts belong to collectors: one key for each account of
 each forwarder, next to the lists of allowed creators.
 */
module ProtectedAccounts {
  import opened Wrappers
  import opened Calls
  import opened Ids

  datatype AccountRef = AccountRef(namespace: string, name: string)

  /** What is read of a listed forwarder. */
  datatype Listed = Listed(namespace: string, account: string)

  const SA := "sa"
  const POD_CREATORS_KEY := "podCreators"
  const WORKLOAD_CREATORS_KEY := "workloadCreators"

  function Key(r: AccountRef): string {
    SA + "_" + r.namespace + "_" + r.name
  }

  // -------- strings.TrimSpace

  predicate IsSpace(c: char) {
    var code := c as int;
    9 <= code <= 13 || code == 32 || code == 0x85 || code == 0xA0 || code == 0x1680 || 0x2000 <= code <= 0x200A
    || code == 0x2028 || code == 0x2029 || code == 0x202F || code == 0x205F || code == 0x3000
  }

  function TrimLeft(s: string): string {
    if s != "" && IsSpace(s[0]) then TrimLeft(s[1..]) else s
  }

  function TrimRight(s: string): string {
    if s != "" && IsSpace(s[|s| - 1]) then TrimRight(s[..|s| - 1]) else s
  }

  function Trim(s: string): string {
    TrimRight(TrimLeft(s))
  }

  predicate AllSpace(s: string) {
    forall c :: c in s ==> IsSpace(c)
  }

  predicate Trimmed(s: string) {
    s != "" ==> !IsSpace(s[0]) && !IsSpace(s[|s| - 1])
  }

  lemma {:induction false} TrimLeftSplits(s: string)
    ensures |TrimLeft(s)| <= |s| && s[|s| - |TrimLeft(s)|..] == TrimLeft(s) && AllSpace(s[..|s| - |TrimLeft(s)|])
    ensures TrimLeft(s) != "" ==> !IsSpace(TrimLeft(s)[0])
  {
    if s != "" && IsSpace(s[0]) {
      TrimLeftSplits(s[1..]);
      var n := |s| - |TrimLeft(s)|;
      assert s[..n] == [s[0]] + s[1..][..n - 1];
      assert s[n..] == s[1..][n - 1..];
    }
  }

  lemma {:induction false} TrimRightSplits(s: string)
    ensures |TrimRight(s)| <= |s| && s[..|TrimRight(s)|] == TrimRight(s) && AllSpace(s[|TrimRight(s)|..])
    ensures TrimRight(s) != "" ==> !IsSpace(TrimRight(s)[|TrimRight(s)| - 1]) && TrimRight(s)[0] == s[0]
  {
    if s != "" && IsSpace(s[|s| - 1]) {
      TrimRightSplits(s[..|s| - 1]);
      var n := |TrimRight(s)|;
      assert s[n..] == s[..|s| - 1][n..] + [s[|s| - 1]];
      assert s[..n] == s[..|s| - 1][..n];
    }
  }

  /** Trimming takes away space at both ends and nothing else. */
  lemma TrimExact(s: string) returns (left: string, right: string)
    ensures s == left + Trim(s) + right && AllSpace(left) && AllSpace(right) && Trimmed(Trim(s))
  {
    TrimLeftSplits(s);
    TrimRightSplits(TrimLeft(s));
    var t := TrimLeft(s);
    left := s[..|s| - |t|];
    right := t[|Trim(s)|..];
    assert s == left + t && t == Trim(s) + right;
  }

  // -------- listing

  predicate Declares(f: Listed, r: AccountRef) {
    Trim(f.account) != "" && r == AccountRef(f.namespace, Trim(f.account))
  }

  predicate Declared(forwarders: seq<Listed>, r: AccountRef) {
    exists f :: f in forwarders && Declares(f, r)
  }

  /** The accounts that the forwarders declare, each once. */
  method ListServiceAccounts(forwarders: seq<Listed>) returns (refs: seq<AccountRef>)
    ensures forall r :: r in refs <==> Declared(forwarders, r)
    ensures forall a, b :: 0 <= a < b < |refs| ==> refs[a] != refs[b]
  {
    var seen: set<AccountRef> := {};
    refs := [];
    for i := 0 to |forwarders|
      invariant forall r :: r in refs <==> r in seen
      invariant forall r :: r in refs <==> Declared(forwarders[..i], r)
      invariant forall a, b :: 0 <= a < b < |refs| ==> refs[a] != refs[b]
    {
      var f := forwarders[i];
      assert forwarders[..i + 1] == forwarders[..i] + [f];
      var sa := Trim(f.account);
      if sa == "" {
        continue;
      }
      var ref := AccountRef(f.namespace, sa);
      assert Declares(f, ref);
      if ref !in seen {
        seen := seen + {ref};
        refs := refs + [ref];
      }
    }
    assert forwarders[..|forwarders|] == forwarders;
  }

  // -------- the ConfigMap

  datatype ConfigMap = ConfigMap(data: map<string, string>, labels: map<string, string>)

  /** The allowed creators, which do not depend on the forwarders. */
  datatype Creators = Creators(pods: string, workloads: string)

  function KeySet(refs: set<AccountRef>): set<string> {
    set r | r in refs :: Key(r)
  }

  function AccountData(refs: set<AccountRef>): map<string, string> {
    var keys := KeySet(refs);
    map k | k in keys :: ""
  }

  lemma AddAccount(refs: set<AccountRef>, r: AccountRef)
    ensures AccountData(refs + {r}) == AccountData(refs)[Key(r) := ""]
  {
    hide Key;
    assert KeySet(refs + {r}) == KeySet(refs) + {Key(r)};
  }

  /** Values do not matter for accounts: the policies look for the key. */
  function Data(refs: set<AccountRef>, creators: Creators): map<string, string> {
    AccountData(refs)[POD_CREATORS_KEY := creators.pods][WORKLOAD_CREATORS_KEY := creators.workloads]
  }

  lemma NoAccounts()
    ensures AccountData({}) == map[]
  {
  }

  class ConfigMapStore {
    var stored: Option<ConfigMap>

    constructor (stored: Option<ConfigMap>)
      ensures this.stored == stored
    {
      this.stored := stored;
    }

    /** Creates what is missing, and updates what differs. */
    method Configmap(desired: ConfigMap, get: Call, write: Call) returns (ok: bool)
      modifies this
      ensures ok ==> stored == Some(desired)
      ensures stored == old(stored) || stored == Some(desired)
    {
      if get != Done {
        return false;
      }
      if stored == Some(desired) {
        return true;
      }
      if write.Took() {
        stored := Some(desired);
      }
      return write == Done;
    }

    /** Rebuilds the ConfigMap from all forwarders; a failure leaves the old one or, at the last call, the new one. */
    method SyncProtectedServiceAccounts(forwarders: seq<Listed>, creators: Creators, labels: map<string, string>, list: Call, get: Call, write: Call)
      returns (ok: bool, ghost refs: set<AccountRef>)
      modifies this
      ensures forall r :: r in refs <==> Declared(forwarders, r)
      ensures ok ==> stored == Some(ConfigMap(Data(refs, creators), labels))
      ensures stored == old(stored) || stored == Some(ConfigMap(Data(refs, creators), labels))
      ensures list != Done ==> !ok && stored == old(stored)
    {
      var all := ListServiceAccounts(forwarders);
      refs := set r | r in all;
      if list != Done {
        return false, refs;
      }
      hide Key, AccountData;
      var data: map<string, string> := map[];
      ghost var done: set<AccountRef> := {};
      assert data == AccountData({}) by { NoAccounts(); }
      for i := 0 to |all|
        invariant done == (set r | r in all[..i])
        invariant data == AccountData(done)
        invariant stored == old(stored)
      {
        assert all[..i + 1] == all[..i] + [all[i]];
        AddAccount(done, all[i]);
        done := done + {all[i]};
        data := data[Key(all[i]) := ""];
      }
      assert all[..|all|] == all;
      data := data[POD_CREATORS_KEY := creators.pods][WORKLOAD_CREATORS_KEY := creators.workloads];
      ok := Configmap(ConfigMap(data, labels), get, write);
    }
  }

  // -------- the keys

  lemma KeyShape(r: AccountRef)
    ensures Key(r) == SA + "_" + (r.namespace + "_" + r.name)
  {
    hide SA;
  }

  /** A namespace holds no underscore, so a key decodes to one account, whatever the account is called. */
  lemma KeyInjective(r: AccountRef, q: AccountRef)
    requires '_' !in r.namespace && '_' !in q.namespace && Key(r) == Key(q)
    ensures r == q
  {
    KeyShape(r);
    KeyShape(q);
    var a, b := r.namespace + "_" + r.name, q.namespace + "_" + q.name;
    assert (SA + "_" + a)[|SA| + 1..] == a && (SA + "_" + b)[|SA| + 1..] == b;
    FirstTokenUnique(r.namespace, r.name, q.namespace, q.name);
  }

  /** Account keys never meet the creator keys. */
  lemma KeyNotCreators(r: AccountRef)
    ensures Key(r) != POD_CREATORS_KEY && Key(r) != WORKLOAD_CREATORS_KEY
    ensures SA + "_" <= Key(r)
    ensures !(SA + "_" <= POD_CREATORS_KEY) && !(SA + "_" <= WORKLOAD_CREATORS_KEY)
  {
    assert Key(r)[0] == 's' && POD_CREATORS_KEY[0] == 'p' && WORKLOAD_CREATORS_KEY[0] == 'w';
    KeyShape(r);
    assert (SA + "_")[0] == 's';
  }

  /**
   What a synced ConfigMap says: an account is listed exactly when a forwarder of its namespace declares it, every other
   key with the account prefix is absent, and the creators are untouched.
   */
  lemma SyncedExact(forwarders: seq<Listed>, refs: set<AccountRef>, creators: Creators, r: AccountRef)
    requires forall f :: f in forwarders ==> '_' !in f.namespace
    requires (forall q :: q in refs <==> Declared(forwarders, q)) && '_' !in r.namespace
    ensures Key(r) in Data(refs, creators) <==> Declared(forwarders, r)
    ensures Data(refs, creators)[POD_CREATORS_KEY] == creators.pods && Data(refs, creators)[WORKLOAD_CREATORS_KEY] == creators.workloads
  {
    hide Key, SA, Declares;
    KeyNotCreators(r);
    if Key(r) in Data(refs, creators) {
      var q :| q in refs && Key(q) == Key(r);
      var f :| f in forwarders && Declares(f, q);
      DeclaredNamespace(f, q);
      KeyInjective(q, r);
    }
    CreatorKeysDiffer();
  }

  lemma CreatorKeysDiffer()
    ensures POD_CREATORS_KEY != WORKLOAD_CREATORS_KEY
  {
    assert POD_CREATORS_KEY[0] != WORKLOAD_CREATORS_KEY[0];
  }

  lemma DeclaredNamespace(f: Listed, r: AccountRef)
    requires Declares(f, r)
    ensures r.namespace == f.namespace
  {
  }

  lemma SyncedOnlyAccounts(forwarders: seq<Listed>, refs: set<AccountRef>, creators: Creators, key: string)
    requires (forall q :: q in refs <==> Declared(forwarders, q)) && key in Data(refs, creators) && SA + "_" <= key
    ensures exists r :: Declared(forwarders, r) && Key(r) == key
  {
    hide Key, Declared;
    KeyNotCreators(AccountRef("", ""));
    assert key != POD_CREATORS_KEY && key != WORKLOAD_CREATORS_KEY;
    var q :| q in refs && Key(q) == key;
  }
}
