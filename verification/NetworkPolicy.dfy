/**
 Network policies built rule by rule. Ports arrive in the order of Go maps; ending a rule sorts them by their JSON text,
 which makes the policy depend on the sets of ports alone.
 */
module NetworkPolicy {
  import opened Ordering
  import opened Ids
  import opened Api

  datatype Protocol = TCP | UDP

  datatype Port = Numbered(protocol: Protocol, number: nat) | Named(protocol: Protocol, name: string)

  datatype Rule = Rule(ports: seq<Port>)

  datatype Direction = Ingress | Egress

  // -------- the sort key

  const HEAD := "{\n  \"protocol\": \""
  const MIDDLE := "\",\n  \"port\": "
  const TAIL := "\n}"

  function ProtocolText(p: Protocol): (s: string)
    ensures |s| == 3
  {
    if p == TCP then "TCP" else "UDP"
  }

  function PortText(p: Port): string {
    match p
    case Numbered(_, n) => Itoa(n)
    case Named(_, name) => "\"" + name + "\""
  }

  /** The indented JSON of a port. */
  function Key(p: Port): string {
    HEAD + ProtocolText(p.protocol) + (MIDDLE + PortText(p) + TAIL)
  }

  lemma PortTextInjective(p: Port, q: Port)
    requires p.protocol == q.protocol && PortText(p) == PortText(q)
    ensures p == q
  {
    if p.Named? && q.Named? {
      assert PortText(p)[1..|PortText(p)| - 1] == p.name && PortText(q)[1..|PortText(q)| - 1] == q.name;
    } else if p.Numbered? && q.Numbered? {
      ItoaInjective(p.number, q.number);
    } else {
      TextsDiffer(if p.Numbered? then p else q, if p.Numbered? then q else p);
    }
  }

  lemma TextsDiffer(p: Port, q: Port)
    requires p.Numbered? && q.Named?
    ensures PortText(p) != PortText(q)
  {
    ItoaDigits(p.number);
    assert PortText(p)[0] in PortText(p);
    assert PortText(q)[0] == '"' && '"' !in DIGITS;
  }

  lemma KeyInjective(p: Port, q: Port)
    requires Key(p) == Key(q)
    ensures p == q
  {
    KeyParts(HEAD, MIDDLE, TAIL, ProtocolText(p.protocol), PortText(p), ProtocolText(q.protocol), PortText(q));
    ProtocolsDiffer(p.protocol, q.protocol);
    PortTextInjective(p, q);
  }

  lemma ProtocolsDiffer(p: Protocol, q: Protocol)
    ensures ProtocolText(p) == ProtocolText(q) ==> p == q
  {
    assert ProtocolText(TCP)[0] != ProtocolText(UDP)[0];
  }

  lemma KeyParts(head: string, middle: string, tail: string, a: string, x: string, b: string, y: string)
    requires head + a + (middle + x + tail) == head + b + (middle + y + tail) && |a| == |b|
    ensures a == b && x == y
  {
    var s := head + a + (middle + x + tail);
    assert s[|head|..|head| + |a|] == a && s[|head|..|head| + |b|] == b;
    assert s[|head| + |a| + |middle|..|s| - |tail|] == x;
    assert s[|head| + |b| + |middle|..|s| - |tail|] == y;
  }

  // -------- lists under a function

  function Map<T, U>(f: T -> U, s: seq<T>): (r: seq<U>)
    ensures |r| == |s| && forall k :: 0 <= k < |r| ==> r[k] == f(s[k])
  {
    seq(|s|, k requires 0 <= k < |s| => f(s[k]))
  }

  lemma CutOut<T>(s: seq<T>, j: nat)
    requires j < |s|
    ensures multiset(s) == multiset(s[..j] + s[j + 1..]) + multiset{s[j]}
  {
    assert s == s[..j] + [s[j]] + s[j + 1..];
  }

  lemma MapCutOut<T, U>(f: T -> U, s: seq<T>, j: nat)
    requires j < |s|
    ensures multiset(Map(f, s)) == multiset(Map(f, s[..j] + s[j + 1..])) + multiset{f(s[j])}
  {
    var m := Map(f, s);
    CutOut(m, j);
    assert m[..j] + m[j + 1..] == Map(f, s[..j] + s[j + 1..]);
  }

  /** A function takes rearranged lists to rearranged lists. */
  lemma {:induction false} MapMultiset<T, U>(f: T -> U, a: seq<T>, b: seq<T>)
    requires multiset(a) == multiset(b)
    ensures multiset(Map(f, a)) == multiset(Map(f, b))
    decreases |a|
  {
    if a == [] {
      assert |multiset(b)| == 0;
    } else {
      assert a[0] in multiset(b);
      var j :| 0 <= j < |b| && b[j] == a[0];
      CutOut(a, 0);
      CutOut(b, j);
      MapCutOut(f, a, 0);
      MapCutOut(f, b, j);
      assert multiset(a[..0] + a[1..]) == multiset(a) - multiset{a[0]};
      assert multiset(b[..j] + b[j + 1..]) == multiset(b) - multiset{a[0]};
      MapMultiset(f, a[..0] + a[1..], b[..j] + b[j + 1..]);
    }
  }

  // -------- sorting ports

  function Keys(ports: seq<Port>): (r: seq<string>)
    ensures |r| == |ports| && forall k :: 0 <= k < |r| ==> r[k] == Key(ports[k])
  {
    Map(Key, ports)
  }

  ghost predicate SortedPorts(ports: seq<Port>) {
    Sorted(Keys(ports))
  }

  function InsertPort(p: Port, ports: seq<Port>): seq<Port> {
    if ports == [] then [p]
    else if Leq(Key(p), Key(ports[0])) then [p] + ports
    else [ports[0]] + InsertPort(p, ports[1..])
  }

  function SortPorts(ports: seq<Port>): seq<Port> {
    if ports == [] then [] else InsertPort(ports[0], SortPorts(ports[1..]))
  }

  lemma {:induction false} InsertPortKeys(p: Port, ports: seq<Port>)
    ensures Keys(InsertPort(p, ports)) == InsertSorted(Key(p), Keys(ports))
  {
    hide Key;
    if ports != [] {
      assert Keys(ports)[1..] == Keys(ports[1..]);
      if !Leq(Key(p), Key(ports[0])) {
        InsertPortKeys(p, ports[1..]);
      }
    }
  }

  lemma {:induction false} InsertPortMultiset(p: Port, ports: seq<Port>)
    ensures multiset(InsertPort(p, ports)) == multiset(ports) + multiset{p}
  {
    hide Key, Leq;
    if ports != [] && !Leq(Key(p), Key(ports[0])) {
      InsertPortMultiset(p, ports[1..]);
      HeadMultiset(ports);
    }
  }

  lemma HeadMultiset<T>(s: seq<T>)
    requires s != []
    ensures multiset(s) == multiset(s[1..]) + multiset{s[0]}
  {
    assert s == [s[0]] + s[1..];
  }

  lemma {:induction false} SortPortsKeys(ports: seq<Port>)
    ensures Keys(SortPorts(ports)) == Sort(Keys(ports))
  {
    hide Key, InsertPort, InsertSorted, Keys;
    if ports == [] {
      assert Keys([]) == [] by { NoKeys(); }
    } else {
      SortPortsKeys(ports[1..]);
      KeysTail(ports);
      InsertPortKeys(ports[0], SortPorts(ports[1..]));
    }
  }

  lemma NoKeys()
    ensures Keys([]) == []
  {
  }

  lemma {:induction false} SortPortsMultiset(ports: seq<Port>)
    ensures multiset(SortPorts(ports)) == multiset(ports)
  {
    hide InsertPort;
    if ports != [] {
      SortPortsMultiset(ports[1..]);
      InsertPortMultiset(ports[0], SortPorts(ports[1..]));
      HeadMultiset(ports);
    }
  }

  lemma KeysTail(ports: seq<Port>)
    requires ports != []
    ensures Keys(ports) != [] && Keys(ports)[0] == Key(ports[0]) && Keys(ports)[1..] == Keys(ports[1..])
  {
  }

  lemma SortPortsSorted(ports: seq<Port>)
    ensures SortedPorts(SortPorts(ports)) && multiset(SortPorts(ports)) == multiset(ports)
  {
    SortPortsKeys(ports);
    SortPortsMultiset(ports);
    SortProperties(Keys(ports));
  }

  /** A collection of ports has one sorted order: whatever sorts it gets this list. */
  lemma SortedPortsUnique(a: seq<Port>, b: seq<Port>)
    requires SortedPorts(a) && SortedPorts(b) && multiset(a) == multiset(b)
    ensures a == b
  {
    MapMultiset(Key, a, b);
    SortedUnique(Keys(a), Keys(b));
    forall k | 0 <= k < |a| ensures a[k] == b[k] {
      assert Keys(a)[k] == Keys(b)[k];
      KeyInjective(a[k], b[k]);
    }
  }

  lemma SortPortsSame(a: seq<Port>, b: seq<Port>)
    requires multiset(a) == multiset(b)
    ensures SortPorts(a) == SortPorts(b)
  {
    SortPortsSorted(a);
    SortPortsSorted(b);
    SortedPortsUnique(SortPorts(a), SortPorts(b));
  }

  // -------- the builders

  /** All rules with sorted ports. */
  function PortsSorted(rules: seq<Rule>): (r: seq<Rule>)
    ensures |r| == |rules| && forall k :: 0 <= k < |r| ==> r[k] == Rule(SortPorts(rules[k].ports))
  {
    seq(|rules|, k requires 0 <= k < |rules| => Rule(SortPorts(rules[k].ports)))
  }

  ghost predicate ByLength(rules: seq<Rule>) {
    forall i, j :: 0 <= i < j < |rules| ==> |rules[i].ports| <= |rules[j].ports|
  }

  /** `r` holds the given rules, smaller ones first. */
  ghost predicate Ordered(r: seq<Rule>, rules: seq<Rule>) {
    ByLength(r) && multiset(r) == multiset(rules)
  }

  /** Ending a rule appends it, sorts the ports of all rules and puts the rules in order. */
  ghost predicate Ended(before: seq<Rule>, rule: Rule, after: seq<Rule>) {
    Ordered(after, PortsSorted(before + [rule]))
  }

  class PolicyBuilder {
    var types: seq<Direction>
    var ingress: seq<Rule>
    var egress: seq<Rule>

    constructor ()
      ensures types == [] && ingress == [] && egress == []
    {
      types, ingress, egress := [], [], [];
    }

    method WithPolicyType(d: Direction)
      modifies `types
      ensures types == if d in old(types) then old(types) else old(types) + [d]
    {
      if d in types {
        return;
      }
      types := types + [d];
    }

    method AllowAll(d: Direction)
      modifies this
      ensures types == if d in old(types) then old(types) else old(types) + [d]
      ensures ingress == if d == Ingress then old(ingress) + [Rule([])] else old(ingress)
      ensures egress == if d == Egress then old(egress) + [Rule([])] else old(egress)
    {
      WithPolicyType(d);
      if d == Ingress {
        ingress := ingress + [Rule([])];
      } else {
        egress := egress + [Rule([])];
      }
    }

    method NewRule(d: Direction) returns (rule: RuleBuilder)
      modifies `types
      ensures types == if d in old(types) then old(types) else old(types) + [d]
      ensures fresh(rule) && rule.owner == this && rule.direction == d && rule.ports == []
    {
      WithPolicyType(d);
      rule := new RuleBuilder(this, d);
    }

    function Rules(d: Direction): seq<Rule>
      reads this
    {
      if d == Ingress then ingress else egress
    }
  }

  lemma InsertKeepsOrder(rules: seq<Rule>, x: Rule, k: nat)
    requires ByLength(rules) && k <= |rules|
    requires forall j :: k <= j < |rules| ==> |rules[j].ports| > |x.ports|
    requires k > 0 ==> |rules[k - 1].ports| <= |x.ports|
    ensures ByLength(rules[..k] + [x] + rules[k..])
  {
    var more := rules[..k] + [x] + rules[k..];
    forall i, j | 0 <= i < j < |more| ensures |more[i].ports| <= |more[j].ports| {
      var a := if i <= k then i else i - 1;
      var b := if j <= k then j else j - 1;
    }
  }

  lemma InsertMultisetAt<T>(s: seq<T>, x: T, k: nat)
    requires k <= |s|
    ensures multiset(s[..k] + [x] + s[k..]) == multiset(s) + multiset{x}
  {
    assert s == s[..k] + s[k..];
  }

  /** Sorting by number of ports; rules with equally many ports may end up in any order. */
  method SortByLength(rules: seq<Rule>) returns (r: seq<Rule>)
    ensures ByLength(r) && multiset(r) == multiset(rules) && |r| == |rules|
  {
    hide ByLength;
    r := [];
    assert ByLength(r) by { NoRules(); }
    for i := 0 to |rules|
      invariant ByLength(r) && multiset(r) == multiset(rules[..i]) && |r| == i
    {
      var k := |r|;
      while k > 0 && |r[k - 1].ports| > |rules[i].ports|
        invariant 0 <= k <= |r|
        invariant forall j :: k <= j < |r| ==> |r[j].ports| > |rules[i].ports|
      {
        k := k - 1;
      }
      InsertKeepsOrder(r, rules[i], k);
      InsertMultisetAt(r, rules[i], k);
      assert rules[..i + 1] == rules[..i] + [rules[i]];
      r := r[..k] + [rules[i]] + r[k..];
    }
    assert rules[..|rules|] == rules;
  }

  lemma NoRules()
    ensures ByLength([])
  {
  }

  class RuleBuilder {
    const owner: PolicyBuilder
    const direction: Direction
    var ports: seq<Port>

    constructor (owner: PolicyBuilder, direction: Direction)
      ensures this.owner == owner && this.direction == direction && ports == []
    {
      this.owner, this.direction, ports := owner, direction, [];
    }

    method OnPort(protocol: Protocol, number: nat)
      modifies `ports
      ensures ports == old(ports) + [Numbered(protocol, number)]
    {
      ports := ports + [Numbered(protocol, number)];
    }

    method OnNamedPort(protocol: Protocol, name: string)
      modifies `ports
      ensures ports == old(ports) + [Named(protocol, name)]
    {
      ports := ports + [Named(protocol, name)];
    }

    /** Adds the rule, sorts the ports of every rule of the direction and then the rules by their number of ports. */
    method End()
      modifies owner
      ensures owner.types == old(owner.types)
      ensures owner.Rules(Other(direction)) == old(owner.Rules(Other(direction)))
      ensures Ended(old(owner.Rules(direction)), Rule(ports), owner.Rules(direction))
      ensures |owner.Rules(direction)| == |old(owner.Rules(direction))| + 1
    {
      var rules := owner.Rules(direction) + [Rule(ports)];
      var sorted: seq<Rule> := [];
      for i := 0 to |rules|
        invariant sorted == PortsSorted(rules[..i])
      {
        sorted := sorted + [Rule(SortPorts(rules[i].ports))];
      }
      assert rules[..|rules|] == rules;
      var r := SortByLength(sorted);
      if direction == Ingress {
        owner.ingress := r;
      } else {
        owner.egress := r;
      }
    }
  }

  function Other(d: Direction): Direction {
    if d == Ingress then Egress else Ingress
  }

  // -------- the ports of a forwarder

  predicate ListensOn(i: InputSpec, port: nat) {
    i.kind == Receiver && i.receiver.Some? && i.receiver.value.port == port && port > 0
  }

  /** The receiver ports, each once, in no particular order. */
  method GetInputPorts(inputs: seq<InputSpec>) returns (ports: seq<nat>)
    ensures forall p :: p in ports <==> exists i :: i in inputs && ListensOn(i, p)
    ensures forall a, b :: 0 <= a < b < |ports| ==> ports[a] != ports[b]
  {
    var portSet: set<nat> := {};
    for k := 0 to |inputs|
      invariant forall p :: p in portSet <==> exists i :: i in inputs[..k] && ListensOn(i, p)
    {
      assert inputs[..k + 1] == inputs[..k] + [inputs[k]];
      var i := inputs[k];
      if i.kind == Receiver && i.receiver.Some? && i.receiver.value.port > 0 {
        assert ListensOn(i, i.receiver.value.port);
        portSet := portSet + {i.receiver.value.port};
      }
    }
    assert inputs[..|inputs|] == inputs;
    ports := ListNumbers(portSet);
  }

  /** The members of a set, each once, in any order. */
  method ListNumbers(s: set<nat>) returns (l: seq<nat>)
    ensures forall p :: p in l <==> p in s
    ensures forall a, b :: 0 <= a < b < |l| ==> l[a] != l[b]
  {
    l := [];
    var todo := s;
    while todo != {}
      invariant todo <= s
      invariant forall p :: p in l <==> p in s && p !in todo
      invariant forall a, b :: 0 <= a < b < |l| ==> l[a] != l[b]
      decreases todo
    {
      var p :| p in todo;
      assert p !in l;
      var more := l + [p];
      assert forall a, b :: 0 <= a < b < |more| ==> more[a] != more[b];
      l := more;
      todo := todo - {p};
    }
  }

  const DNS_PORT_NAME := "dns"
  const KUBE_API_PORT: nat := 6443

  function TcpPort(number: nat): Port {
    Numbered(TCP, number)
  }

  function TcpPorts(ports: seq<nat>): seq<Port> {
    Map(TcpPort, ports)
  }

  function IngressPorts(ports: seq<nat>, metricsPort: nat): seq<Port> {
    [Numbered(TCP, metricsPort)] + TcpPorts(ports)
  }

  function EgressPorts(ports: seq<Port>): seq<Port> {
    [Named(UDP, DNS_PORT_NAME), Numbered(TCP, KUBE_API_PORT)] + ports
  }

  method RestrictIngress(b: PolicyBuilder, ports: seq<nat>, metricsPort: nat)
    requires b.ingress == []
    modifies b
    ensures b.types == (if Ingress in old(b.types) then old(b.types) else old(b.types) + [Ingress])
    ensures b.egress == old(b.egress) && b.ingress == [Rule(SortPorts(IngressPorts(ports, metricsPort)))]
  {
    hide SortPorts;
    var rule := b.NewRule(Ingress);
    ghost var types := b.types;
    rule.OnPort(TCP, metricsPort);
    for i := 0 to |ports|
      invariant b.types == types && b.ingress == [] && b.egress == old(b.egress)
      invariant rule.ports == IngressPorts(ports[..i], metricsPort)
    {
      rule.OnPort(TCP, ports[i]);
    }
    assert ports[..|ports|] == ports;
    ghost var built := rule.ports;
    rule.End();
    OneRule(b.Rules(Ingress), PortsSorted([] + [Rule(built)]));
  }

  method RestrictEgress(b: PolicyBuilder, ports: seq<Port>)
    requires b.egress == [] && forall p :: p in ports ==> p.Numbered?
    modifies b
    ensures b.types == (if Egress in old(b.types) then old(b.types) else old(b.types) + [Egress])
    ensures b.ingress == old(b.ingress) && b.egress == [Rule(SortPorts(EgressPorts(ports)))]
  {
    hide SortPorts;
    var rule := b.NewRule(Egress);
    ghost var types := b.types;
    rule.OnNamedPort(UDP, DNS_PORT_NAME);
    rule.OnPort(TCP, KUBE_API_PORT);
    for i := 0 to |ports|
      invariant b.types == types && b.egress == [] && b.ingress == old(b.ingress)
      invariant rule.ports == EgressPorts(ports[..i])
    {
      assert ports[i] in ports;
      rule.OnPort(ports[i].protocol, ports[i].number);
    }
    assert ports[..|ports|] == ports;
    ghost var built := rule.ports;
    rule.End();
    OneRule(b.Rules(Egress), PortsSorted([] + [Rule(built)]));
  }

  /** The rule set that restricts both directions, for a new policy. */
  method RestrictIngressEgress(ingressPorts: seq<nat>, egressPorts: seq<Port>, metricsPort: nat) returns (b: PolicyBuilder)
    requires forall p :: p in egressPorts ==> p.Numbered?
    ensures fresh(b) && b.types == [Ingress, Egress]
    ensures b.ingress == [Rule(SortPorts(IngressPorts(ingressPorts, metricsPort)))]
    ensures b.egress == [Rule(SortPorts(EgressPorts(egressPorts)))]
  {
    b := new PolicyBuilder();
    RestrictIngress(b, ingressPorts, metricsPort);
    RestrictEgress(b, egressPorts);
  }

  lemma OneRule(a: seq<Rule>, b: seq<Rule>)
    requires |a| == |b| == 1 && multiset(a) == multiset(b)
    ensures a == b
  {
    assert a[0] in multiset(b);
  }

  /** Two walks over the same sets of ports end in the same policy. */
  lemma PolicyOfSets(ingress1: seq<nat>, ingress2: seq<nat>, egress1: seq<Port>, egress2: seq<Port>, metricsPort: nat)
    requires multiset(ingress1) == multiset(ingress2) && multiset(egress1) == multiset(egress2)
    ensures SortPorts(IngressPorts(ingress1, metricsPort)) == SortPorts(IngressPorts(ingress2, metricsPort))
    ensures SortPorts(EgressPorts(egress1)) == SortPorts(EgressPorts(egress2))
  {
    MapMultiset(TcpPort, ingress1, ingress2);
    SortPortsSame(IngressPorts(ingress1, metricsPort), IngressPorts(ingress2, metricsPort));
    SortPortsSame(EgressPorts(egress1), EgressPorts(egress2));
  }

  // -------- several rules in one direction

  /** No two different rules have the same number of ports. */
  ghost predicate SizesTell(rules: seq<Rule>) {
    forall a, b :: a in rules && b in rules && |a.ports| == |b.ports| ==> a == b
  }

  lemma MultisetMembers<T>(s: seq<T>, t: seq<T>)
    requires multiset(s) == multiset(t)
    ensures forall x :: x in s <==> x in t
  {
    forall x ensures x in s <==> x in t {
      assert x in s <==> x in multiset(s);
      assert x in t <==> x in multiset(t);
    }
  }

  lemma SameHead(s: seq<Rule>, t: seq<Rule>)
    requires ByLength(s) && ByLength(t) && multiset(s) == multiset(t) && SizesTell(s) && s != []
    ensures t != [] && s[0] == t[0]
  {
    MultisetMembers(s, t);
    assert s[0] in t && t[0] in s;
  }

  lemma TailInOrder(s: seq<Rule>)
    requires ByLength(s) && SizesTell(s) && s != []
    ensures ByLength(s[1..]) && SizesTell(s[1..])
  {
  }

  lemma TailByLength(s: seq<Rule>)
    requires ByLength(s) && s != []
    ensures ByLength(s[1..])
  {
  }

  lemma {:induction false} OrderUnique(s: seq<Rule>, t: seq<Rule>)
    requires ByLength(s) && ByLength(t) && multiset(s) == multiset(t) && SizesTell(s)
    ensures s == t
  {
    hide ByLength, SizesTell;
    if s == [] {
      assert |multiset(t)| == 0;
    } else {
      SameHead(s, t);
      TailMultiset(s);
      TailMultiset(t);
      TailInOrder(s);
      TailByLength(t);
      OrderUnique(s[1..], t[1..]);
      assert s == [s[0]] + s[1..] && t == [t[0]] + t[1..];
    }
  }

  lemma {:induction false} OrderExists(rules: seq<Rule>) returns (r: seq<Rule>)
    ensures Ordered(r, rules)
  {
    if rules == [] {
      r := [];
    } else {
      var x := rules[0];
      var rest := OrderExists(rules[1..]);
      var k := |rest|;
      while k > 0 && |rest[k - 1].ports| > |x.ports|
        invariant 0 <= k <= |rest|
        invariant forall j :: k <= j < |rest| ==> |rest[j].ports| > |x.ports|
      {
        k := k - 1;
      }
      InsertKeepsOrder(rest, x, k);
      InsertMultisetAt(rest, x, k);
      HeadMultiset(rules);
      r := rest[..k] + [x] + rest[k..];
    }
  }

  /** Two different rules of equal size can change places. */
  lemma OrderSwaps(s: seq<Rule>, i: nat, j: nat) returns (t: seq<Rule>)
    requires ByLength(s) && i < |s| && j < |s| && |s[i].ports| == |s[j].ports| && s[i] != s[j]
    ensures Ordered(t, s) && t != s
  {
    t := s[i := s[j]][j := s[i]];
    assert t[i] == s[j];
    assert multiset(t) == multiset(s);
  }

  lemma OtherOrder(rules: seq<Rule>) returns (s: seq<Rule>, t: seq<Rule>)
    requires !SizesTell(rules)
    ensures Ordered(s, rules) && Ordered(t, rules) && s != t
  {
    var a, b :| a in rules && b in rules && |a.ports| == |b.ports| && a != b;
    s := OrderExists(rules);
    MultisetMembers(s, rules);
    var i :| 0 <= i < |s| && s[i] == a;
    var j :| 0 <= j < |s| && s[j] == b;
    t := OrderSwaps(s, i, j);
  }

  /** Sorting by size settles the order of the rules exactly when their sizes tell them apart. */
  lemma OrderSettledIff(rules: seq<Rule>)
    ensures (forall s, t :: Ordered(s, rules) && Ordered(t, rules) ==> s == t) <==> SizesTell(rules)
  {
    if SizesTell(rules) {
      forall s, t | Ordered(s, rules) && Ordered(t, rules) ensures s == t {
        MultisetMembers(s, rules);
        OrderUnique(s, t);
      }
    } else {
      hide SizesTell, Ordered;
      var s, t := OtherOrder(rules);
    }
  }

  /** The rules of one direction while `rules` are built and ended one after the other. */
  ghost predicate Builds(states: seq<seq<Rule>>, rules: seq<Rule>) {
    |states| == |rules| + 1 && states[0] == [] && forall k :: 0 <= k < |rules| ==> Ended(states[k], rules[k], states[k + 1])
  }

  lemma SortPortsTwice(ports: seq<Port>)
    ensures SortPorts(SortPorts(ports)) == SortPorts(ports)
  {
    SortPortsMultiset(ports);
    SortPortsSame(SortPorts(ports), ports);
  }

  lemma PortsSortedMultiset(a: seq<Rule>, b: seq<Rule>)
    requires multiset(a) == multiset(b)
    ensures multiset(PortsSorted(a)) == multiset(PortsSorted(b))
  {
    hide SortPorts;
    var f := (r: Rule) => Rule(SortPorts(r.ports));
    MapMultiset(f, a, b);
    assert Map(f, a) == PortsSorted(a) && Map(f, b) == PortsSorted(b);
  }

  lemma PortsSortedTwice(rules: seq<Rule>)
    ensures PortsSorted(PortsSorted(rules)) == PortsSorted(rules)
  {
    hide SortPorts;
    forall k | 0 <= k < |rules| ensures PortsSorted(PortsSorted(rules))[k] == PortsSorted(rules)[k] {
      SortPortsTwice(rules[k].ports);
    }
  }

  lemma SameSorted(before: seq<Rule>, init: seq<Rule>, rule: Rule)
    requires multiset(before) == multiset(PortsSorted(init))
    ensures multiset(PortsSorted(before + [rule])) == multiset(PortsSorted(init + [rule]))
  {
    PortsSortedTwice(init);
    PortsSortedMultiset(before, PortsSorted(init));
    SortedSnoc(before, rule);
    SortedSnoc(init, rule);
    hide PortsSorted, SortPorts;
  }

  /** However the sorts along the way fall out, the rules built so far are there, each with its ports sorted. */
  lemma {:induction false} BuildContents(states: seq<seq<Rule>>, rules: seq<Rule>, k: nat)
    requires Builds(states, rules) && k <= |rules|
    ensures multiset(states[k]) == multiset(PortsSorted(rules[..k]))
  {
    if k > 0 {
      BuildContents(states, rules, k - 1);
      assert Ended(states[k - 1], rules[k - 1], states[k]);
      hide PortsSorted, ByLength, Builds;
      assert rules[..k] == rules[..k - 1] + [rules[k - 1]];
      SameSorted(states[k - 1], rules[..k - 1], rules[k - 1]);
    }
  }

  lemma SortedSnoc(rules: seq<Rule>, rule: Rule)
    ensures PortsSorted(rules + [rule]) == PortsSorted(rules) + [Rule(SortPorts(rule.ports))]
  {
    hide SortPorts;
  }

  lemma BuildOrdered(states: seq<seq<Rule>>, rules: seq<Rule>)
    requires rules != [] && Builds(states, rules)
    ensures Ordered(states[|rules|], PortsSorted(rules))
  {
    BuildContents(states, rules, |rules|);
    assert rules[..|rules|] == rules;
    assert Ended(states[|rules| - 1], rules[|rules| - 1], states[|rules|]);
    hide PortsSorted;
  }

  /** Every order that sorting admits can be what a build ends with. */
  lemma BuildReaches(rules: seq<Rule>, final: seq<Rule>) returns (states: seq<seq<Rule>>)
    requires rules != [] && Ordered(final, PortsSorted(rules))
    ensures Builds(states, rules) && states[|rules|] == final
  {
    var init, last := rules[..|rules| - 1], rules[|rules| - 1];
    var before := BuildExists(init);
    BuildContents(before, init, |init|);
    assert init[..|init|] == init && rules == init + [last];
    SameSorted(before[|init|], init, last);
    assert Ended(before[|init|], last, final);
    hide Ended, PortsSorted, Ordered;
    states := before + [final];
    forall k | 0 <= k < |rules| ensures Ended(states[k], rules[k], states[k + 1]) {
      if k < |init| {
        assert Ended(before[k], init[k], before[k + 1]);
      }
    }
  }

  lemma {:induction false} BuildExists(rules: seq<Rule>) returns (states: seq<seq<Rule>>)
    ensures Builds(states, rules)
  {
    hide PortsSorted, Ordered;
    if rules == [] {
      states := [[]];
    } else {
      var n := |rules| - 1;
      var init := BuildExists(rules[..n]);
      var last := OrderExists(PortsSorted(init[n] + [rules[n]]));
      states := init + [last];
      forall k | 0 <= k < |rules| ensures Ended(states[k], rules[k], states[k + 1]) {
        if k < n {
          assert Ended(init[k], rules[..n][k], init[k + 1]);
        }
      }
    }
  }

  /** Any two builds of the same rules end alike exactly when no two of them that differ as port collections have the same size. */
  lemma BuildsAgreeIff(rules: seq<Rule>)
    requires rules != []
    ensures (forall s, t :: Builds(s, rules) && Builds(t, rules) ==> s[|rules|] == t[|rules|]) <==> SizesTell(PortsSorted(rules))
  {
    var sorted := PortsSorted(rules);
    hide Ended, Ordered, SizesTell, PortsSorted;
    OrderSettledIff(sorted);
    if SizesTell(sorted) {
      forall s, t | Builds(s, rules) && Builds(t, rules) ensures s[|rules|] == t[|rules|] {
        BuildOrdered(s, rules);
        BuildOrdered(t, rules);
      }
    } else {
      var x, y := OtherOrder(sorted);
      var s := BuildReaches(rules, x);
      var t := BuildReaches(rules, y);
    }
  }
}
