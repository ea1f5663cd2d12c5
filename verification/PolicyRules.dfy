/** Rules per pod interface, the form between the renderer and the TC generator, and what they mean for a packet. */
module PolicyRules {
  import opened Collections
  import opened Net
  import opened Classifier

  datatype PortProtocol = TCP | UDP
  datatype Port = Port(protocol: PortProtocol, number: u16)
  datatype PolicyAction = ActionPass | ActionDrop | ActionOther(name: string)
  datatype PolicyType = Ingress | Egress

  datatype Rule = Rule(ipCidrs: seq<IPNet>, ports: seq<Port>, action: PolicyAction)

  datatype InterfaceInfo = InterfaceInfo(network: string, interfaceName: string, ips: seq<Option<IP>>, deviceID: string)

  /** `rules` is absent when no policy isolates the interface, which differs from present and empty. */
  datatype PolicyRuleSet = PolicyRuleSet(ifcInfo: InterfaceInfo, kind: PolicyType, rules: Option<seq<Rule>>)

  predicate PortMatches(port: Port, p: Packet) {
    p.payload.IPPayload? && p.payload.dstPort == port.number &&
    match port.protocol
    case TCP => p.payload.proto == L4TCP
    case UDP => p.payload.proto == L4UDP
  }

  predicate AnyCovers(cidrs: seq<IPNet>, d: Dst) {
    exists i :: 0 <= i < |cidrs| && Covers(cidrs[i], d)
  }

  predicate AnyPortMatches(ports: seq<Port>, p: Packet) {
    exists i :: 0 <= i < |ports| && PortMatches(ports[i], p)
  }

  /** A rule without ranges matches every address, and one without ports every port. */
  predicate RuleMatches(r: Rule, p: Packet) {
    IsPolicyTraffic(p) &&
    (r.ipCidrs == [] || AnyCovers(r.ipCidrs, p.payload.dst)) &&
    (r.ports == [] || AnyPortMatches(r.ports, p))
  }

  predicate SomeRuleMatches(rs: seq<Rule>, action: PolicyAction, p: Packet) {
    exists i :: 0 <= i < |rs| && rs[i].action == action && RuleMatches(rs[i], p)
  }

  /**
   * The meaning of an isolated interface's rules: a Drop rule wins over Pass rules, and what no rule matches is
   * dropped.
   */
  function RulesVerdict(rs: seq<Rule>, p: Packet): Verdict {
    if !IsPolicyTraffic(p) then NoHit
    else if SomeRuleMatches(rs, ActionDrop, p) then Drop
    else if SomeRuleMatches(rs, ActionPass, p) then Pass
    else Drop
  }

  /** The key that rule sets are collected under. */
  function GetUID(network: string, interfaceName: string): string {
    network + "/" + interfaceName
  }

  lemma ShorterNetworkMeansSlash(n1: string, i1: string, n2: string, i2: string)
    requires GetUID(n1, i1) == GetUID(n2, i2) && |n1| < |n2|
    ensures '/' in i1
  {
    assert i1[|n2| - |n1| - 1] == GetUID(n1, i1)[|n2|] == GetUID(n2, i2)[|n2|] == '/';
  }

  /** Without a slash in the interface names, a UID determines the network and the interface. */
  lemma UIDIsInjective(n1: string, i1: string, n2: string, i2: string)
    requires '/' !in i1 && '/' !in i2
    requires GetUID(n1, i1) == GetUID(n2, i2)
    ensures n1 == n2 && i1 == i2
  {
    var u, v := GetUID(n1, i1), GetUID(n2, i2);
    if |n1| == |n2| {
      assert n1 == u[..|n1|] && n2 == v[..|n2|];
      assert i1 == u[|n1| + 1..] && i2 == v[|n2| + 1..];
    } else if |n1| < |n2| {
      ShorterNetworkMeansSlash(n1, i1, n2, i2);
    } else {
      ShorterNetworkMeansSlash(n2, i2, n1, i1);
    }
  }

  lemma UIDsCanCollide()
    ensures GetUID("a", "b/c") == GetUID("a/b", "c")
  {
  }
}
