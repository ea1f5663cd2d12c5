/** From policies to packets: what passes an isolated interface is what its policies allow. */
module EndToEnd {
  import opened Collections
  import opened Net
  import opened TcTypes
  import opened Classifier
  import opened PolicyRules
  import opened Generator
  import opened GeneratorMeaning
  import opened Cluster
  import opened PolicyMeaning
  import opened Renderer

  // ----- what the rendered rules match -----

  ghost predicate ShapeMatches(s: RuleShape, p: Packet) {
    IsPolicyTraffic(p) &&
    (s.cidrs == iset{} || AnyShapeCovers(s.cidrs, p.payload.dst)) &&
    (s.ports == [] || AnyPortMatches(s.ports, p))
  }

  lemma ShapeMatchesRule(r: Rule, p: Packet)
    ensures RuleMatches(r, p) <==> ShapeMatches(Shape(r), p)
  {
    var cidrs := Shape(r).cidrs;
    if r.ipCidrs != [] {
      assert r.ipCidrs[0] in cidrs;
    }
    if IsPolicyTraffic(p) {
      if AnyCovers(r.ipCidrs, p.payload.dst) {
        var i :| 0 <= i < |r.ipCidrs| && Covers(r.ipCidrs[i], p.payload.dst);
        assert r.ipCidrs[i] in cidrs;
      }
      if AnyShapeCovers(cidrs, p.payload.dst) {
        var c :| c in cidrs && Covers(c, p.payload.dst);
        var i :| 0 <= i < |r.ipCidrs| && r.ipCidrs[i] == c;
      }
    }
  }

  ghost predicate SomeShapeMatches(shapes: seq<RuleShape>, action: PolicyAction, p: Packet) {
    exists i :: 0 <= i < |shapes| && shapes[i].action == action && ShapeMatches(shapes[i], p)
  }

  lemma SomeShapeMatchesRules(rs: seq<Rule>, action: PolicyAction, p: Packet)
    ensures SomeRuleMatches(rs, action, p) <==> SomeShapeMatches(Shapes(rs), action, p)
  {
    forall i | 0 <= i < |rs|
      ensures RuleMatches(rs[i], p) <==> ShapeMatches(Shapes(rs)[i], p)
    {
      ShapeMatchesRule(rs[i], p);
    }
    if i :| 0 <= i < |rs| && rs[i].action == action && RuleMatches(rs[i], p) {
      assert ShapeMatches(Shapes(rs)[i], p);
    }
  }

  lemma SomeShapeFlatMap<A>(f: A -> seq<RuleShape>, s: seq<A>, action: PolicyAction, p: Packet)
    ensures SomeShapeMatches(FlatMap(f, s), action, p) <==>
            exists i :: 0 <= i < |s| && SomeShapeMatches(f(s[i]), action, p)
  {
    FlatMapMember(f, s);
    var all := FlatMap(f, s);
    if SomeShapeMatches(all, action, p) {
      var k :| 0 <= k < |all| && all[k].action == action && ShapeMatches(all[k], p);
      assert all[k] in all;
    }
    if i :| 0 <= i < |s| && SomeShapeMatches(f(s[i]), action, p) {
      var k :| 0 <= k < |f(s[i])| && f(s[i])[k].action == action && ShapeMatches(f(s[i])[k], p);
      assert f(s[i])[k] in all;
    }
  }

  lemma SomeShapeAppend(a: seq<RuleShape>, b: seq<RuleShape>, action: PolicyAction, p: Packet)
    ensures SomeShapeMatches(a + b, action, p) <==> SomeShapeMatches(a, action, p) || SomeShapeMatches(b, action, p)
  {
    if k :| 0 <= k < |a| && a[k].action == action && ShapeMatches(a[k], p) {
      assert (a + b)[k] == a[k];
    }
    if k :| 0 <= k < |b| && b[k].action == action && ShapeMatches(b[k], p) {
      assert (a + b)[|a| + k] == b[k];
    }
  }

  /** The port test of the rendered rules; with no usable port it lets every port through. */
  predicate PortsPass(e: EgressRule, p: Packet) {
    UsablePorts(e.ports) == [] || AnyPortMatches(UsablePorts(e.ports), p)
  }

  function TransportOfPort(port: Port): L4Proto {
    match port.protocol
    case TCP => L4TCP
    case UDP => L4UDP
  }

  /** A rule is rendered with ports exactly when some entry is expressible. */
  lemma UsableMeansExpressible(e: EgressRule)
    ensures UsablePorts(e.ports) != [] <==> SomeExpressible(e)
  {
    var ports := UsablePorts(e.ports);
    if ports != [] {
      UsablePortsAre(e.ports, ports[0]);
      assert ports[0] in ports;
    }
    if i :| 0 <= i < |e.ports| && Expressible(e.ports[i]) {
      PortOfEntry(e.ports[i]);
      var port := PortOf(e.ports[i])[0];
      assert EntryIsPort(e.ports[i], port);
      UsablePortsAre(e.ports, port);
    }
  }

  /** The rendered ports match exactly the transports and numbers that expressible entries name. */
  lemma UsablePortsMatch(e: EgressRule, p: Packet)
    requires p.payload.IPPayload?
    ensures AnyPortMatches(UsablePorts(e.ports), p) <==> Expressed(e, p.payload.proto, p.payload.dstPort)
  {
    var ports := UsablePorts(e.ports);
    if k :| 0 <= k < |ports| && PortMatches(ports[k], p) {
      assert ports[k] in ports;
      UsablePortsAre(e.ports, ports[k]);
    }
    if i :| 0 <= i < |e.ports| && Expressible(e.ports[i]) && TransportOf(e.ports[i]) == Some(p.payload.proto) &&
            e.ports[i].port.number == p.payload.dstPort {
      var port := Port(if p.payload.proto == L4UDP then UDP else TCP, p.payload.dstPort);
      assert EntryIsPort(e.ports[i], port);
      UsablePortsAre(e.ports, port);
      var k :| 0 <= k < |ports| && ports[k] == port;
      assert PortMatches(ports[k], p);
    }
  }

  /** An entry that is kept needs no other to cover it. */
  lemma KeptEntryIsCovered(e: EgressRule, i: nat)
    requires i < |e.ports| && PortOf(e.ports[i]) != []
    ensures Expressible(e.ports[i]) && EntryCovered(e, e.ports[i])
  {
    PortOfEntry(e.ports[i]);
  }

  lemma ExactPortsPass(e: EgressRule, p: Packet)
    requires PortsExact(e)
    ensures PortsPass(e, p) <==> PortAllowed(e, p)
  {
    UsableMeansExpressible(e);
    if e.ports != [] && p.payload.IPPayload? {
      UsablePortsMatch(e, p);
      if Expressed(e, p.payload.proto, p.payload.dstPort) {
        var i :| 0 <= i < |e.ports| && Expressible(e.ports[i]) && TransportOf(e.ports[i]) == Some(p.payload.proto) &&
          e.ports[i].port.number == p.payload.dstPort;
        assert EntryMatches(e.ports[i], p);
      }
    }
  }

  /** Towards any destination some packet shows that the ports of the rule were not rendered as the policy has them. */
  lemma InexactPortsDiffer(e: EgressRule, d: Dst) returns (p: Packet)
    requires !PortsExact(e)
    ensures IsPolicyTraffic(p) && p.payload.dst == d
    ensures PortsPass(e, p) <==> !PortAllowed(e, p)
  {
    UsableMeansExpressible(e);
    if !SomeExpressible(e) {
      p := Packet(0, IPPayload(d, L4Other, 0));
    } else {
      var i, n := UncoveredPort(e);
      p := Packet(0, IPPayload(d, TransportOf(e.ports[i]).value, n));
      UsablePortsMatch(e, p);
      assert EntryMatches(e.ports[i], p);
    }
  }

  lemma UncoveredPort(e: EgressRule) returns (i: nat, n: u16)
    requires !PortsExact(e) && SomeExpressible(e)
    ensures i < |e.ports| && TransportOf(e.ports[i]).Some? && NamesPort(e.ports[i].port, n)
    ensures !Expressed(e, TransportOf(e.ports[i]).value, n)
  {
    i :| 0 <= i < |e.ports| && !EntryCovered(e, e.ports[i]);
    n :| TransportOf(e.ports[i]).Some? && NamesPort(e.ports[i].port, n) &&
         !Expressed(e, TransportOf(e.ports[i]).value, n);
  }

  // ----- one peer -----

  ghost predicate RendersNoNet(peer: Peer, policyNamespace: string, state: State, network: string) {
    SelectedNets(peer.podSelector, peer.namespaceSelector, policyNamespace, state, network) == iset{}
  }

  /** No range is rendered for selectors exactly when they reach no address. */
  lemma NoNetMeansNothing(peer: Peer, policyNamespace: string, state: State, network: string)
    requires peer.ipBlock.None? && HasUsableSelectors(peer)
    ensures RendersNoNet(peer, policyNamespace, state, network) <==>
            ReachesNothing(peer, policyNamespace, state, network)
  {
    var nets := SelectedNets(peer.podSelector, peer.namespaceSelector, policyNamespace, state, network);
    forall d
      ensures PeerReaches(peer, policyNamespace, state, network, d) <==> AnyShapeCovers(nets, d)
    {
      SelectorIsExact(peer.podSelector, peer.namespaceSelector, policyNamespace, state, network, d);
      assert peer == Peer(None, peer.podSelector, peer.namespaceSelector);
    }
    if nets != iset{} {
      var c :| c in nets;
      CoversOwnAddress(c);
      assert PeerReaches(peer, policyNamespace, state, network, AsDst(c.ip));
    }
  }

  ghost predicate PeerPasses(peer: Peer, e: EgressRule, policyNamespace: string, state: State, network: string,
      p: Packet) {
    SomeShapeMatches(PeerShapes(peer, UsablePorts(e.ports), policyNamespace, state, network), ActionPass, p)
  }

  ghost predicate PeerDrops(peer: Peer, e: EgressRule, policyNamespace: string, state: State, network: string,
      p: Packet) {
    SomeShapeMatches(PeerShapes(peer, UsablePorts(e.ports), policyNamespace, state, network), ActionDrop, p)
  }

  /** The Drop rules of a peer match its exceptions, on the ports of the rule. */
  lemma PeerDropsExceptions(
    peer: Peer, e: EgressRule, policyNamespace: string, state: State, network: string, p: Packet)
    ensures PeerDrops(peer, e, policyNamespace, state, network, p) <==>
            IsPolicyTraffic(p) && PeerExcepts(peer, p.payload.dst) && PortsPass(e, p)
  {
    if peer.ipBlock.Some? {
      var b, ports := peer.ipBlock.value, UsablePorts(e.ports);
      SomeShapeMatchesRules(IPBlockRules(b, ports), ActionDrop, p);
      if IsPolicyTraffic(p) {
        ExceptNetsCover(b, p.payload.dst);
      }
      if b.cidr.Some? && ExceptNets(b) != [] {
        assert IPBlockRules(b, ports)[1] == Rule(ExceptNets(b), ports, ActionDrop);
      }
    }
  }

  /** What the Pass rule of a peer with usable selectors matches. */
  lemma SelectorPeerPasses(
    peer: Peer, e: EgressRule, policyNamespace: string, state: State, network: string, p: Packet)
    requires peer.ipBlock.None? && HasUsableSelectors(peer)
    ensures PeerPasses(peer, e, policyNamespace, state, network, p) <==>
            IsPolicyTraffic(p) && PortsPass(e, p) &&
            if RendersNoNet(peer, policyNamespace, state, network) then UsablePorts(e.ports) != []
            else PeerReaches(peer, policyNamespace, state, network, p.payload.dst)
  {
    var ports := UsablePorts(e.ports);
    var nets := SelectedNets(peer.podSelector, peer.namespaceSelector, policyNamespace, state, network);
    var shapes := PeerShapes(peer, ports, policyNamespace, state, network);
    if nets == iset{} && ports == [] {
      assert shapes == [];
    } else {
      assert shapes == [RuleShape(nets, ports, ActionPass)];
      assert SomeShapeMatches(shapes, ActionPass, p) <==> ShapeMatches(shapes[0], p);
    }
    if IsPolicyTraffic(p) {
      SelectorIsExact(peer.podSelector, peer.namespaceSelector, policyNamespace, state, network, p.payload.dst);
    }
  }

  lemma BlockPeerPasses(
    peer: Peer, e: EgressRule, policyNamespace: string, state: State, network: string, p: Packet)
    requires peer.ipBlock.Some?
    ensures PeerPasses(peer, e, policyNamespace, state, network, p) <==>
            IsPolicyTraffic(p) && PortsPass(e, p) && PeerReaches(peer, policyNamespace, state, network, p.payload.dst)
  {
    var b, ports := peer.ipBlock.value, UsablePorts(e.ports);
    SomeShapeMatchesRules(IPBlockRules(b, ports), ActionPass, p);
    if b.cidr.Some? {
      assert IPBlockRules(b, ports)[0] == Rule([b.cidr.value], ports, ActionPass);
      assert IsPolicyTraffic(p) ==>
          (AnyCovers([b.cidr.value], p.payload.dst) <==> Covers([b.cidr.value][0], p.payload.dst));
    }
  }

  lemma UnusablePeerReachesNothing(peer: Peer, policyNamespace: string, state: State, network: string, d: Dst)
    requires peer.ipBlock.None? && !HasUsableSelectors(peer)
    ensures !PeerReaches(peer, policyNamespace, state, network, d)
  {
  }

  ghost predicate PassesAsMeant(peer: Peer, e: EgressRule, policyNamespace: string, state: State, network: string,
      p: Packet) {
    PeerPasses(peer, e, policyNamespace, state, network, p) <==>
    IsPolicyTraffic(p) && PortAllowed(e, p) && PeerReaches(peer, policyNamespace, state, network, p.payload.dst)
  }

  lemma MeantPeerIsExact(
    peer: Peer, e: EgressRule, policyNamespace: string, state: State, network: string, p: Packet)
    requires RenderedAsMeant(peer, e, policyNamespace, state, network)
    ensures PassesAsMeant(peer, e, policyNamespace, state, network, p)
  {
    if peer.ipBlock.Some? {
      BlockPeerPasses(peer, e, policyNamespace, state, network, p);
      if PortsExact(e) {
        ExactPortsPass(e, p);
      }
    } else if !HasUsableSelectors(peer) {
      if IsPolicyTraffic(p) {
        UnusablePeerReachesNothing(peer, policyNamespace, state, network, p.payload.dst);
      }
    } else {
      SelectorPeerPasses(peer, e, policyNamespace, state, network, p);
      NoNetMeansNothing(peer, policyNamespace, state, network);
      UsableMeansExpressible(e);
      if RendersNoNet(peer, policyNamespace, state, network) {
        assert IsPolicyTraffic(p) ==> !PeerReaches(peer, policyNamespace, state, network, p.payload.dst);
      } else {
        ExactPortsPass(e, p);
      }
    }
  }

  /** A packet that a peer which is not rendered as meant treats against the policy. */
  lemma UnmeantPeerDiffers(peer: Peer, e: EgressRule, policyNamespace: string, state: State, network: string)
    returns (p: Packet)
    requires !RenderedAsMeant(peer, e, policyNamespace, state, network)
    ensures !PassesAsMeant(peer, e, policyNamespace, state, network, p)
  {
    if peer.ipBlock.Some? {
      var c := peer.ipBlock.value.cidr.value;
      p := InexactPortsDiffer(e, AsDst(c.ip));
      CoversOwnAddress(c);
      BlockPeerPasses(peer, e, policyNamespace, state, network, p);
    } else {
      NoNetMeansNothing(peer, policyNamespace, state, network);
      UsableMeansExpressible(e);
      if RendersNoNet(peer, policyNamespace, state, network) {
        var port := UsablePorts(e.ports)[0];
        p := Packet(0, IPPayload(Dst4(0), TransportOfPort(port), port.number));
        assert PortMatches(UsablePorts(e.ports)[0], p);
        SelectorPeerPasses(peer, e, policyNamespace, state, network, p);
      } else {
        var d :| PeerReaches(peer, policyNamespace, state, network, d);
        p := InexactPortsDiffer(e, d);
        SelectorPeerPasses(peer, e, policyNamespace, state, network, p);
      }
    }
  }

  /** A peer's Pass rules match what the policy says, for all packets, exactly when it is rendered as meant. */
  lemma PeerIsExactIffMeant(peer: Peer, e: EgressRule, policyNamespace: string, state: State, network: string)
    ensures (forall p :: PassesAsMeant(peer, e, policyNamespace, state, network, p)) <==>
            RenderedAsMeant(peer, e, policyNamespace, state, network)
  {
    if RenderedAsMeant(peer, e, policyNamespace, state, network) {
      forall p { MeantPeerIsExact(peer, e, policyNamespace, state, network, p); }
    } else {
      var p := UnmeantPeerDiffers(peer, e, policyNamespace, state, network);
    }
  }

  // ----- one egress rule -----

  ghost predicate ReachesSomePeer(e: EgressRule, policyNamespace: string, state: State, network: string, d: Dst) {
    e.to == [] || exists i :: 0 <= i < |e.to| && PeerReaches(e.to[i], policyNamespace, state, network, d)
  }

  /** The Pass rules of an egress rule match what it reaches on its ports, before any exception. */
  lemma EgressPasses(e: EgressRule, policyNamespace: string, state: State, network: string, p: Packet)
    requires IsPolicyTraffic(p) && RuleAsMeant(e, policyNamespace, state, network)
    ensures SomeShapeMatches(EgressShapes(e, policyNamespace, state, network), ActionPass, p) <==>
            PortAllowed(e, p) && ReachesSomePeer(e, policyNamespace, state, network, p.payload.dst)
  {
    var ports := UsablePorts(e.ports);
    var f := PerPeer(ports, policyNamespace, state, network);
    var tail := if e.to == [] then [RuleShape(iset{}, ports, ActionPass)] else [];
    SomeShapeFlatMap(f, e.to, ActionPass, p);
    SomeShapeAppend(FlatMap(f, e.to), tail, ActionPass, p);
    if e.to == [] {
      assert SomeShapeMatches(tail, ActionPass, p) <==> ShapeMatches(tail[0], p);
      ExactPortsPass(e, p);
    } else {
      forall i | 0 <= i < |e.to|
        ensures SomeShapeMatches(f(e.to[i]), ActionPass, p) <==>
                PortAllowed(e, p) && PeerReaches(e.to[i], policyNamespace, state, network, p.payload.dst)
      {
        MeantPeerIsExact(e.to[i], e, policyNamespace, state, network, p);
        assert f(e.to[i]) == PeerShapes(e.to[i], ports, policyNamespace, state, network);
      }
    }
  }

  /** The rendering of an egress rule without peers passes a packet. */
  ghost predicate PassesWithoutPeers(e: EgressRule, policyNamespace: string, state: State, network: string, p: Packet) {
    SomeShapeMatches(EgressShapes(e, policyNamespace, state, network), ActionPass, p)
  }

  /** A rule without peers passes, for all policy traffic, what its ports allow exactly when its ports are exact. */
  lemma RuleWithoutPeersIsExactIff(e: EgressRule, policyNamespace: string, state: State, network: string)
    requires e.to == []
    ensures (forall p :: IsPolicyTraffic(p) ==>
               (PassesWithoutPeers(e, policyNamespace, state, network, p) <==> PortAllowed(e, p))) <==>
            PortsExact(e)
  {
    forall p | IsPolicyTraffic(p)
      ensures PassesWithoutPeers(e, policyNamespace, state, network, p) <==> PortsPass(e, p)
      ensures PortsExact(e) ==> (PortsPass(e, p) <==> PortAllowed(e, p))
    {
      var shapes := EgressShapes(e, policyNamespace, state, network);
      assert shapes == [RuleShape(iset{}, UsablePorts(e.ports), ActionPass)];
      assert SomeShapeMatches(shapes, ActionPass, p) <==> ShapeMatches(shapes[0], p);
      if PortsExact(e) {
        ExactPortsPass(e, p);
      }
    }
    if !PortsExact(e) {
      var p := InexactPortsDiffer(e, Dst4(0));
    }
  }

  /** The Drop rules of an egress rule match its exceptions. */
  lemma EgressDrops(e: EgressRule, policyNamespace: string, state: State, network: string, p: Packet)
    requires IsPolicyTraffic(p) && RuleAsMeant(e, policyNamespace, state, network)
    ensures SomeShapeMatches(EgressShapes(e, policyNamespace, state, network), ActionDrop, p) <==> Excepts(e, p)
  {
    var ports := UsablePorts(e.ports);
    var f := PerPeer(ports, policyNamespace, state, network);
    var tail := if e.to == [] then [RuleShape(iset{}, ports, ActionPass)] else [];
    SomeShapeFlatMap(f, e.to, ActionDrop, p);
    SomeShapeAppend(FlatMap(f, e.to), tail, ActionDrop, p);
    forall i | 0 <= i < |e.to|
      ensures SomeShapeMatches(f(e.to[i]), ActionDrop, p) <==> PortAllowed(e, p) && PeerExcepts(e.to[i], p.payload.dst)
    {
      assert f(e.to[i]) == PeerShapes(e.to[i], ports, policyNamespace, state, network);
      PeerDropsExceptions(e.to[i], e, policyNamespace, state, network, p);
      if PeerExcepts(e.to[i], p.payload.dst) {
        ExactPortsPass(e, p);
      }
    }
  }

  // ----- all policies of an interface -----

  /** The renderer applies the policies that are about the pod. */
  lemma ApplicableIsSelected(pod: PodInfo, policy: Policy)
    ensures Applicable(pod, policy) <==> PolicySelects(policy, pod)
    ensures PolicyAppliesForPod(pod, policy).Err? <==>
            policy.namespace == pod.namespace && policy.podSelector.Unconvertible?
  {
  }

  lemma AppliesToConcerned(info: PolicyInfo, target: PodInfo, key: string)
    ensures AppliesTo(target, info, key) <==> exists i: nat :: Concerns(info, target, key, i)
  {
    ApplicableIsSelected(target, info.policy);
    if AppliesTo(target, info, key) {
      var i :| 0 <= i < |target.interfaces| && UIDOf(target.interfaces[i]) == key &&
        NamesNetwork(info, target.interfaces[i].netattachName);
      assert Concerns(info, target, key, i);
    }
    if i: nat :| Concerns(info, target, key, i) {
      assert UIDOf(target.interfaces[i]) == key && NamesNetwork(info, target.interfaces[i].netattachName);
    }
  }

  /** Rules are present exactly when some policy isolates the interface, hence a policy of the pod's own namespace. */
  lemma PresentIffIsolated(ruleSet: PolicyRuleSet, target: PodInfo, policies: map<NamespacedName, PolicyInfo>,
                           state: State, order: seq<NamespacedName>)
    requires IsRenderedSet(ruleSet, target, policies, state, order)
    ensures ruleSet.rules.Some? <==> Isolated(target, policies, SetKey(ruleSet))
  {
    var key := SetKey(ruleSet);
    assert UIDOfSet(ruleSet) == key;
    forall k | k in policies
      ensures AppliesTo(target, policies[k], key) <==> exists i: nat :: Concerns(policies[k], target, key, i)
    {
      AppliesToConcerned(policies[k], target, key);
    }
  }

  /** A rule set carries the network, the name, the addresses and the device of an interface of the pod. */
  lemma SetIsOfInterface(ruleSet: PolicyRuleSet, target: PodInfo, policies: map<NamespacedName, PolicyInfo>,
                         state: State, order: seq<NamespacedName>) returns (i: nat)
    requires IsRenderedSet(ruleSet, target, policies, state, order)
    ensures ruleSet.kind == Egress && i < |target.interfaces|
    ensures ruleSet.ifcInfo.network == target.interfaces[i].netattachName
    ensures ruleSet.ifcInfo.interfaceName == target.interfaces[i].interfaceName
    ensures ruleSet.ifcInfo.deviceID == target.interfaces[i].deviceID && ruleSet.ifcInfo.ips == target.interfaces[i].ips
    ensures SetKey(ruleSet) == InterfaceKey(target.interfaces[i])
  {
    i :| 0 <= i < |target.interfaces| && ruleSet.ifcInfo == InfoOf(target.interfaces[i]);
  }

  /** The rule set is the one of the interface. */
  predicate IsSetOf(ruleSet: PolicyRuleSet, ifc: Interface) {
    SetKey(ruleSet) == InterfaceKey(ifc)
  }

  predicate HasSet(ruleSets: seq<PolicyRuleSet>, ifc: Interface) {
    exists j :: 0 <= j < |ruleSets| && IsSetOf(ruleSets[j], ifc)
  }

  predicate IsOfPod(ruleSet: PolicyRuleSet, target: PodInfo) {
    exists i :: 0 <= i < |target.interfaces| && IsSetOf(ruleSet, target.interfaces[i])
  }

  /** Every interface of the pod has one rule set, and there are no others. */
  lemma EveryInterfaceIsRendered(ruleSets: seq<PolicyRuleSet>, target: PodInfo,
                                 policies: map<NamespacedName, PolicyInfo>, state: State, order: seq<NamespacedName>)
    requires IsRendering(ruleSets, target, policies, state, order)
    ensures forall i :: 0 <= i < |target.interfaces| ==> HasSet(ruleSets, target.interfaces[i])
    ensures forall j :: 0 <= j < |ruleSets| ==> IsOfPod(ruleSets[j], target)
    ensures forall j, k :: 0 <= j < k < |ruleSets| ==> SetKey(ruleSets[j]) != SetKey(ruleSets[k])
  {
    assert forall j :: 0 <= j < |ruleSets| ==> UIDOfSet(ruleSets[j]) == SetKey(ruleSets[j]);
    forall i | 0 <= i < |target.interfaces|
      ensures HasSet(ruleSets, target.interfaces[i])
    {
      assert HasInterface(target, UIDOf(target.interfaces[i]));
      var j :| 0 <= j < |ruleSets| && UIDOfSet(ruleSets[j]) == UIDOf(target.interfaces[i]);
      assert IsSetOf(ruleSets[j], target.interfaces[i]);
    }
    forall j | 0 <= j < |ruleSets|
      ensures IsOfPod(ruleSets[j], target)
    {
      var i := SetIsOfInterface(ruleSets[j], target, policies, state, order);
      assert IsSetOf(ruleSets[j], target.interfaces[i]);
    }
  }

  /** What the renderer combines is what governs an interface. */
  lemma GovernsAsRendered(target: PodInfo, policies: map<NamespacedName, PolicyInfo>, key: string,
                          k: NamespacedName, i: nat, n: nat)
    ensures Governs(target, policies, key, k, i, n) <==>
            k in policies && Applicable(target, policies[k].policy) &&
            i < |target.interfaces| && UIDOf(target.interfaces[i]) == key &&
            NamesNetwork(policies[k], target.interfaces[i].netattachName) &&
            n < |policies[k].policy.egress|
  {
    if k in policies {
      ApplicableIsSelected(target, policies[k].policy);
    }
  }

  ghost predicate ShapeOf(target: PodInfo, policies: map<NamespacedName, PolicyInfo>, uid: string, state: State,
                          k: NamespacedName, i: nat, n: nat, action: PolicyAction, p: Packet) {
    Governs(target, policies, uid, k, i, n) &&
    SomeShapeMatches(
      EgressShapes(policies[k].policy.egress[n], policies[k].policy.namespace, state,
        target.interfaces[i].netattachName),
      action, p)
  }

  /** A rule of the interface matches exactly when the rule rendered from some governing egress rule does. */
  lemma MatchingGovernor(target: PodInfo, policies: map<NamespacedName, PolicyInfo>, uid: string, state: State,
                         order: seq<NamespacedName>, action: PolicyAction, p: Packet)
    requires IsOrderOf(order, policies)
    ensures SomeShapeMatches(FlatMap(PerPolicy(target, policies, uid, state), order), action, p) <==>
            exists k, i: nat, n: nat :: ShapeOf(target, policies, uid, state, k, i, n, action, p)
  {
    var f := PerPolicy(target, policies, uid, state);
    SomeShapeFlatMap(f, order, action, p);
    if SomeShapeMatches(FlatMap(f, order), action, p) {
      var o :| 0 <= o < |order| && SomeShapeMatches(f(order[o]), action, p);
      var i, n := GovernorOfContribution(target, policies, order[o], uid, state, action, p);
    }
    if k, i: nat, n: nat :| ShapeOf(target, policies, uid, state, k, i, n, action, p) {
      ContributionOfGovernor(target, policies, k, uid, state, i, n, action, p);
      var o :| 0 <= o < |order| && order[o] == k;
      assert SomeShapeMatches(f(order[o]), action, p);
    }
  }

  lemma GovernorOfContribution(target: PodInfo, policies: map<NamespacedName, PolicyInfo>, k: NamespacedName,
                               uid: string, state: State, action: PolicyAction, p: Packet) returns (i: nat, n: nat)
    requires k in policies && SomeShapeMatches(Contribution(target, policies[k], uid, state), action, p)
    ensures ShapeOf(target, policies, uid, state, k, i, n, action, p)
  {
    var info := policies[k];
    var g := PerMatchingInterface(uid, info, state);
    SomeShapeFlatMap(g, target.interfaces, action, p);
    i :| 0 <= i < |target.interfaces| && SomeShapeMatches(g(target.interfaces[i]), action, p);
    var h := PerEgress(info.policy.namespace, state, target.interfaces[i].netattachName);
    SomeShapeFlatMap(h, info.policy.egress, action, p);
    n :| 0 <= n < |info.policy.egress| && SomeShapeMatches(h(info.policy.egress[n]), action, p);
    GovernsAsRendered(target, policies, uid, k, i, n);
  }

  lemma ContributionOfGovernor(target: PodInfo, policies: map<NamespacedName, PolicyInfo>, k: NamespacedName,
                               uid: string, state: State, i: nat, n: nat, action: PolicyAction, p: Packet)
    requires ShapeOf(target, policies, uid, state, k, i, n, action, p)
    ensures SomeShapeMatches(PerPolicy(target, policies, uid, state)(k), action, p)
  {
    var info := policies[k];
    GovernsAsRendered(target, policies, uid, k, i, n);
    var g := PerMatchingInterface(uid, info, state);
    SomeShapeFlatMap(g, target.interfaces, action, p);
    var h := PerEgress(info.policy.namespace, state, target.interfaces[i].netattachName);
    SomeShapeFlatMap(h, info.policy.egress, action, p);
    assert SomeShapeMatches(h(info.policy.egress[n]), action, p);
    assert SomeShapeMatches(g(target.interfaces[i]), action, p);
  }

  /** What the rules of an isolated interface mean, in terms of its policies. */
  lemma RenderedMeaning(ruleSet: PolicyRuleSet, target: PodInfo, policies: map<NamespacedName, PolicyInfo>,
                        state: State, order: seq<NamespacedName>, p: Packet)
    requires IsOrderOf(order, policies) && IsRenderedSet(ruleSet, target, policies, state, order)
    requires ruleSet.rules.Some? && IsPolicyTraffic(p)
    requires AllAsMeant(target, policies, SetKey(ruleSet), state)
    ensures SomeRuleMatches(ruleSet.rules.value, ActionDrop, p) <==>
            SomePolicyExcepts(target, policies, SetKey(ruleSet), p)
    ensures SomePolicyAllows(target, policies, SetKey(ruleSet), state, p) ==>
            SomeRuleMatches(ruleSet.rules.value, ActionPass, p)
    ensures !SomePolicyExcepts(target, policies, SetKey(ruleSet), p) ==>
              SomeRuleMatches(ruleSet.rules.value, ActionPass, p) ==>
              SomePolicyAllows(target, policies, SetKey(ruleSet), state, p)
  {
    var uid := SetKey(ruleSet);
    SomeShapeMatchesRules(ruleSet.rules.value, ActionDrop, p);
    SomeShapeMatchesRules(ruleSet.rules.value, ActionPass, p);
    MatchingGovernor(target, policies, uid, state, order, ActionDrop, p);
    MatchingGovernor(target, policies, uid, state, order, ActionPass, p);
    forall k, i: nat, n: nat | Governs(target, policies, uid, k, i, n)
      ensures ShapeOf(target, policies, uid, state, k, i, n, ActionDrop, p) <==> RuleExcepts(policies, k, n, p)
      ensures Allows(policies[k].policy.egress[n], policies[k].policy.namespace, state,
        target.interfaces[i].netattachName, p)
              ==> ShapeOf(target, policies, uid, state, k, i, n, ActionPass, p)
      ensures ShapeOf(target, policies, uid, state, k, i, n, ActionPass, p) && !RuleExcepts(policies, k, n, p) ==>
              Allows(policies[k].policy.egress[n], policies[k].policy.namespace, state,
                target.interfaces[i].netattachName, p)
    {
      var e, ns := policies[k].policy.egress[n], policies[k].policy.namespace;
      EgressDrops(e, ns, state, target.interfaces[i].netattachName, p);
      EgressPasses(e, ns, state, target.interfaces[i].netattachName, p);
    }
  }

  /** Every rendered rule comes from a governing egress rule. */
  lemma OriginOfRule(ruleSet: PolicyRuleSet, target: PodInfo, policies: map<NamespacedName, PolicyInfo>,
                     state: State, order: seq<NamespacedName>, r: nat) returns (k: NamespacedName, i: nat, n: nat)
    requires IsRenderedSet(ruleSet, target, policies, state, order) && ruleSet.rules.Some?
    requires r < |ruleSet.rules.value|
    ensures Governs(target, policies, SetKey(ruleSet), k, i, n)
    ensures Shape(ruleSet.rules.value[r]) in
              EgressShapes(policies[k].policy.egress[n], policies[k].policy.namespace, state,
                           target.interfaces[i].netattachName)
  {
    var f := PerPolicy(target, policies, UIDOfSet(ruleSet), state);
    var s := Shapes(ruleSet.rules.value)[r];
    assert s in FlatMap(f, order);
    FlatMapMember(f, order);
    var o :| 0 <= o < |order| && s in f(order[o]);
    k := order[o];
    i, n := OriginOfShape(target, policies, UIDOfSet(ruleSet), state, k, s);
  }

  lemma OriginOfShape(target: PodInfo, policies: map<NamespacedName, PolicyInfo>, uid: string, state: State,
                      k: NamespacedName, s: RuleShape) returns (i: nat, n: nat)
    requires k in policies && s in Contribution(target, policies[k], uid, state)
    ensures Governs(target, policies, uid, k, i, n)
    ensures s in EgressShapes(policies[k].policy.egress[n], policies[k].policy.namespace, state,
                              target.interfaces[i].netattachName)
  {
    var g := PerMatchingInterface(uid, policies[k], state);
    FlatMapMember(g, target.interfaces);
    i :| 0 <= i < |target.interfaces| && s in g(target.interfaces[i]);
    var h := PerEgress(policies[k].policy.namespace, state, target.interfaces[i].netattachName);
    FlatMapMember(h, policies[k].policy.egress);
    n :| 0 <= n < |policies[k].policy.egress| && s in h(policies[k].policy.egress[n]);
    GovernsAsRendered(target, policies, uid, k, i, n);
  }

  lemma PeerActionsKnown(peer: Peer, ports: seq<Port>, policyNamespace: string, state: State, network: string,
      s: RuleShape)
    requires s in PeerShapes(peer, ports, policyNamespace, state, network)
    ensures !s.action.ActionOther?
  {
  }

  lemma EgressActionsKnown(e: EgressRule, policyNamespace: string, state: State, network: string, s: RuleShape)
    requires s in EgressShapes(e, policyNamespace, state, network)
    ensures !s.action.ActionOther?
  {
    var q := PerPeer(UsablePorts(e.ports), policyNamespace, state, network);
    FlatMapMember(q, e.to);
    if s in FlatMap(q, e.to) {
      var m :| 0 <= m < |e.to| && s in q(e.to[m]);
      PeerActionsKnown(e.to[m], UsablePorts(e.ports), policyNamespace, state, network, s);
    }
  }

  /** The generator accepts whatever the renderer produces. */
  lemma RenderedActionsKnown(ruleSet: PolicyRuleSet, target: PodInfo, policies: map<NamespacedName, PolicyInfo>,
                             state: State, order: seq<NamespacedName>)
    requires IsRenderedSet(ruleSet, target, policies, state, order) && ruleSet.rules.Some?
    ensures KnownActions(ruleSet.rules.value)
  {
    var rules := ruleSet.rules.value;
    forall r | 0 <= r < |rules|
      ensures !rules[r].action.ActionOther?
    {
      var k, i, n := OriginOfRule(ruleSet, target, policies, state, order, r);
      EgressActionsKnown(policies[k].policy.egress[n], policies[k].policy.namespace, state,
                         target.interfaces[i].netattachName, Shape(rules[r]));
    }
  }

  /**
   * Without any hypothesis: a packet passes exactly when the rendering of some governing egress rule passes it and
   * that of none drops it. What follows compares these renderings with the policies.
   */
  lemma VerdictOfRenderings(ruleSet: PolicyRuleSet, target: PodInfo, policies: map<NamespacedName, PolicyInfo>,
                            state: State, order: seq<NamespacedName>, p: Packet, v: Verdict)
    requires IsOrderOf(order, policies) && IsRenderedSet(ruleSet, target, policies, state, order)
    requires ruleSet.rules.Some? && IsPolicyTraffic(p)
    ensures var uid := SetKey(ruleSet);
            MayGive(Compile(ruleSet.rules.value), p, v) <==>
            v == if (exists k, i: nat, n: nat :: ShapeOf(target, policies, uid, state, k, i, n, ActionPass, p)) &&
                    !(exists k, i: nat, n: nat :: ShapeOf(target, policies, uid, state, k, i, n, ActionDrop, p))
                 then Pass else Drop
  {
    RenderedActionsKnown(ruleSet, target, policies, state, order);
    CompilePreservesMeaning(ruleSet.rules.value, p, v);
    SomeShapeMatchesRules(ruleSet.rules.value, ActionDrop, p);
    SomeShapeMatchesRules(ruleSet.rules.value, ActionPass, p);
    MatchingGovernor(target, policies, SetKey(ruleSet), state, order, ActionDrop, p);
    MatchingGovernor(target, policies, SetKey(ruleSet), state, order, ActionPass, p);
  }

  /**
   * End to end: for all policies, pods and namespaces and every order of visiting them, the compiled filters of an
   * isolated interface pass an IP packet, tagged or not, exactly when some policy allows it and no policy's exception
   * names it; everything else is dropped.
   */
  lemma PolicyIsEnforced(ruleSet: PolicyRuleSet, target: PodInfo, policies: map<NamespacedName, PolicyInfo>,
                         state: State, order: seq<NamespacedName>, p: Packet, v: Verdict)
    requires IsOrderOf(order, policies) && IsRenderedSet(ruleSet, target, policies, state, order)
    requires ruleSet.rules.Some? && IsPolicyTraffic(p)
    requires AllAsMeant(target, policies, SetKey(ruleSet), state)
    ensures MayGive(Compile(ruleSet.rules.value), p, v) <==>
            v == if SomePolicyAllows(target, policies, SetKey(ruleSet), state, p)
                    && !SomePolicyExcepts(target, policies, SetKey(ruleSet), p) then Pass else Drop
  {
    RenderedActionsKnown(ruleSet, target, policies, state, order);
    CompilePreservesMeaning(ruleSet.rules.value, p, v);
    RenderedMeaning(ruleSet, target, policies, state, order, p);
  }

  // ----- where the code departs from the policy -----

  /** An entry for an unsupported protocol is skipped, and the rule left without ports opens every port. */
  lemma DiscardedPortsOpenAllPorts()
    ensures var e := EgressRule([PolicyPort(PortNumber(80), Some(K8sSCTP))], []);
            var p := Packet(0, IPPayload(Dst4(0), L4UDP, 53));
            !PortsExact(e) && !PortAllowed(e, p) &&
            SomeShapeMatches(EgressShapes(e, "ns", State(map[], map[]), "net"), ActionPass, p)
  {
    var e := EgressRule([PolicyPort(PortNumber(80), Some(K8sSCTP))], []);
    var p := Packet(0, IPPayload(Dst4(0), L4UDP, 53));
    FlatMapSingle(PerPolicyPort(), e.ports[0]);
    var shapes := EgressShapes(e, "ns", State(map[], map[]), "net");
    assert shapes == [RuleShape(iset{}, [], ActionPass)];
    assert ShapeMatches(shapes[0], p);
  }

  /** An entry for all UDP ports is skipped, and next to an entry that is kept it opens nothing. */
  lemma DiscardedEntryOpensNothing()
    ensures var e := EgressRule([PolicyPort(AnyPort, Some(K8sUDP)), PolicyPort(PortNumber(80), None)], []);
            var p := Packet(0, IPPayload(Dst4(0), L4UDP, 53));
            !PortsExact(e) && PortAllowed(e, p) &&
            !SomeShapeMatches(EgressShapes(e, "ns", State(map[], map[]), "net"), ActionPass, p)
  {
    var e := EgressRule([PolicyPort(AnyPort, Some(K8sUDP)), PolicyPort(PortNumber(80), None)], []);
    var p := Packet(0, IPPayload(Dst4(0), L4UDP, 53));
    var f := PerPolicyPort();
    FlatMapStep(f, e.ports, 0);
    FlatMapStep(f, e.ports, 1);
    FlatMapAll(f, e.ports);
    assert UsablePorts(e.ports) == [Port(TCP, 80)];
    var shapes := EgressShapes(e, "ns", State(map[], map[]), "net");
    assert shapes == [RuleShape(iset{}, [Port(TCP, 80)], ActionPass)];
    assert EntryMatches(e.ports[0], p);
    assert !ShapeMatches(shapes[0], p);
    assert NamesPort(e.ports[0].port, 53) && !Expressed(e, L4UDP, 53);
    assert !EntryCovered(e, e.ports[0]);
  }

  /** A selector that no pod satisfies, under a rule with a port, opens that port to every address. */
  lemma EmptySelectionOpensAllAddresses(d: Dst)
    ensures var peer := Peer(None, Some(AsMap(map["app" := "db"])), None);
            var e := EgressRule([PolicyPort(PortNumber(80), None)], [peer]);
            var p := Packet(0, IPPayload(d, L4TCP, 80));
            !PeerReaches(peer, "ns", State(map[], map[]), "net", d) &&
            PeerPasses(peer, e, "ns", State(map[], map[]), "net", p)
  {
    var peer := Peer(None, Some(AsMap(map["app" := "db"])), None);
    var e := EgressRule([PolicyPort(PortNumber(80), None)], [peer]);
    var p := Packet(0, IPPayload(d, L4TCP, 80));
    assert RendersNoNet(peer, "ns", State(map[], map[]), "net");
    FlatMapMember(PerPolicyPort(), e.ports);
    assert Port(TCP, 80) in PerPolicyPort()(e.ports[0]);
    assert Port(TCP, 80) in UsablePorts(e.ports);
    var k :| 0 <= k < |UsablePorts(e.ports)| && UsablePorts(e.ports)[k] == Port(TCP, 80);
    assert PortMatches(UsablePorts(e.ports)[k], p);
    SelectorPeerPasses(peer, e, "ns", State(map[], map[]), "net", p);
  }

  /** An exception of one block also drops what another peer of the same rule allows. */
  lemma ExceptionOverridesOtherPeer()
    ensures var host := HostNet(Bytes4(7));
            var e := EgressRule([], [Peer(Some(IPBlock(Some(IPNet(Bytes4(0), Mask(0, 32))), [Some(host)])), None, None),
                                     Peer(Some(IPBlock(Some(host), [])), None, None)]);
            var p := Packet(0, IPPayload(Dst4(7), L4TCP, 80));
            RuleAsMeant(e, "ns", State(map[], map[]), "net") && Allows(e, "ns", State(map[], map[]), "net", p) &&
            Excepts(e, p) && SomeShapeMatches(EgressShapes(e, "ns", State(map[], map[]), "net"), ActionDrop, p)
  {
    var host := HostNet(Bytes4(7));
    var e := EgressRule([], [Peer(Some(IPBlock(Some(IPNet(Bytes4(0), Mask(0, 32))), [Some(host)])), None, None),
                             Peer(Some(IPBlock(Some(host), [])), None, None)]);
    var p := Packet(0, IPPayload(Dst4(7), L4TCP, 80));
    HostNetIsOneAddress(Bytes4(7), Dst4(7));
    FlatMapSingle(PerExcept(), Some(host));
    assert ExceptNets(e.to[0].ipBlock.value) == [host];
    assert AnyCovers([host], Dst4(7)) by {
      assert Covers([host][0], Dst4(7));
    }
    assert PeerExcepts(e.to[0], Dst4(7));
    assert PeerAllows(e.to[1], "ns", State(map[], map[]), "net", Dst4(7));
    EgressDrops(e, "ns", State(map[], map[]), "net", p);
  }
}
