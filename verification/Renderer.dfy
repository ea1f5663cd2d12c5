/** The compiler front end: policies, pods and namespaces become rules per interface of a pod. */
module Renderer {
  import opened Collections
  import opened Net
  import opened PolicyRules
  import opened Cluster
  import opened PolicyMeaning

  // ----- rules up to the order of their ranges -----

  /**
   * A rule up to the order and multiplicity of its ranges. Pods are visited in an arbitrary order, so this is all that
   * their maps determine, and all that a rule's meaning depends on.
   */
  datatype RuleShape = RuleShape(cidrs: iset<IPNet>, ports: seq<Port>, action: PolicyAction)

  ghost function Shape(r: Rule): RuleShape {
    RuleShape((iset c | c in r.ipCidrs), r.ports, r.action)
  }

  ghost function Shapes(rs: seq<Rule>): seq<RuleShape> {
    seq(|rs|, i requires 0 <= i < |rs| => Shape(rs[i]))
  }

  lemma ShapesAppend(a: seq<Rule>, b: seq<Rule>)
    ensures Shapes(a + b) == Shapes(a) + Shapes(b)
  {
  }

  // ----- ports -----

  function PortOf(p: PolicyPort): seq<Port> {
    if !p.port.PortNumber? then []
    else
      match p.protocol
      case None => [Port(TCP, p.port.number)]
      case Some(K8sTCP) => [Port(TCP, p.port.number)]
      case Some(K8sUDP) => [Port(UDP, p.port.number)]
      case Some(_) => []
  }

  function PerPolicyPort(): PolicyPort -> seq<Port> {
    p => PortOf(p)
  }

  /** The usable ports of a rule; entries without a number or with another protocol are skipped. */
  function UsablePorts(ports: seq<PolicyPort>): seq<Port> {
    FlatMap(PerPolicyPort(), ports)
  }

  /** An entry is kept exactly if it has a number and is for TCP, by name or by default, or for UDP. */
  lemma PortOfEntry(entry: PolicyPort)
    ensures PortOf(entry) != [] <==>
            entry.port.PortNumber? && entry.protocol in {None, Some(K8sTCP), Some(K8sUDP)}
    ensures PortOf(entry) != [] ==>
              PortOf(entry) == [Port(if entry.protocol == Some(K8sUDP) then UDP else TCP, entry.port.number)]
    ensures PortOf(entry) != [] <==> Expressible(entry)
  {
  }

  predicate EntryIsPort(entry: PolicyPort, port: Port) {
    entry.port == PortNumber(port.number) &&
    (port.protocol == TCP ==> entry.protocol in {None, Some(K8sTCP)}) &&
    (port.protocol == UDP ==> entry.protocol == Some(K8sUDP))
  }

  /** The ports of a rule are those that its entries name by number, for TCP or UDP. */
  lemma UsablePortsAre(ports: seq<PolicyPort>, port: Port)
    ensures port in UsablePorts(ports) <==> exists i :: 0 <= i < |ports| && EntryIsPort(ports[i], port)
  {
    FlatMapMember(PerPolicyPort(), ports);
    forall i | 0 <= i < |ports|
      ensures port in PerPolicyPort()(ports[i]) <==> EntryIsPort(ports[i], port)
    {
      PortOfEntry(ports[i]);
    }
  }

  method GetPorts(ports: seq<PolicyPort>) returns (policyPorts: seq<Port>)
    ensures policyPorts == UsablePorts(ports)
    ensures forall port :: port in policyPorts <==> exists i :: 0 <= i < |ports| && EntryIsPort(ports[i], port)
  {
    policyPorts := [];
    for i := 0 to |ports|
      invariant policyPorts == FlatMap(PerPolicyPort(), ports[..i])
    {
      FlatMapStep(PerPolicyPort(), ports, i);
      var p := ports[i];
      if !p.port.PortNumber? {
        continue;
      }
      var protocol := TCP;
      if p.protocol != None {
        match p.protocol.value {
          case K8sTCP =>
          case K8sUDP => protocol := UDP;
          case _ => continue;
        }
      }
      policyPorts := policyPorts + [Port(protocol, p.port.number)];
    }
    FlatMapAll(PerPolicyPort(), ports);
    forall port { UsablePortsAre(ports, port); }
  }

  // ----- IP blocks -----

  function PerExcept(): Option<IPNet> -> seq<IPNet> {
    (e: Option<IPNet>) => if e.Some? then [e.value] else []
  }

  function ExceptNets(b: IPBlock): seq<IPNet> {
    FlatMap(PerExcept(), b.except)
  }

  /** The exceptions cover what some exception that parses covers. */
  lemma ExceptNetsCover(b: IPBlock, d: Dst)
    ensures AnyCovers(ExceptNets(b), d) <==> BlockExcepts(b, d)
  {
    var nets := ExceptNets(b);
    FlatMapMember(PerExcept(), b.except);
    if i :| 0 <= i < |nets| && Covers(nets[i], d) {
      assert nets[i] in nets;
    }
    if i :| 0 <= i < |b.except| && b.except[i].Some? && Covers(b.except[i].value, d) {
      assert b.except[i].value in PerExcept()(b.except[i]);
      assert b.except[i].value in nets;
      var k :| 0 <= k < |nets| && nets[k] == b.except[i].value;
    }
  }

  predicate SomeRuleCovers(rules: seq<Rule>, action: PolicyAction, d: Dst) {
    exists r :: 0 <= r < |rules| && rules[r].action == action && AnyCovers(rules[r].ipCidrs, d)
  }

  /** The rules of a block pass its range and drop its exceptions, on the given ports. */
  lemma BlockRulesCover(b: IPBlock, ports: seq<Port>, d: Dst)
    ensures var rules := IPBlockRules(b, ports);
            (forall r :: 0 <= r < |rules| ==> rules[r].ports == ports && rules[r].ipCidrs != []) &&
            (SomeRuleCovers(rules, ActionPass, d) <==> b.cidr.Some? && Covers(b.cidr.value, d)) &&
            (SomeRuleCovers(rules, ActionDrop, d) <==> b.cidr.Some? && BlockExcepts(b, d))
  {
    ExceptNetsCover(b, d);
    var rules := IPBlockRules(b, ports);
    if b.cidr.Some? {
      assert rules[0].action == ActionPass && AnyCovers(rules[0].ipCidrs, d) <==> Covers([b.cidr.value][0], d);
      if BlockExcepts(b, d) {
        assert rules[1].action == ActionDrop && AnyCovers(rules[1].ipCidrs, d);
      }
    }
  }

  /** A Pass rule for the block and, if it has usable exceptions, a Drop rule for them. */
  function IPBlockRules(b: IPBlock, ports: seq<Port>): seq<Rule> {
    if b.cidr.None? then []
    else [Rule([b.cidr.value], ports, ActionPass)] +
         if ExceptNets(b) != [] then [Rule(ExceptNets(b), ports, ActionDrop)] else []
  }

  method RenderRulesWithIPBlock(ipBlock: IPBlock, ports: seq<Port>) returns (rules: seq<Rule>)
    ensures rules == IPBlockRules(ipBlock, ports)
    ensures forall d ::
              (SomeRuleCovers(rules, ActionPass, d) <==> ipBlock.cidr.Some? && Covers(ipBlock.cidr.value, d)) &&
              (SomeRuleCovers(rules, ActionDrop, d) <==> ipBlock.cidr.Some? && BlockExcepts(ipBlock, d))
  {
    forall d { BlockRulesCover(ipBlock, ports, d); }
    if ipBlock.cidr == None {
      return [];
    }
    rules := [Rule([ipBlock.cidr.value], ports, ActionPass)];
    var exceptIPs: seq<IPNet> := [];
    for i := 0 to |ipBlock.except|
      invariant exceptIPs == FlatMap(PerExcept(), ipBlock.except[..i])
    {
      FlatMapStep(PerExcept(), ipBlock.except, i);
      if ipBlock.except[i] == None {
        continue;
      }
      exceptIPs := exceptIPs + [ipBlock.except[i].value];
    }
    FlatMapAll(PerExcept(), ipBlock.except);
    if |exceptIPs| > 0 {
      rules := rules + [Rule(exceptIPs, ports, ActionDrop)];
    }
  }

  // ----- selectors -----

  predicate PodLabelsSelected(podSel: Option<LabelSelector>, pod: PodInfo) {
    podSel.None? || (podSel.value.AsMap? && SelectorMatches(podSel.value.pairs, pod.labels))
  }

  /**
   * Without a namespace selector the policy's namespace counts; an empty one selects also pods of unknown namespaces.
   */
  predicate NamespaceSelected(nsSel: Option<LabelSelector>, policyNamespace: string,
                              namespaces: map<string, NamespaceInfo>, pod: PodInfo) {
    if nsSel.None? then pod.namespace == policyNamespace
    else
      nsSel.value.AsMap? &&
      (nsSel.value.pairs == map[] ||
       (pod.namespace in namespaces && SelectorMatches(nsSel.value.pairs, namespaces[pod.namespace].labels)))
  }

  predicate PodSelected(podSel: Option<LabelSelector>, nsSel: Option<LabelSelector>, policyNamespace: string,
                        namespaces: map<string, NamespaceInfo>, pod: PodInfo) {
    PodLabelsSelected(podSel, pod) && NamespaceSelected(nsSel, policyNamespace, namespaces, pod)
  }

  predicate InterfaceHasNet(ifc: Interface, network: string, c: IPNet) {
    ifc.netattachName == network &&
    exists j :: 0 <= j < |ifc.ips| && ifc.ips[j].Some? && HostNet(ifc.ips[j].value) == c
  }

  predicate PodHasNet(pod: PodInfo, network: string, c: IPNet) {
    exists i :: 0 <= i < |pod.interfaces| && InterfaceHasNet(pod.interfaces[i], network, c)
  }

  ghost predicate SelectsNet(podSel: Option<LabelSelector>, nsSel: Option<LabelSelector>, policyNamespace: string,
                             state: State, network: string, c: IPNet) {
    exists k :: k in state.pods
      && PodSelected(podSel, nsSel, policyNamespace, state.namespaces, state.pods[k])
      && PodHasNet(state.pods[k], network, c)
  }

  ghost function SelectedNets(podSel: Option<LabelSelector>, nsSel: Option<LabelSelector>, policyNamespace: string,
                              state: State, network: string): iset<IPNet> {
    iset c | SelectsNet(podSel, nsSel, policyNamespace, state, network, c)
  }

  predicate UsableSelector(sel: Option<LabelSelector>) {
    sel.None? || sel.value.AsMap?
  }

  /** A rule is rendered unless a selector is unusable or there is neither an address nor a port. */
  ghost function SelectorShapes(podSel: Option<LabelSelector>, nsSel: Option<LabelSelector>, ports: seq<Port>,
                                policyNamespace: string, state: State, network: string): seq<RuleShape> {
    var nets := SelectedNets(podSel, nsSel, policyNamespace, state, network);
    if (podSel.None? && nsSel.None?) || !UsableSelector(podSel) || !UsableSelector(nsSel) then []
    else if nets == iset{} && ports == [] then []
    else [RuleShape(nets, ports, ActionPass)]
  }

  function PerIP(): Option<IP> -> seq<IPNet> {
    (ip: Option<IP>) => if ip.Some? then [HostNet(ip.value)] else []
  }

  function PerInterface(network: string): Interface -> seq<IPNet> {
    (ifc: Interface) => if ifc.netattachName == network then FlatMap(PerIP(), ifc.ips) else []
  }

  function PerPod(network: string): PodInfo -> seq<IPNet> {
    (pod: PodInfo) => FlatMap(PerInterface(network), pod.interfaces)
  }

  lemma PodNetsAre(pod: PodInfo, network: string, c: IPNet)
    ensures c in PerPod(network)(pod) <==> PodHasNet(pod, network, c)
  {
    FlatMapMember(PerInterface(network), pod.interfaces);
    forall i | 0 <= i < |pod.interfaces|
      ensures c in PerInterface(network)(pod.interfaces[i]) <==> InterfaceHasNet(pod.interfaces[i], network, c)
    {
      FlatMapMember(PerIP(), pod.interfaces[i].ips);
      forall j | 0 <= j < |pod.interfaces[i].ips|
        ensures c in PerIP()(pod.interfaces[i].ips[j]) <==>
                pod.interfaces[i].ips[j].Some? && HostNet(pod.interfaces[i].ips[j].value) == c
      {
      }
    }
  }

  method AppendInterfaceNets(before: seq<IPNet>, ifc: Interface) returns (ipCidrs: seq<IPNet>)
    ensures ipCidrs == before + FlatMap(PerIP(), ifc.ips)
  {
    ipCidrs := before;
    for j := 0 to |ifc.ips|
      invariant ipCidrs == before + FlatMap(PerIP(), ifc.ips[..j])
    {
      FlatMapAppend(before, PerIP(), ifc.ips, j);
      if ifc.ips[j] != None {
        var ip := ifc.ips[j].value;
        var mask := if IsIPv4(ip) then Mask(32, 32) else Mask(128, 128);
        ipCidrs := ipCidrs + [IPNet(ip, mask)];
      } else {
        continue;
      }
    }
    FlatMapAll(PerIP(), ifc.ips);
  }

  method CollectNets(pods: seq<PodInfo>, network: string) returns (ipCidrs: seq<IPNet>)
    ensures ipCidrs == FlatMap(PerPod(network), pods)
  {
    ipCidrs := [];
    for i := 0 to |pods|
      invariant ipCidrs == FlatMap(PerPod(network), pods[..i])
    {
      ghost var before := ipCidrs;
      ghost var f := PerInterface(network);
      FlatMapAll(f, pods[i].interfaces);
      for j := 0 to |pods[i].interfaces|
        invariant ipCidrs == before + FlatMap(f, pods[i].interfaces[..j])
      {
        var ifc := pods[i].interfaces[j];
        FlatMapAppend(before, f, pods[i].interfaces, j);
        if ifc.netattachName == network {
          ipCidrs := AppendInterfaceNets(ipCidrs, ifc);
        }
      }
      FlatMapStep(PerPod(network), pods, i);
    }
    FlatMapAll(PerPod(network), pods);
  }

  function ByLabels(podSel: Option<LabelSelector>): PodInfo -> bool {
    pod => PodLabelsSelected(podSel, pod)
  }

  function ByNamespace(nsSel: Option<LabelSelector>, policyNamespace: string,
                       namespaces: map<string, NamespaceInfo>): PodInfo -> bool {
    pod => NamespaceSelected(nsSel, policyNamespace, namespaces, pod)
  }

  method FilterByLabels(podSel: Option<LabelSelector>, currentPods: map<NamespacedName, PodInfo>)
    returns (matchingPods: seq<PodInfo>)
    requires UsableSelector(podSel)
    ensures forall pod :: pod in matchingPods <==>
              (exists k :: k in currentPods && currentPods[k] == pod) && PodLabelsSelected(podSel, pod)
  {
    var pairs := if podSel.None? then map[] else podSel.value.pairs;
    var currentPodsList := Values(currentPods);
    if pairs == map[] {
      return currentPodsList;
    }
    matchingPods := [];
    for i := 0 to |currentPodsList|
      invariant matchingPods == Select(ByLabels(podSel), currentPodsList[..i])
    {
      SelectStep(ByLabels(podSel), currentPodsList, i);
      if SelectorMatches(pairs, currentPodsList[i].labels) {
        matchingPods := matchingPods + [currentPodsList[i]];
      }
    }
    SelectAll(ByLabels(podSel), currentPodsList);
    SelectMember(ByLabels(podSel), currentPodsList);
  }

  method FilterByNamespace(nsSel: Option<LabelSelector>, policyNamespace: string,
                           currentNamespaces: map<string, NamespaceInfo>, matchingPods: seq<PodInfo>)
    returns (matchingPodsAndNs: seq<PodInfo>)
    requires UsableSelector(nsSel)
    ensures matchingPodsAndNs == Select(ByNamespace(nsSel, policyNamespace, currentNamespaces), matchingPods)
  {
    ghost var keep := ByNamespace(nsSel, policyNamespace, currentNamespaces);
    matchingPodsAndNs := [];
    if nsSel == None {
      for i := 0 to |matchingPods|
        invariant matchingPodsAndNs == Select(keep, matchingPods[..i])
      {
        SelectStep(keep, matchingPods, i);
        if matchingPods[i].namespace == policyNamespace {
          matchingPodsAndNs := matchingPodsAndNs + [matchingPods[i]];
        }
      }
    } else if nsSel.value.pairs == map[] {
      matchingPodsAndNs := matchingPods;
      SelectEverything(keep, matchingPods);
    } else {
      for i := 0 to |matchingPods|
        invariant matchingPodsAndNs == Select(keep, matchingPods[..i])
      {
        SelectStep(keep, matchingPods, i);
        if matchingPods[i].namespace !in currentNamespaces {
          continue;
        }
        if SelectorMatches(nsSel.value.pairs, currentNamespaces[matchingPods[i].namespace].labels) {
          matchingPodsAndNs := matchingPodsAndNs + [matchingPods[i]];
        }
      }
    }
    SelectAll(keep, matchingPods);
  }

  method RenderRulesWithSelectors(podSel: Option<LabelSelector>, nsSel: Option<LabelSelector>, ports: seq<Port>,
                                  state: State, networkName: string, policyNamespace: string)
    returns (rules: seq<Rule>)
    ensures Shapes(rules) == SelectorShapes(podSel, nsSel, ports, policyNamespace, state, networkName)
  {
    rules := [];
    if podSel == None && nsSel == None {
      return;
    }
    if podSel != None && podSel.value.Unconvertible? {
      return;
    }
    var matchingPods := FilterByLabels(podSel, state.pods);
    if nsSel != None && nsSel.value.Unconvertible? {
      return;
    }
    var matchingPodsAndNs := FilterByNamespace(nsSel, policyNamespace, state.namespaces, matchingPods);
    var ipCidrs := CollectNets(matchingPodsAndNs, networkName);
    CollectedAreSelected(podSel, nsSel, policyNamespace, state, networkName, matchingPods, matchingPodsAndNs, ipCidrs);
    ghost var nets := SelectedNets(podSel, nsSel, policyNamespace, state, networkName);
    assert (iset c | c in ipCidrs) == nets;
    assert nets == iset{} <==> ipCidrs == [] by {
      if ipCidrs != [] {
        assert ipCidrs[0] in nets;
      }
    }
    if |ipCidrs| > 0 || |ports| > 0 {
      rules := rules + [Rule(ipCidrs, ports, ActionPass)];
    }
  }

  lemma CollectedAreSelected(podSel: Option<LabelSelector>, nsSel: Option<LabelSelector>, policyNamespace: string,
                             state: State, network: string, matchingPods: seq<PodInfo>,
                             matchingPodsAndNs: seq<PodInfo>, ipCidrs: seq<IPNet>)
    requires forall pod :: pod in matchingPods <==>
               (exists k :: k in state.pods && state.pods[k] == pod) && PodLabelsSelected(podSel, pod)
    requires matchingPodsAndNs == Select(ByNamespace(nsSel, policyNamespace, state.namespaces), matchingPods)
    requires ipCidrs == FlatMap(PerPod(network), matchingPodsAndNs)
    ensures forall c :: c in ipCidrs <==> SelectsNet(podSel, nsSel, policyNamespace, state, network, c)
  {
    SelectMember(ByNamespace(nsSel, policyNamespace, state.namespaces), matchingPods);
    FlatMapMember(PerPod(network), matchingPodsAndNs);
    forall c
      ensures c in ipCidrs <==> SelectsNet(podSel, nsSel, policyNamespace, state, network, c)
    {
      if c in ipCidrs {
        var i :| 0 <= i < |matchingPodsAndNs| && c in PerPod(network)(matchingPodsAndNs[i]);
        var pod := matchingPodsAndNs[i];
        PodNetsAre(pod, network, c);
        assert pod in matchingPods;
      }
      if SelectsNet(podSel, nsSel, policyNamespace, state, network, c) {
        var k :| k in state.pods
          && PodSelected(podSel, nsSel, policyNamespace, state.namespaces, state.pods[k])
          && PodHasNet(state.pods[k], network, c);
        var pod := state.pods[k];
        PodNetsAre(pod, network, c);
        assert pod in matchingPods && pod in matchingPodsAndNs;
      }
    }
  }

  lemma PodAddresses(pod: PodInfo, network: string, d: Dst)
    ensures (exists c :: PodHasNet(pod, network, c) && Covers(c, d)) <==> HasAddress(pod, network, d)
  {
    if c :| PodHasNet(pod, network, c) && Covers(c, d) {
      var i :| 0 <= i < |pod.interfaces| && InterfaceHasNet(pod.interfaces[i], network, c);
      var ips := pod.interfaces[i].ips;
      var j :| 0 <= j < |ips| && ips[j].Some? && HostNet(ips[j].value) == c;
      HostNetIsOneAddress(ips[j].value, d);
    }
    if i, j :| 0 <= i < |pod.interfaces| && pod.interfaces[i].netattachName == network &&
               0 <= j < |pod.interfaces[i].ips| && pod.interfaces[i].ips[j].Some? &&
               AsDst(pod.interfaces[i].ips[j].value) == d {
      var ip := pod.interfaces[i].ips[j].value;
      HostNetIsOneAddress(ip, d);
      assert InterfaceHasNet(pod.interfaces[i], network, HostNet(ip));
      assert PodHasNet(pod, network, HostNet(ip));
    }
  }

  /** The renderer's choice of pods is the one that the selectors of a peer mean. */
  lemma SelectionIsMeant(podSel: Option<LabelSelector>, nsSel: Option<LabelSelector>, policyNamespace: string,
                         namespaces: map<string, NamespaceInfo>, pod: PodInfo)
    ensures PodSelected(podSel, nsSel, policyNamespace, namespaces, pod) <==>
            PeerSelectsPod(Peer(None, podSel, nsSel), policyNamespace, namespaces, pod)
  {
  }

  ghost predicate AnyShapeCovers(nets: iset<IPNet>, d: Dst) {
    exists c :: c in nets && Covers(c, d)
  }

  lemma NetMeansAddress(podSel: Option<LabelSelector>, nsSel: Option<LabelSelector>, policyNamespace: string,
                        state: State, network: string, c: IPNet, d: Dst)
    requires SelectsNet(podSel, nsSel, policyNamespace, state, network, c) && Covers(c, d)
    ensures SelectsAddress(Peer(None, podSel, nsSel), policyNamespace, state, network, d)
  {
    var k :| k in state.pods && PodSelected(podSel, nsSel, policyNamespace, state.namespaces, state.pods[k])
      && PodHasNet(state.pods[k], network, c);
    SelectionIsMeant(podSel, nsSel, policyNamespace, state.namespaces, state.pods[k]);
    PodAddresses(state.pods[k], network, d);
  }

  lemma AddressMeansNet(podSel: Option<LabelSelector>, nsSel: Option<LabelSelector>, policyNamespace: string,
                        state: State, network: string, d: Dst) returns (c: IPNet)
    requires SelectsAddress(Peer(None, podSel, nsSel), policyNamespace, state, network, d)
    ensures SelectsNet(podSel, nsSel, policyNamespace, state, network, c) && Covers(c, d)
  {
    var k :| k in state.pods && HasAddress(state.pods[k], network, d) &&
      PeerSelectsPod(Peer(None, podSel, nsSel), policyNamespace, state.namespaces, state.pods[k]);
    SelectionIsMeant(podSel, nsSel, policyNamespace, state.namespaces, state.pods[k]);
    PodAddresses(state.pods[k], network, d);
    c :| PodHasNet(state.pods[k], network, c) && Covers(c, d);
  }

  /** The ranges of a selector rule cover exactly the addresses that selected pods have on the network. */
  lemma SelectorIsExact(podSel: Option<LabelSelector>, nsSel: Option<LabelSelector>, policyNamespace: string,
                        state: State, network: string, d: Dst)
    ensures AnyShapeCovers(SelectedNets(podSel, nsSel, policyNamespace, state, network), d) <==>
            SelectsAddress(Peer(None, podSel, nsSel), policyNamespace, state, network, d)
  {
    var nets := SelectedNets(podSel, nsSel, policyNamespace, state, network);
    if c :| c in nets && Covers(c, d) {
      NetMeansAddress(podSel, nsSel, policyNamespace, state, network, c, d);
    }
    if SelectsAddress(Peer(None, podSel, nsSel), policyNamespace, state, network, d) {
      var c := AddressMeansNet(podSel, nsSel, policyNamespace, state, network, d);
      assert c in nets;
    }
  }

  // ----- one policy on one network -----

  ghost function PeerShapes(peer: Peer, ports: seq<Port>, policyNamespace: string, state: State, network: string)
    : seq<RuleShape> {
    if peer.ipBlock.Some? then Shapes(IPBlockRules(peer.ipBlock.value, ports))
    else SelectorShapes(peer.podSelector, peer.namespaceSelector, ports, policyNamespace, state, network)
  }

  ghost function PerPeer(ports: seq<Port>, policyNamespace: string, state: State, network: string)
    : Peer -> seq<RuleShape> {
    peer => PeerShapes(peer, ports, policyNamespace, state, network)
  }

  /** Without peers one rule for every address is rendered. */
  ghost function EgressShapes(e: EgressRule, policyNamespace: string, state: State, network: string): seq<RuleShape> {
    FlatMap(PerPeer(UsablePorts(e.ports), policyNamespace, state, network), e.to) +
    if e.to == [] then [RuleShape(iset{}, UsablePorts(e.ports), ActionPass)] else []
  }

  ghost function PerEgress(policyNamespace: string, state: State, network: string): EgressRule -> seq<RuleShape> {
    e => EgressShapes(e, policyNamespace, state, network)
  }

  ghost function PolicyShapes(policy: Policy, state: State, network: string): seq<RuleShape> {
    FlatMap(PerEgress(policy.namespace, state, network), policy.egress)
  }

  method RenderPeer(peer: Peer, ports: seq<Port>, state: State, networkName: string, policyNamespace: string)
    returns (rules: seq<Rule>)
    ensures Shapes(rules) == PeerShapes(peer, ports, policyNamespace, state, networkName)
  {
    rules := [];
    if peer.ipBlock != None {
      rules := RenderRulesWithIPBlock(peer.ipBlock.value, ports);
    } else if peer.podSelector != None || peer.namespaceSelector != None {
      rules := RenderRulesWithSelectors(
        peer.podSelector, peer.namespaceSelector, ports, state, networkName, policyNamespace);
    }
  }

  method RenderEgressRule(e: EgressRule, state: State, networkName: string, policyNamespace: string)
    returns (rules: seq<Rule>)
    ensures Shapes(rules) == EgressShapes(e, policyNamespace, state, networkName)
  {
    var ports := GetPorts(e.ports);
    ghost var f := PerPeer(ports, policyNamespace, state, networkName);
    rules := [];
    for i := 0 to |e.to|
      invariant Shapes(rules) == FlatMap(f, e.to[..i])
    {
      var more := RenderPeer(e.to[i], ports, state, networkName, policyNamespace);
      FlatMapStep(f, e.to, i);
      ShapesAppend(rules, more);
      rules := rules + more;
    }
    FlatMapAll(f, e.to);
    if |e.to| == 0 {
      ShapesAppend(rules, [Rule([], ports, ActionPass)]);
      assert (iset c: IPNet | c in []) == iset{};
      rules := rules + [Rule([], ports, ActionPass)];
    }
  }

  function InfoOf(ifc: Interface): InterfaceInfo {
    InterfaceInfo(ifc.netattachName, ifc.interfaceName, ifc.ips, ifc.deviceID)
  }

  method RenderEgressForInterface(targetInterface: Interface, info: PolicyInfo, state: State)
    returns (ruleSet: PolicyRuleSet)
    ensures ruleSet.ifcInfo == InfoOf(targetInterface) && ruleSet.kind == Egress && ruleSet.rules.Some?
    ensures Shapes(ruleSet.rules.value) == PolicyShapes(info.policy, state, targetInterface.netattachName)
  {
    var egress := info.policy.egress;
    ghost var f := PerEgress(info.policy.namespace, state, targetInterface.netattachName);
    var rules: seq<Rule> := [];
    for i := 0 to |egress|
      invariant Shapes(rules) == FlatMap(f, egress[..i])
    {
      var more := RenderEgressRule(egress[i], state, targetInterface.netattachName, info.policy.namespace);
      FlatMapStep(f, egress, i);
      ShapesAppend(rules, more);
      rules := rules + more;
    }
    FlatMapAll(f, egress);
    ruleSet := PolicyRuleSet(InfoOf(targetInterface), Egress, Some(rules));
  }

  // ----- all policies on all interfaces of a pod -----

  ghost function PerMatchingInterface(uid: string, info: PolicyInfo, state: State): Interface -> seq<RuleShape> {
    (ifc: Interface) =>
      if UIDOf(ifc) == uid && NamesNetwork(info, ifc.netattachName) then
        PolicyShapes(info.policy, state, ifc.netattachName)
      else []
  }

  /** What one policy adds to the rules of the interface with the given UID. */
  ghost function Contribution(target: PodInfo, info: PolicyInfo, uid: string, state: State): seq<RuleShape> {
    if Applicable(target, info.policy) then FlatMap(PerMatchingInterface(uid, info, state), target.interfaces) else []
  }

  ghost function PerPolicy(target: PodInfo, policies: map<NamespacedName, PolicyInfo>, uid: string, state: State)
    : NamespacedName -> seq<RuleShape> {
    (k: NamespacedName) => if k in policies then Contribution(target, policies[k], uid, state) else []
  }

  function UIDOf(ifc: Interface): string {
    GetUID(ifc.netattachName, ifc.interfaceName)
  }

  function UIDOfSet(ruleSet: PolicyRuleSet): string {
    GetUID(ruleSet.ifcInfo.network, ruleSet.ifcInfo.interfaceName)
  }

  /** The policy selects the pod and names the network of an interface with that UID. */
  predicate AppliesTo(target: PodInfo, info: PolicyInfo, uid: string) {
    Applicable(target, info.policy) &&
    exists i :: 0 <= i < |target.interfaces| && UIDOf(target.interfaces[i]) == uid &&
                NamesNetwork(info, target.interfaces[i].netattachName)
  }

  predicate SomeApplies(target: PodInfo, policies: map<NamespacedName, PolicyInfo>, uid: string) {
    exists k :: k in policies && AppliesTo(target, policies[k], uid)
  }

  predicate HasInterface(target: PodInfo, uid: string) {
    exists i :: 0 <= i < |target.interfaces| && UIDOf(target.interfaces[i]) == uid
  }

  predicate WellFormedSet(target: PodInfo, uid: string, ruleSet: PolicyRuleSet) {
    ruleSet.kind == Egress && UIDOfSet(ruleSet) == uid &&
    exists i :: 0 <= i < |target.interfaces| && ruleSet.ifcInfo == InfoOf(target.interfaces[i])
  }

  predicate WellFormedMap(target: PodInfo, m: map<string, PolicyRuleSet>) {
    forall u :: u in m ==> WellFormedSet(target, u, m[u])
  }

  predicate RulesPresent(m: map<string, PolicyRuleSet>) {
    forall u :: u in m ==> m[u].rules.Some?
  }

  ghost function ShapesAt(m: map<string, PolicyRuleSet>, uid: string): seq<RuleShape> {
    if uid in m && m[uid].rules.Some? then Shapes(m[uid].rules.value) else []
  }

  predicate NoRepeats<T(==)>(s: seq<T>) {
    forall i, j :: 0 <= i < j < |s| ==> s[i] != s[j]
  }

  /** `order` lists each policy once. */
  ghost predicate IsOrderOf(order: seq<NamespacedName>, policies: map<NamespacedName, PolicyInfo>) {
    NoRepeats(order) && forall k :: k in order <==> k in policies
  }

  /**
   * The rendering of a pod: one rule set per interface UID; its rules are absent exactly when no usable policy selects
   * the pod and names the network, and are otherwise the contributions of all policies in the order visited.
   */
  ghost predicate IsRendering(ruleSets: seq<PolicyRuleSet>, target: PodInfo, policies: map<NamespacedName, PolicyInfo>,
                              state: State, order: seq<NamespacedName>) {
    && IsOrderOf(order, policies)
    && (forall i, j :: 0 <= i < j < |ruleSets| ==> UIDOfSet(ruleSets[i]) != UIDOfSet(ruleSets[j]))
    && (forall u :: HasInterface(target, u) <==> exists i :: 0 <= i < |ruleSets| && UIDOfSet(ruleSets[i]) == u)
    && (forall i :: 0 <= i < |ruleSets| ==> IsRenderedSet(ruleSets[i], target, policies, state, order))
  }

  ghost predicate IsRenderedSet(ruleSet: PolicyRuleSet, target: PodInfo, policies: map<NamespacedName, PolicyInfo>,
                                state: State, order: seq<NamespacedName>) {
    && WellFormedSet(target, UIDOfSet(ruleSet), ruleSet)
    && (ruleSet.rules.Some? <==> SomeApplies(target, policies, UIDOfSet(ruleSet)))
    && (ruleSet.rules.Some? ==>
          Shapes(ruleSet.rules.value) == FlatMap(PerPolicy(target, policies, UIDOfSet(ruleSet), state), order))
  }

  /** Appends rendered rules to those collected under the same UID, or starts a new entry. */
  method Collect(target: PodInfo, m: map<string, PolicyRuleSet>, ifcRuleSet: PolicyRuleSet)
    returns (r: map<string, PolicyRuleSet>)
    requires ifcRuleSet.rules.Some? && RulesPresent(m)
    requires WellFormedMap(target, m) && WellFormedSet(target, UIDOfSet(ifcRuleSet), ifcRuleSet)
    ensures WellFormedMap(target, r) && RulesPresent(r)
    ensures r.Keys == m.Keys + {UIDOfSet(ifcRuleSet)}
    ensures forall u :: u != UIDOfSet(ifcRuleSet) ==> ShapesAt(r, u) == ShapesAt(m, u)
    ensures ShapesAt(r, UIDOfSet(ifcRuleSet)) == ShapesAt(m, UIDOfSet(ifcRuleSet)) + Shapes(ifcRuleSet.rules.value)
  {
    var uid := UIDOfSet(ifcRuleSet);
    if uid in m {
      var existing := m[uid];
      ShapesAppend(existing.rules.value, ifcRuleSet.rules.value);
      r := m[uid := existing.(rules := Some(existing.rules.value + ifcRuleSet.rules.value))];
    } else {
      r := m[uid := ifcRuleSet];
    }
  }

  /** Renders one policy for one interface, if it names the interface's network. */
  method RenderForInterface(target: PodInfo, j: nat, info: PolicyInfo, state: State, m: map<string, PolicyRuleSet>)
    returns (r: map<string, PolicyRuleSet>)
    requires j < |target.interfaces| && WellFormedMap(target, m) && RulesPresent(m)
    ensures WellFormedMap(target, r) && RulesPresent(r)
    ensures var ifc := target.interfaces[j];
            r.Keys == m.Keys + if NamesNetwork(info, ifc.netattachName) then {UIDOf(ifc)} else {}
    ensures forall u :: ShapesAt(r, u) ==
              ShapesAt(m, u) + PerMatchingInterface(u, info, state)(target.interfaces[j])
  {
    var ifc := target.interfaces[j];
    var applies := AppliesForNetwork(info, ifc.netattachName);
    if applies {
      var ifcRuleSet := RenderEgressForInterface(ifc, info, state);
      r := Collect(target, m, ifcRuleSet);
    } else {
      r := m;
    }
    forall u
      ensures ShapesAt(r, u) == ShapesAt(m, u) + PerMatchingInterface(u, info, state)(ifc)
    {
      if u != UIDOf(ifc) || !applies {
        assert ShapesAt(m, u) + [] == ShapesAt(m, u);
      }
    }
  }

  /** Renders one applicable policy for the interfaces whose network it names. */
  method RenderPolicy(target: PodInfo, info: PolicyInfo, state: State, m: map<string, PolicyRuleSet>)
    returns (r: map<string, PolicyRuleSet>)
    requires Applicable(target, info.policy)
    requires WellFormedMap(target, m) && RulesPresent(m)
    ensures WellFormedMap(target, r) && RulesPresent(r)
    ensures forall u :: u in r <==> u in m || AppliesTo(target, info, u)
    ensures forall u :: ShapesAt(r, u) == ShapesAt(m, u) + Contribution(target, info, u, state)
  {
    r := m;
    for j := 0 to |target.interfaces|
      invariant RenderedBefore(target, info, state, m, r, j)
    {
      ghost var before := r;
      r := RenderForInterface(target, j, info, state, r);
      RenderedNext(target, info, state, m, before, r, j);
    }
    assert target.interfaces[..|target.interfaces|] == target.interfaces;
  }

  /** `r` is `m` with what the policy renders for the first `j` interfaces. */
  ghost predicate RenderedBefore(target: PodInfo, info: PolicyInfo, state: State, m: map<string, PolicyRuleSet>,
                                 r: map<string, PolicyRuleSet>, j: nat) {
    && j <= |target.interfaces| && WellFormedMap(target, r) && RulesPresent(r)
    && (forall u :: u in r <==> u in m || NamedBefore(target, info, u, j))
    && forall u :: ShapesAt(r, u) ==
                   ShapesAt(m, u) + FlatMap(PerMatchingInterface(u, info, state), target.interfaces[..j])
  }

  lemma RenderedNext(target: PodInfo, info: PolicyInfo, state: State, m: map<string, PolicyRuleSet>,
                     before: map<string, PolicyRuleSet>, r: map<string, PolicyRuleSet>, j: nat)
    requires j < |target.interfaces| && RenderedBefore(target, info, state, m, before, j)
    requires WellFormedMap(target, r) && RulesPresent(r)
    requires var ifc := target.interfaces[j];
             r.Keys == before.Keys + if NamesNetwork(info, ifc.netattachName) then {UIDOf(ifc)} else {}
    requires forall u :: ShapesAt(r, u) ==
               ShapesAt(before, u) + PerMatchingInterface(u, info, state)(target.interfaces[j])
    ensures RenderedBefore(target, info, state, m, r, j + 1)
  {
    ShapesStep(m, info, state, target.interfaces, j);
    forall u
      ensures NamedBefore(target, info, u, j + 1) <==>
              NamedBefore(target, info, u, j) || (NamesNetwork(info, target.interfaces[j].netattachName) &&
                                                  u == UIDOf(target.interfaces[j]))
    {
      NamedNext(target, info, u, j);
    }
  }

  lemma NamedNext(target: PodInfo, info: PolicyInfo, uid: string, j: nat)
    requires j < |target.interfaces|
    ensures NamedBefore(target, info, uid, j + 1) <==>
            NamedBefore(target, info, uid, j) || (NamesNetwork(info, target.interfaces[j].netattachName) &&
                                                  uid == UIDOf(target.interfaces[j]))
  {
  }

  lemma ShapesStep(m: map<string, PolicyRuleSet>, info: PolicyInfo, state: State, ifcs: seq<Interface>, j: nat)
    requires j < |ifcs|
    ensures forall u :: ShapesAt(m, u) + FlatMap(PerMatchingInterface(u, info, state), ifcs[..j + 1]) ==
                        ShapesAt(m, u) + FlatMap(PerMatchingInterface(u, info, state), ifcs[..j]) +
                        PerMatchingInterface(u, info, state)(ifcs[j])
  {
    forall u
      ensures ShapesAt(m, u) + FlatMap(PerMatchingInterface(u, info, state), ifcs[..j + 1]) ==
              ShapesAt(m, u) + FlatMap(PerMatchingInterface(u, info, state), ifcs[..j]) +
              PerMatchingInterface(u, info, state)(ifcs[j])
    {
      FlatMapAppend(ShapesAt(m, u), PerMatchingInterface(u, info, state), ifcs, j);
    }
  }

  predicate NamedBefore(target: PodInfo, info: PolicyInfo, uid: string, j: nat)
    requires j <= |target.interfaces|
  {
    exists i :: 0 <= i < j && UIDOf(target.interfaces[i]) == uid &&
                NamesNetwork(info, target.interfaces[i].netattachName)
  }

  /** Renders a policy whose selector is usable and selects the pod; others are skipped. */
  method RenderIfApplicable(target: PodInfo, info: PolicyInfo, state: State, m: map<string, PolicyRuleSet>)
    returns (r: map<string, PolicyRuleSet>)
    requires WellFormedMap(target, m) && RulesPresent(m)
    ensures WellFormedMap(target, r) && RulesPresent(r)
    ensures forall u :: u in r <==> u in m || AppliesTo(target, info, u)
    ensures forall u :: ShapesAt(r, u) == ShapesAt(m, u) + Contribution(target, info, u, state)
  {
    r := m;
    if Applicable(target, info.policy) {
      r := RenderPolicy(target, info, state, m);
    }
  }

  lemma NextPolicy(target: PodInfo, policies: map<NamespacedName, PolicyInfo>, state: State,
                   order: seq<NamespacedName>, k: NamespacedName)
    requires k in policies
    ensures forall u :: FlatMap(PerPolicy(target, policies, u, state), order + [k]) ==
              FlatMap(PerPolicy(target, policies, u, state), order) + Contribution(target, policies[k], u, state)
  {
    assert (order + [k])[..|order|] == order;
  }

  method RenderPolicies(target: PodInfo, policies: map<NamespacedName, PolicyInfo>, state: State)
    returns (m: map<string, PolicyRuleSet>, ghost order: seq<NamespacedName>)
    ensures WellFormedMap(target, m) && RulesPresent(m) && IsOrderOf(order, policies)
    ensures forall u :: u in m <==> SomeApplies(target, policies, u)
    ensures forall u :: ShapesAt(m, u) == FlatMap(PerPolicy(target, policies, u, state), order)
  {
    m, order := map[], [];
    var rest := policies.Keys;
    while rest != {}
      invariant rest <= policies.Keys
      invariant WellFormedMap(target, m) && RulesPresent(m)
      invariant NoRepeats(order) && forall k :: k in order <==> k in policies && k !in rest
      invariant forall u :: u in m <==> exists k :: k in policies && k !in rest && AppliesTo(target, policies[k], u)
      invariant forall u :: ShapesAt(m, u) == FlatMap(PerPolicy(target, policies, u, state), order)
      decreases |rest|
    {
      var k :| k in rest;
      var info := policies[k];
      m := RenderIfApplicable(target, info, state, m);
      NextPolicy(target, policies, state, order, k);
      order := order + [k];
      rest := rest - {k};
    }
  }

  /** The map after the first `n` interfaces got an empty rule set where there was none. */
  function WithEmpty(target: PodInfo, m: map<string, PolicyRuleSet>, n: nat): map<string, PolicyRuleSet>
    requires n <= |target.interfaces|
  {
    if n == 0 then m
    else
      var r := WithEmpty(target, m, n - 1);
      var empty := PolicyRuleSet(InfoOf(target.interfaces[n - 1]), Egress, None);
      if UIDOfSet(empty) in r then r else r[UIDOfSet(empty) := empty]
  }

  predicate InterfaceBefore(target: PodInfo, uid: string, n: nat)
    requires n <= |target.interfaces|
  {
    exists i :: 0 <= i < n && UIDOf(target.interfaces[i]) == uid
  }

  lemma {:induction false} WithEmptyWellFormed(target: PodInfo, m: map<string, PolicyRuleSet>, n: nat)
    requires n <= |target.interfaces| && WellFormedMap(target, m)
    ensures WellFormedMap(target, WithEmpty(target, m, n))
  {
    if n > 0 {
      WithEmptyWellFormed(target, m, n - 1);
      var ifc := target.interfaces[n - 1];
      assert WellFormedSet(target, UIDOf(ifc), PolicyRuleSet(InfoOf(ifc), Egress, None));
    }
  }

  lemma {:induction false} WithEmptyAt(target: PodInfo, m: map<string, PolicyRuleSet>, n: nat, uid: string)
    requires n <= |target.interfaces|
    ensures var r := WithEmpty(target, m, n);
            (uid in r <==> uid in m || InterfaceBefore(target, uid, n)) &&
            (uid in m ==> r[uid] == m[uid]) &&
            (uid in r && uid !in m ==> r[uid].rules.None?)
  {
    if n > 0 {
      WithEmptyAt(target, m, n - 1, uid);
      assert InterfaceBefore(target, uid, n) <==>
             InterfaceBefore(target, uid, n - 1) || uid == UIDOf(target.interfaces[n - 1]);
    }
  }

  /** Gives every interface that no policy reached a rule set without rules. */
  method AddUnisolated(target: PodInfo, m: map<string, PolicyRuleSet>) returns (r: map<string, PolicyRuleSet>)
    requires WellFormedMap(target, m)
    ensures WellFormedMap(target, r)
    ensures forall u :: u in r <==> u in m || HasInterface(target, u)
    ensures forall u :: u in m ==> r[u] == m[u]
    ensures forall u :: u in r && u !in m ==> r[u].rules.None?
  {
    r := m;
    for i := 0 to |target.interfaces|
      invariant r == WithEmpty(target, m, i)
    {
      var empty := PolicyRuleSet(InfoOf(target.interfaces[i]), Egress, None);
      if UIDOfSet(empty) !in r {
        r := r[UIDOfSet(empty) := empty];
      }
    }
    WithEmptyWellFormed(target, m, |target.interfaces|);
    forall u
      ensures u in r <==> u in m || HasInterface(target, u)
      ensures u in m ==> u in r && r[u] == m[u]
      ensures u in r && u !in m ==> r[u].rules.None?
    {
      WithEmptyAt(target, m, |target.interfaces|, u);
      assert InterfaceBefore(target, u, |target.interfaces|) <==> HasInterface(target, u);
    }
  }

  /** The entries of the map, in some order. */
  method ListRuleSets(m: map<string, PolicyRuleSet>) returns (list: seq<PolicyRuleSet>)
    requires forall u :: u in m ==> UIDOfSet(m[u]) == u
    ensures forall i :: 0 <= i < |list| ==> UIDOfSet(list[i]) in m && list[i] == m[UIDOfSet(list[i])]
    ensures forall i, j :: 0 <= i < j < |list| ==> UIDOfSet(list[i]) != UIDOfSet(list[j])
    ensures forall u :: u in m ==> exists i :: 0 <= i < |list| && UIDOfSet(list[i]) == u
  {
    list := [];
    ghost var uids: seq<string> := [];
    var rest := m.Keys;
    while rest != {}
      invariant rest <= m.Keys
      invariant IsListing(list, uids, m)
      invariant forall u :: u in m && u !in rest ==> u in uids
      invariant forall u :: u in uids ==> u !in rest
      decreases |rest|
    {
      var u :| u in rest;
      list := list + [m[u]];
      uids := uids + [u];
      rest := rest - {u};
    }
    ListingIsComplete(list, uids, m);
  }

  predicate IsListing(list: seq<PolicyRuleSet>, uids: seq<string>, m: map<string, PolicyRuleSet>) {
    NoRepeats(uids) && |uids| == |list| && forall i :: 0 <= i < |list| ==> uids[i] in m && list[i] == m[uids[i]]
  }

  lemma ListingIsComplete(list: seq<PolicyRuleSet>, uids: seq<string>, m: map<string, PolicyRuleSet>)
    requires forall u :: u in m ==> UIDOfSet(m[u]) == u
    requires IsListing(list, uids, m) && forall u :: u in m ==> u in uids
    ensures forall i :: 0 <= i < |list| ==> UIDOfSet(list[i]) in m && list[i] == m[UIDOfSet(list[i])]
    ensures forall i, j :: 0 <= i < j < |list| ==> UIDOfSet(list[i]) != UIDOfSet(list[j])
    ensures forall u :: u in m ==> exists i :: 0 <= i < |list| && UIDOfSet(list[i]) == u
  {
  }

  /**
   * Renders the egress rules of a pod. Policies, pods and namespaces are visited in arbitrary order, and the result is
   * the rendering for the order that policies were visited in.
   */
  method RenderEgress(target: PodInfo, currentPolicies: map<NamespacedName, PolicyInfo>, state: State)
    returns (policyRules: seq<PolicyRuleSet>)
    ensures exists order :: IsRendering(policyRules, target, currentPolicies, state, order)
  {
    var policyRulesMap;
    ghost var order;
    policyRulesMap, order := RenderPolicies(target, currentPolicies, state);
    ghost var collected := policyRulesMap;
    policyRulesMap := AddUnisolated(target, policyRulesMap);
    policyRules := ListRuleSets(policyRulesMap);
    forall i | 0 <= i < |policyRules|
      ensures IsRenderedSet(policyRules[i], target, currentPolicies, state, order)
    {
      SetIsRendered(policyRules[i], collected, policyRulesMap, target, currentPolicies, state, order);
    }
    forall u
      ensures HasInterface(target, u) <==> exists i :: 0 <= i < |policyRules| && UIDOfSet(policyRules[i]) == u
    {
      assert SomeApplies(target, currentPolicies, u) ==> HasInterface(target, u);
      assert u in policyRulesMap <==> HasInterface(target, u);
    }
    assert IsRendering(policyRules, target, currentPolicies, state, order);
  }

  lemma SetIsRendered(ruleSet: PolicyRuleSet, collected: map<string, PolicyRuleSet>, all: map<string, PolicyRuleSet>,
                      target: PodInfo, policies: map<NamespacedName, PolicyInfo>, state: State,
                      order: seq<NamespacedName>)
    requires WellFormedMap(target, all) && RulesPresent(collected)
    requires var u := UIDOfSet(ruleSet);
             u in all && all[u] == ruleSet &&
             (u in collected <==> SomeApplies(target, policies, u)) &&
             (u in collected ==> all[u] == collected[u]) &&
             (u !in collected ==> all[u].rules.None?) &&
             ShapesAt(collected, u) == FlatMap(PerPolicy(target, policies, u, state), order)
    ensures IsRenderedSet(ruleSet, target, policies, state, order)
  {
  }
}
