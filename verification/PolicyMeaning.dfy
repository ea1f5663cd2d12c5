/**
 * What policies say about the traffic of a pod's interface, in terms of Kubernetes objects and packets only: nothing
 * here refers to how policies are rendered.
 */
module PolicyMeaning {
  import opened Collections
  import opened Net
  import opened Classifier
  import opened PolicyRules
  import opened Cluster

  // ----- selection -----

  /** The labels have every pair that the selector requires; a selector without such a form selects nothing. */
  predicate Selected(selector: LabelSelector, labels: map<string, string>) {
    selector.AsMap? &&
    forall k :: k in selector.pairs ==> k in labels && labels[k] == selector.pairs[k]
  }

  /** A policy is about the pods of its own namespace that its selector selects. */
  predicate PolicySelects(policy: Policy, pod: PodInfo) {
    policy.namespace == pod.namespace && Selected(policy.podSelector, pod.labels)
  }

  /** Without a namespace selector a peer means pods of the policy's namespace, with an empty one those of all. */
  predicate PeerNamespace(peer: Peer, policyNamespace: string, namespaces: map<string, NamespaceInfo>, name: string) {
    match peer.namespaceSelector
    case None => name == policyNamespace
    case Some(selector) =>
      selector == AsMap(map[]) || (name in namespaces && Selected(selector, namespaces[name].labels))
  }

  predicate PeerSelectsPod(peer: Peer, policyNamespace: string, namespaces: map<string, NamespaceInfo>, pod: PodInfo) {
    (peer.podSelector.Some? ==> Selected(peer.podSelector.value, pod.labels)) &&
    PeerNamespace(peer, policyNamespace, namespaces, pod.namespace)
  }

  /** The pod has the address on the network. */
  predicate HasAddress(pod: PodInfo, network: string, d: Dst) {
    exists i, j :: 0 <= i < |pod.interfaces| && pod.interfaces[i].netattachName == network &&
                   0 <= j < |pod.interfaces[i].ips| && pod.interfaces[i].ips[j].Some? &&
                   AsDst(pod.interfaces[i].ips[j].value) == d
  }

  ghost predicate SelectsAddress(peer: Peer, policyNamespace: string, state: State, network: string, d: Dst) {
    exists k :: k in state.pods && PeerSelectsPod(peer, policyNamespace, state.namespaces, state.pods[k]) &&
                HasAddress(state.pods[k], network, d)
  }

  // ----- ports -----

  /** The transport that an entry names; TCP if it names none. Other names than TCP, UDP and SCTP name no transport. */
  function TransportOf(entry: PolicyPort): Option<L4Proto> {
    match entry.protocol
    case None => Some(L4TCP)
    case Some(K8sTCP) => Some(L4TCP)
    case Some(K8sUDP) => Some(L4UDP)
    case Some(K8sSCTP) => Some(L4SCTP)
    case Some(K8sOther(_)) => None
  }

  /** The port numbers that an entry names; without a port it names all of them. */
  predicate NamesPort(port: PortRef, n: u16) {
    match port
    case AnyPort => true
    case PortNumber(number) => n == number
    case PortName(numbers) => n in numbers
  }

  /** A port entry as a policy author reads it. */
  predicate EntryMatches(entry: PolicyPort, p: Packet) {
    p.payload.IPPayload? && TransportOf(entry) == Some(p.payload.proto) && NamesPort(entry.port, p.payload.dstPort)
  }

  predicate PortAllowed(e: EgressRule, p: Packet) {
    e.ports == [] || exists i :: 0 <= i < |e.ports| && EntryMatches(e.ports[i], p)
  }

  // ----- peers and egress rules -----

  /** The destination is in the peer's block, or belongs to a pod that the peer's selectors select. */
  ghost predicate PeerReaches(peer: Peer, policyNamespace: string, state: State, network: string, d: Dst) {
    if peer.ipBlock.Some? then peer.ipBlock.value.cidr.Some? && Covers(peer.ipBlock.value.cidr.value, d)
    else
      (peer.podSelector.Some? || peer.namespaceSelector.Some?) &&
      SelectsAddress(peer, policyNamespace, state, network, d)
  }

  /** An exception of a block that contains the address. */
  predicate BlockExcepts(b: IPBlock, d: Dst) {
    exists i :: 0 <= i < |b.except| && b.except[i].Some? && Covers(b.except[i].value, d)
  }

  /** The destination is in an exception of the peer's block. */
  predicate PeerExcepts(peer: Peer, d: Dst) {
    peer.ipBlock.Some? && peer.ipBlock.value.cidr.Some? && BlockExcepts(peer.ipBlock.value, d)
  }

  ghost predicate PeerAllows(peer: Peer, policyNamespace: string, state: State, network: string, d: Dst) {
    PeerReaches(peer, policyNamespace, state, network, d) && !PeerExcepts(peer, d)
  }

  /** The egress rule allows the packet: a block allows its range minus its exceptions. */
  ghost predicate Allows(e: EgressRule, policyNamespace: string, state: State, network: string, p: Packet)
    requires p.payload.IPPayload?
  {
    PortAllowed(e, p) &&
    (e.to == [] ||
     exists i :: 0 <= i < |e.to| && PeerAllows(e.to[i], policyNamespace, state, network, p.payload.dst))
  }

  /** Some peer of the egress rule names the packet as an exception. */
  predicate Excepts(e: EgressRule, p: Packet)
    requires p.payload.IPPayload?
  {
    PortAllowed(e, p) && exists i :: 0 <= i < |e.to| && PeerExcepts(e.to[i], p.payload.dst)
  }

  // ----- when a rule can be rendered as it is meant -----

  /** An entry that TC rules can express: a number, for TCP or UDP. */
  predicate Expressible(entry: PolicyPort) {
    entry.port.PortNumber? && (TransportOf(entry) == Some(L4TCP) || TransportOf(entry) == Some(L4UDP))
  }

  predicate SomeExpressible(e: EgressRule) {
    exists i :: 0 <= i < |e.ports| && Expressible(e.ports[i])
  }

  /** An expressible entry names this transport and this number. */
  predicate Expressed(e: EgressRule, transport: L4Proto, n: u16) {
    exists i :: 0 <= i < |e.ports| && Expressible(e.ports[i]) && TransportOf(e.ports[i]) == Some(transport) &&
                e.ports[i].port.number == n
  }

  /** Expressible entries cover every port that the entry names. */
  predicate EntryCovered(e: EgressRule, entry: PolicyPort) {
    forall n: u16 {:trigger NamesPort(entry.port, n)} ::
      TransportOf(entry).Some? && NamesPort(entry.port, n) ==> Expressed(e, TransportOf(entry).value, n)
  }

  /** The rule lists no port, or some entry is expressible and such entries cover all others. */
  predicate PortsExact(e: EgressRule) {
    e.ports == [] || (SomeExpressible(e) && forall i :: 0 <= i < |e.ports| ==> EntryCovered(e, e.ports[i]))
  }

  ghost predicate ReachesNothing(peer: Peer, policyNamespace: string, state: State, network: string) {
    forall d :: !PeerReaches(peer, policyNamespace, state, network, d)
  }

  predicate Usable(selector: Option<LabelSelector>) {
    selector.Some? ==> selector.value.AsMap?
  }

  predicate HasUsableSelectors(peer: Peer) {
    (peer.podSelector.Some? || peer.namespaceSelector.Some?) && Usable(peer.podSelector) &&
    Usable(peer.namespaceSelector)
  }

  /**
   * When a peer can be rendered as meant: its rule's ports are exact, and if its selectors find no address there is no
   * expressible port to widen the rule to every address. Peers that render nothing are always as meant.
   */
  ghost predicate RenderedAsMeant(peer: Peer, e: EgressRule, policyNamespace: string, state: State, network: string) {
    if peer.ipBlock.Some? then peer.ipBlock.value.cidr.Some? ==> PortsExact(e)
    else if !HasUsableSelectors(peer) then true
    else if ReachesNothing(peer, policyNamespace, state, network) then !SomeExpressible(e)
    else PortsExact(e)
  }

  ghost predicate RuleAsMeant(e: EgressRule, policyNamespace: string, state: State, network: string) {
    if e.to == [] then PortsExact(e)
    else forall i :: 0 <= i < |e.to| ==> RenderedAsMeant(e.to[i], e, policyNamespace, state, network)
  }

  // ----- all policies of an interface -----

  /** What interfaces of a pod are told apart by. */
  function InterfaceKey(ifc: Interface): string {
    ifc.netattachName + "/" + ifc.interfaceName
  }

  function SetKey(ruleSet: PolicyRuleSet): string {
    ruleSet.ifcInfo.network + "/" + ruleSet.ifcInfo.interfaceName
  }

  /** The policy is about the pod and names the network of interface `i`, which has this key. */
  predicate Concerns(info: PolicyInfo, target: PodInfo, key: string, i: nat) {
    PolicySelects(info.policy, target) && i < |target.interfaces| && InterfaceKey(target.interfaces[i]) == key &&
    target.interfaces[i].netattachName in info.policyNetworks
  }

  /** Some policy isolates the interface: only what policies allow may pass. */
  ghost predicate Isolated(target: PodInfo, policies: map<NamespacedName, PolicyInfo>, key: string) {
    exists k, i: nat :: k in policies && Concerns(policies[k], target, key, i)
  }

  /** Egress rule `n` of policy `k` governs interface `i` of the pod. */
  predicate Governs(target: PodInfo, policies: map<NamespacedName, PolicyInfo>, key: string,
                    k: NamespacedName, i: nat, n: nat) {
    k in policies && Concerns(policies[k], target, key, i) && n < |policies[k].policy.egress|
  }

  ghost predicate AllAsMeant(target: PodInfo, policies: map<NamespacedName, PolicyInfo>, key: string, state: State) {
    forall k, i: nat, n: nat :: Governs(target, policies, key, k, i, n) ==>
      RuleAsMeant(policies[k].policy.egress[n], policies[k].policy.namespace, state, target.interfaces[i].netattachName)
  }

  ghost predicate SomePolicyAllows(target: PodInfo, policies: map<NamespacedName, PolicyInfo>, key: string,
                                   state: State, p: Packet)
    requires p.payload.IPPayload?
  {
    exists k, i: nat, n: nat :: Governs(target, policies, key, k, i, n) &&
      Allows(policies[k].policy.egress[n], policies[k].policy.namespace, state, target.interfaces[i].netattachName, p)
  }

  predicate RuleExcepts(policies: map<NamespacedName, PolicyInfo>, k: NamespacedName, n: nat, p: Packet)
    requires p.payload.IPPayload? && k in policies && n < |policies[k].policy.egress|
  {
    Excepts(policies[k].policy.egress[n], p)
  }

  ghost predicate SomePolicyExcepts(target: PodInfo, policies: map<NamespacedName, PolicyInfo>, key: string, p: Packet)
    requires p.payload.IPPayload?
  {
    exists k, i: nat, n: nat :: Governs(target, policies, key, k, i, n) && RuleExcepts(policies, k, n, p)
  }
}
