/** The Kubernetes objects that policies are rendered from. */
module Cluster {
  import opened Collections
  import opened Net

  datatype NamespacedName = NamespacedName(namespace: string, name: string)

  /** A label selector, as converted to required key/value pairs; some selectors have no such form. */
  datatype LabelSelector = AsMap(pairs: map<string, string>) | Unconvertible

  datatype K8sProtocol = K8sTCP | K8sUDP | K8sSCTP | K8sOther(name: string)

  /**
   * The port of an entry: absent, a 16-bit number, or another text. Such a text is a name for the port numbers that
   * pods give it; one that names nothing stands for none.
   */
  datatype PortRef = AnyPort | PortNumber(number: u16) | PortName(numbers: set<u16>)

  datatype PolicyPort = PolicyPort(port: PortRef, protocol: Option<K8sProtocol>)

  /** An IP block; ranges whose text does not parse are absent. */
  datatype IPBlock = IPBlock(cidr: Option<IPNet>, except: seq<Option<IPNet>>)

  datatype Peer = Peer(
    ipBlock: Option<IPBlock>, podSelector: Option<LabelSelector>, namespaceSelector: Option<LabelSelector>)

  datatype EgressRule = EgressRule(ports: seq<PolicyPort>, to: seq<Peer>)

  datatype Policy = Policy(namespace: string, name: string, podSelector: LabelSelector, egress: seq<EgressRule>)

  datatype PolicyInfo = PolicyInfo(policyNetworks: seq<string>, policy: Policy)

  /** A pod interface; IP texts that do not parse are absent. */
  datatype Interface = Interface(
    netattachName: string, deviceID: string, interfaceName: string, interfaceType: string, ips: seq<Option<IP>>)

  datatype PodInfo = PodInfo(name: string, namespace: string, labels: map<string, string>, interfaces: seq<Interface>)

  datatype NamespaceInfo = NamespaceInfo(name: string, labels: map<string, string>)

  /** The current pods and namespaces. */
  datatype State = State(pods: map<NamespacedName, PodInfo>, namespaces: map<string, NamespaceInfo>)

  predicate SelectorMatches(pairs: map<string, string>, labels: map<string, string>) {
    forall k :: k in pairs ==> k in labels && labels[k] == pairs[k]
  }

  datatype SelectorError = BadLabelSelector

  /** Whether a policy selects a pod: same namespace, and labels that the pod selector matches. */
  function PolicyAppliesForPod(pod: PodInfo, policy: Policy): Result<bool, SelectorError> {
    if policy.namespace != pod.namespace then Ok(false)
    else
      match policy.podSelector
      case Unconvertible => Err(BadLabelSelector)
      case AsMap(pairs) => Ok(SelectorMatches(pairs, pod.labels))
  }

  /** The policy selects the pod, and its selector is usable. */
  predicate Applicable(pod: PodInfo, policy: Policy) {
    PolicyAppliesForPod(pod, policy) == Ok(true)
  }

  predicate NamesNetwork(info: PolicyInfo, network: string) {
    network in info.policyNetworks
  }

  method AppliesForNetwork(info: PolicyInfo, network: string) returns (b: bool)
    ensures b <==> NamesNetwork(info, network)
  {
    for i := 0 to |info.policyNetworks|
      invariant network !in info.policyNetworks[..i]
    {
      if info.policyNetworks[i] == network {
        return true;
      }
    }
    return false;
  }

  /** `list` holds the value of each key once, in the order of `keys`. */
  ghost predicate ListsValues<K(!new), V>(list: seq<V>, keys: seq<K>, m: map<K, V>) {
    |list| == |keys| && (forall k :: k in keys <==> k in m) &&
    (forall i, j :: 0 <= i < j < |keys| ==> keys[i] != keys[j]) &&
    forall i :: 0 <= i < |keys| ==> keys[i] in m && list[i] == m[keys[i]]
  }

  /** Every entry of a map once, in some order. */
  method Values<K(!new), V>(m: map<K, V>) returns (list: seq<V>)
    ensures exists keys :: ListsValues(list, keys, m)
    ensures forall v :: v in list <==> exists k :: k in m && m[k] == v
  {
    list := [];
    ghost var keys: seq<K> := [];
    var rest := m.Keys;
    while rest != {}
      invariant rest <= m.Keys
      invariant ListsValues(list, keys, map k | k in m && k !in rest :: m[k])
      invariant forall v :: v in list <==> exists k :: k in m && k !in rest && m[k] == v
      decreases |rest|
    {
      var k :| k in rest;
      list := list + [m[k]];
      keys := keys + [k];
      rest := rest - {k};
    }
    assert (map k | k in m && k !in rest :: m[k]) == m;
  }
}
