/** The compiler back end: rules become prioritised flower filters. */
module Generator {
  import opened Collections
  import opened Net
  import opened TcTypes
  import opened PolicyRules

  datatype BasePrio = BasePrioDrop | BasePrioPass | BasePrioDefault

  function BasePrioValue(base: BasePrio): u16 {
    match base
    case BasePrioDrop => 100
    case BasePrioPass => 200
    case BasePrioDefault => 300
  }

  function PrioOffset(proto: FilterProtocol): u16 {
    match proto
    case ProtoIPv6 => 1
    case Proto8021Q => 2
    case _ => 0
  }

  function PrioFromBaseAndProtocol(base: BasePrio, proto: FilterProtocol): u16 {
    BasePrioValue(base) + PrioOffset(proto)
  }

  const ALL_PROTOCOLS := [ProtoIPv4, ProtoIPv6, Proto8021Q]

  function ProtoToFlowerVlanEthType(proto: FilterProtocol): VlanEthType {
    match proto
    case ProtoIPv4 => VlanIPv4
    case ProtoIPv6 => VlanIPv6
    case _ => VlanOther("")
  }

  function PortProtocolToFlowerIPProto(proto: PortProtocol): FlowerIPProto {
    match proto
    case TCP => IPProtoTCP
    case UDP => IPProtoUDP
  }

  function ProtocolOfNet(c: IPNet): FilterProtocol {
    if IsIPv4(c.ip) then ProtoIPv4 else ProtoIPv6
  }

  /** One filter with the given keys; a port sets both the transport protocol and the destination port key. */
  function BuildFilter(proto: FilterProtocol, base: BasePrio, vlan: Option<VlanEthType>, dst: Option<IPNet>,
                       port: Option<Port>, action: ControlAction): Filter {
    FlowerFilter(
      FilterAttrs(KindFlower, proto, None, None, Some(PrioFromBaseAndProtocol(base, proto))),
      Some(FlowerSpec(
        vlan,
        if port.Some? then Some(PortProtocolToFlowerIPProto(port.value.protocol)) else None,
        dst,
        if port.Some? then Some(port.value.number) else None)),
      [GenericAction(action)])
  }

  // ----- the filters for one range, one port or one protocol -----

  function NetFilters(c: IPNet, port: Option<Port>, base: BasePrio, action: ControlAction): seq<Filter> {
    var proto := ProtocolOfNet(c);
    [BuildFilter(proto, base, None, Some(c), port, action),
     BuildFilter(Proto8021Q, base, Some(ProtoToFlowerVlanEthType(proto)), Some(c), port, action)]
  }

  function ProtocolFilters(proto: FilterProtocol, port: Option<Port>, base: BasePrio, action: ControlAction)
      : seq<Filter> {
    if proto == Proto8021Q then
      [BuildFilter(proto, base, Some(VlanIPv4), None, port, action),
       BuildFilter(proto, base, Some(VlanIPv6), None, port, action)]
    else
      [BuildFilter(proto, base, None, None, port, action)]
  }

  function PerProtocol(port: Option<Port>, base: BasePrio, action: ControlAction): FilterProtocol -> seq<Filter> {
    proto => ProtocolFilters(proto, port, base, action)
  }

  function AnyNetFilters(port: Option<Port>, base: BasePrio, action: ControlAction): seq<Filter> {
    FlatMap(PerProtocol(port, base, action), ALL_PROTOCOLS)
  }

  function PerNet(base: BasePrio, action: ControlAction): IPNet -> seq<Filter> {
    (c: IPNet) => NetFilters(c, None, base, action)
  }

  function PerPort(base: BasePrio, action: ControlAction): Port -> seq<Filter> {
    port => AnyNetFilters(Some(port), base, action)
  }

  function PerPortOfNet(c: IPNet, base: BasePrio, action: ControlAction): Port -> seq<Filter> {
    port => NetFilters(c, Some(port), base, action)
  }

  function PerNetAndPorts(ports: seq<Port>, base: BasePrio, action: ControlAction): IPNet -> seq<Filter> {
    (c: IPNet) => FlatMap(PerPortOfNet(c, base, action), ports)
  }

  // ----- the filters for a rule -----

  function FiltersFor(ipCidrs: seq<IPNet>, ports: seq<Port>, base: BasePrio, action: ControlAction): seq<Filter> {
    if ipCidrs != [] && ports != [] then FlatMap(PerNetAndPorts(ports, base, action), ipCidrs)
    else if ipCidrs != [] then FlatMap(PerNet(base, action), ipCidrs)
    else if ports != [] then FlatMap(PerPort(base, action), ports)
    else AnyNetFilters(None, base, action)
  }

  function DefaultFilters(): seq<Filter> {
    FiltersFor([], [], BasePrioDefault, ActDrop)
  }

  function RuleFilters(r: Rule): seq<Filter> {
    match r.action
    case ActionPass => FiltersFor(r.ipCidrs, r.ports, BasePrioPass, ActPass)
    case ActionDrop => FiltersFor(r.ipCidrs, r.ports, BasePrioDrop, ActDrop)
    case ActionOther(_) => []
  }

  function PerRule(): Rule -> seq<Filter> {
    r => RuleFilters(r)
  }

  /** The filter list of an isolated interface: the default drops, then the filters of each rule in turn. */
  function Compile(rules: seq<Rule>): seq<Filter> {
    DefaultFilters() + FlatMap(PerRule(), rules)
  }

  predicate KnownActions(rules: seq<Rule>) {
    forall i :: 0 <= i < |rules| ==> !rules[i].action.ActionOther?
  }

  // ----- the generator -----

  datatype GeneratorError = UnsupportedPolicyType | UnknownAction(action: PolicyAction)

  method GenFiltersWithIPs(ipCidrs: seq<IPNet>, base: BasePrio, action: ControlAction) returns (filters: seq<Filter>)
    ensures filters == FlatMap(PerNet(base, action), ipCidrs)
  {
    filters := [];
    for i := 0 to |ipCidrs|
      invariant filters == FlatMap(PerNet(base, action), ipCidrs[..i])
    {
      var c := ipCidrs[i];
      var proto := if IsIPv4(c.ip) then ProtoIPv4 else ProtoIPv6;
      filters := filters + [BuildFilter(proto, base, None, Some(c), None, action)];
      filters := filters
        + [BuildFilter(Proto8021Q, base, Some(ProtoToFlowerVlanEthType(proto)), Some(c), None, action)];
      FlatMapStep(PerNet(base, action), ipCidrs, i);
    }
    FlatMapAll(PerNet(base, action), ipCidrs);
  }

  method GenFiltersWithPorts(ports: seq<Port>, base: BasePrio, action: ControlAction) returns (filters: seq<Filter>)
    ensures filters == FlatMap(PerPort(base, action), ports)
  {
    filters := [];
    for i := 0 to |ports|
      invariant filters == FlatMap(PerPort(base, action), ports[..i])
    {
      filters := AppendForAllProtocols(filters, Some(ports[i]), base, action);
      FlatMapStep(PerPort(base, action), ports, i);
    }
    FlatMapAll(PerPort(base, action), ports);
  }

  method AppendForAllProtocols(before: seq<Filter>, port: Option<Port>, base: BasePrio, action: ControlAction)
    returns (filters: seq<Filter>)
    ensures filters == before + AnyNetFilters(port, base, action)
  {
    filters := before;
    ghost var f := PerProtocol(port, base, action);
    FlatMapAppend(before, f, ALL_PROTOCOLS, 0);
    for j := 0 to |ALL_PROTOCOLS|
      invariant filters == before + FlatMap(f, ALL_PROTOCOLS[..j])
    {
      var proto := ALL_PROTOCOLS[j];
      FlatMapAppend(before, f, ALL_PROTOCOLS, j);
      if proto == Proto8021Q {
        var onIPv4 := BuildFilter(proto, base, Some(VlanIPv4), None, port, action);
        var onIPv6 := BuildFilter(proto, base, Some(VlanIPv6), None, port, action);
        AppendTwo(filters, onIPv4, onIPv6);
        filters := filters + [onIPv4];
        filters := filters + [onIPv6];
      } else {
        filters := filters + [BuildFilter(proto, base, None, None, port, action)];
      }
    }
    FlatMapAll(f, ALL_PROTOCOLS);
  }

  method GenFiltersWithIPsAndPorts(ipCidrs: seq<IPNet>, ports: seq<Port>, base: BasePrio, action: ControlAction)
    returns (filters: seq<Filter>)
    ensures filters == FlatMap(PerNetAndPorts(ports, base, action), ipCidrs)
  {
    filters := [];
    for i := 0 to |ipCidrs|
      invariant filters == FlatMap(PerNetAndPorts(ports, base, action), ipCidrs[..i])
    {
      filters := AppendForPorts(filters, ipCidrs[i], ports, base, action);
      FlatMapStep(PerNetAndPorts(ports, base, action), ipCidrs, i);
    }
    FlatMapAll(PerNetAndPorts(ports, base, action), ipCidrs);
  }

  method AppendForPorts(before: seq<Filter>, c: IPNet, ports: seq<Port>, base: BasePrio, action: ControlAction)
    returns (filters: seq<Filter>)
    ensures filters == before + FlatMap(PerPortOfNet(c, base, action), ports)
  {
    filters := before;
    var proto := if IsIPv4(c.ip) then ProtoIPv4 else ProtoIPv6;
    ghost var f := PerPortOfNet(c, base, action);
    for j := 0 to |ports|
      invariant filters == before + FlatMap(f, ports[..j])
    {
      var port := Some(ports[j]);
      var untagged := BuildFilter(proto, base, None, Some(c), port, action);
      var tagged := BuildFilter(Proto8021Q, base, Some(ProtoToFlowerVlanEthType(proto)), Some(c), port, action);
      FlatMapAppend(before, f, ports, j);
      AppendTwo(filters, untagged, tagged);
      filters := filters + [untagged];
      filters := filters + [tagged];
    }
    FlatMapAll(f, ports);
  }

  method GenFiltersMatchAll(base: BasePrio, action: ControlAction) returns (filters: seq<Filter>)
    ensures filters == AnyNetFilters(None, base, action)
  {
    filters := AppendForAllProtocols([], None, base, action);
  }

  method GenFilters(ipCidrs: seq<IPNet>, ports: seq<Port>, base: BasePrio, action: ControlAction)
    returns (filters: seq<Filter>)
    ensures filters == FiltersFor(ipCidrs, ports, base, action)
  {
    var hasIPs := |ipCidrs| > 0;
    var hasPorts := |ports| > 0;
    if hasIPs && hasPorts {
      filters := GenFiltersWithIPsAndPorts(ipCidrs, ports, base, action);
    } else if hasIPs {
      filters := GenFiltersWithIPs(ipCidrs, base, action);
    } else if hasPorts {
      filters := GenFiltersWithPorts(ports, base, action);
    } else {
      filters := GenFiltersMatchAll(base, action);
    }
  }

  method GenPassFilters(rule: Rule) returns (filters: seq<Filter>)
    ensures filters == FiltersFor(rule.ipCidrs, rule.ports, BasePrioPass, ActPass)
  {
    filters := GenFilters(rule.ipCidrs, rule.ports, BasePrioPass, ActPass);
  }

  method GenDropFilters(rule: Rule) returns (filters: seq<Filter>)
    ensures filters == FiltersFor(rule.ipCidrs, rule.ports, BasePrioDrop, ActDrop)
  {
    filters := GenFilters(rule.ipCidrs, rule.ports, BasePrioDrop, ActDrop);
  }

  method GenDefaultFilters() returns (filters: seq<Filter>)
    ensures filters == DefaultFilters()
  {
    filters := GenFilters([], [], BasePrioDefault, ActDrop);
  }

  method GenRuleFilters(rules: seq<Rule>) returns (r: Result<seq<Filter>, GeneratorError>)
    ensures r.Ok? <==> KnownActions(rules)
    ensures r.Ok? ==> r.value == FlatMap(PerRule(), rules)
    ensures r.Err? ==> r.error.UnknownAction?
  {
    var filters := [];
    for i := 0 to |rules|
      invariant forall k :: 0 <= k < i ==> !rules[k].action.ActionOther?
      invariant filters == FlatMap(PerRule(), rules[..i])
    {
      var more := [];
      match rules[i].action {
        case ActionPass => more := GenPassFilters(rules[i]);
        case ActionDrop => more := GenDropFilters(rules[i]);
        case ActionOther(_) => return Err(UnknownAction(rules[i].action));
      }
      assert more == PerRule()(rules[i]);
      FlatMapStep(PerRule(), rules, i);
      filters := filters + more;
    }
    FlatMapAll(PerRule(), rules);
    return Ok(filters);
  }

  /** Compiles the rule set of an interface. Without rules the device keeps its qdisc and no filter. */
  method GenerateFromPolicyRuleSet(ruleSet: PolicyRuleSet) returns (r: Result<Objects, GeneratorError>)
    ensures r.Err? <==> ruleSet.kind != Egress || (ruleSet.rules.Some? && !KnownActions(ruleSet.rules.value))
    ensures r.Err? ==> (r.error == UnsupportedPolicyType <==> ruleSet.kind != Egress)
    ensures r.Ok? ==> r.value.qdisc == Some(QDiscIngress)
    ensures r.Ok? ==> r.value.filters == if ruleSet.rules.None? then [] else Compile(ruleSet.rules.value)
  {
    if ruleSet.kind != Egress {
      return Err(UnsupportedPolicyType);
    }
    var qdisc := Some(QDiscIngress);
    if ruleSet.rules == None {
      return Ok(Objects(qdisc, []));
    }
    var filters := GenDefaultFilters();
    var more := GenRuleFilters(ruleSet.rules.value);
    if more.Err? {
      return Err(more.error);
    }
    return Ok(Objects(qdisc, filters + more.value));
  }
}
