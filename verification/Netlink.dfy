/** The netlink driver's conversion of filters to messages and back. */
module Netlink {
  import opened Collections
  import opened Net
  import opened Texts
  import opened TcTypes

  const ETH_P_ALL := 0x0003
  const ETH_P_IP := 0x0800
  const ETH_P_8021Q := 0x8100
  const ETH_P_IPV6 := 0x86DD
  const IPPROTO_TCP := 6
  const IPPROTO_UDP := 17
  const TC_ACT_UNSPEC := -1
  const TC_ACT_OK := 0
  const TC_ACT_SHOT := 2

  datatype NlAction = NlGeneric(index: nat, action: int) | NlOther(kind: string)

  datatype NlFlower = NlFlower(
    handle: u32, chain: Option<u32>, priority: u16, protocol: u16,
    dst: Option<IPNet>, destPort: u16, ipProto: Option<int>, ethType: u16, actions: seq<NlAction>)

  // ----- code tables -----

  function UnknownName(code: int): string {
    "Unknown(" + (if code < 0 then "-" + Format(-code, 10) else Format(code, 10)) + ")"
  }

  function FilterProtoToUnixProto(protocol: FilterProtocol): u16 {
    match protocol
    case ProtoIPv4 => ETH_P_IP
    case ProtoIPv6 => ETH_P_IPV6
    case Proto8021Q => ETH_P_8021Q
    case ProtoAll => ETH_P_ALL
    case ProtoOther(_) => 0
  }

  function UnixProtoToFilterProto(code: u16): FilterProtocol {
    if code == ETH_P_IP then ProtoIPv4
    else if code == ETH_P_IPV6 then ProtoIPv6
    else if code == ETH_P_8021Q then Proto8021Q
    else if code == ETH_P_ALL then ProtoAll
    else ProtoOther(UnknownName(code))
  }

  function VlanEthTypeToUnixProto(t: VlanEthType): u16 {
    match t
    case VlanIPv4 => ETH_P_IP
    case VlanIPv6 => ETH_P_IPV6
    case VlanOther(_) => 0
  }

  function UnixProtoToVlanEthType(code: u16): VlanEthType {
    if code == ETH_P_IP then VlanIPv4
    else if code == ETH_P_IPV6 then VlanIPv6
    else VlanOther(UnknownName(code))
  }

  function FlowerIPProtoToNl(t: FlowerIPProto): int {
    match t
    case IPProtoTCP => IPPROTO_TCP
    case IPProtoUDP => IPPROTO_UDP
    case IPProtoOther(_) => 0
  }

  function NlIPProtoToFlower(code: int): FlowerIPProto {
    if code == IPPROTO_TCP then IPProtoTCP
    else if code == IPPROTO_UDP then IPProtoUDP
    else IPProtoOther(UnknownName(code))
  }

  function ActionToTcAct(c: ControlAction): int {
    match c
    case ActPass => TC_ACT_OK
    case ActDrop => TC_ACT_SHOT
    case ActOther(_) => TC_ACT_UNSPEC
  }

  function TcActToAction(code: int): ControlAction {
    if code == TC_ACT_OK then ActPass
    else if code == TC_ACT_SHOT then ActDrop
    else ActOther(UnknownName(code))
  }

  // ----- converters -----

  function NlActions(actions: seq<Action>): seq<NlAction> {
    seq(|actions|, i requires 0 <= i < |actions| => NlGeneric(i, ActionToTcAct(actions[i].control)))
  }

  function PerNlAction(): NlAction -> seq<Action> {
    (a: NlAction) => if a.NlGeneric? then [GenericAction(TcActToAction(a.action))] else []
  }

  /** Actions of other types are skipped. */
  function FlowerActions(actions: seq<NlAction>): seq<Action> {
    FlatMap(PerNlAction(), actions)
  }

  function ToNl(f: Filter): NlFlower {
    var protocol := FilterProtoToUnixProto(f.attrs.protocol);
    var base := NlFlower(f.attrs.handle.GetOr(0), f.attrs.chain, f.attrs.priority.GetOr(0), protocol,
                         None, 0, None, 0, NlActions(f.actions));
    if f.flower.None? then base
    else
      var s := f.flower.value;
      base.(dst := s.dstIP,
      destPort := s.dstPort.GetOr(0),
      ipProto := if s.ipProto.Some? then Some(FlowerIPProtoToNl(s.ipProto.value)) else None,
      ethType := if s.vlanEthType.Some? then VlanEthTypeToUnixProto(s.vlanEthType.value) else protocol)
  }

  function FromNl(nl: NlFlower): Filter {
    FlowerFilter(
      FilterAttrs(KindFlower, UnixProtoToFilterProto(nl.protocol), nl.chain, Some(nl.handle), Some(nl.priority)),
      Some(FlowerSpec(
        if nl.protocol == ETH_P_8021Q then Some(UnixProtoToVlanEthType(nl.ethType)) else None,
        if nl.ipProto.Some? then Some(NlIPProtoToFlower(nl.ipProto.value)) else None,
        nl.dst,
        if nl.destPort != 0 then Some(nl.destPort) else None)),
      FlowerActions(nl.actions))
  }

  method FlowerFilterToNl(filter: Filter) returns (nl: NlFlower)
    ensures nl == ToNl(filter)
  {
    var protocol := FilterProtoToUnixProto(filter.attrs.protocol);
    var dst, destPort, ipProto, ethType := None, 0, None, 0;
    if filter.flower != None {
      var s := filter.flower.value;
      dst := s.dstIP;
      if s.dstPort != None {
        destPort := s.dstPort.value;
      }
      if s.ipProto != None {
        ipProto := Some(FlowerIPProtoToNl(s.ipProto.value));
      }
      if s.vlanEthType != None {
        ethType := VlanEthTypeToUnixProto(s.vlanEthType.value);
      } else {
        ethType := protocol;
      }
    }
    var actions: seq<NlAction> := [];
    for idx := 0 to |filter.actions|
      invariant actions == NlActions(filter.actions)[..idx]
    {
      actions := actions + [NlGeneric(idx, ActionToTcAct(filter.actions[idx].control))];
    }
    nl := NlFlower(filter.attrs.handle.GetOr(0), filter.attrs.chain, filter.attrs.priority.GetOr(0), protocol,
                   dst, destPort, ipProto, ethType, actions);
  }

  method NlToFlowerFilter(nl: NlFlower) returns (filter: Filter)
    ensures filter == FromNl(nl)
  {
    var vlanEthType, ipProto, dstPort := None, None, None;
    if nl.ipProto != None {
      ipProto := Some(NlIPProtoToFlower(nl.ipProto.value));
    }
    if nl.destPort != 0 {
      dstPort := Some(nl.destPort);
    }
    if nl.protocol == ETH_P_8021Q {
      vlanEthType := Some(UnixProtoToVlanEthType(nl.ethType));
    }
    var actions: seq<Action> := [];
    for i := 0 to |nl.actions|
      invariant actions == FlatMap(PerNlAction(), nl.actions[..i])
    {
      FlatMapStep(PerNlAction(), nl.actions, i);
      match nl.actions[i] {
        case NlOther(_) => continue;
        case NlGeneric(_, action) => actions := actions + [GenericAction(TcActToAction(action))];
      }
    }
    FlatMapAll(PerNlAction(), nl.actions);
    filter := FlowerFilter(
      FilterAttrs(KindFlower, UnixProtoToFilterProto(nl.protocol), nl.chain, Some(nl.handle), Some(nl.priority)),
      Some(FlowerSpec(vlanEthType, ipProto, nl.dst, dstPort)), actions);
  }

  // ----- round trip -----

  predicate ProtocolConverts(p: FilterProtocol) {
    p.ProtoOther? ==> p.name == UnknownName(0)
  }

  predicate VlanConverts(p: FilterProtocol, t: Option<VlanEthType>) {
    if p == Proto8021Q then t.Some? && (t.value.VlanOther? ==> t.value.name == UnknownName(0)) else t.None?
  }

  predicate SpecConverts(p: FilterProtocol, s: FlowerSpec) {
    && VlanConverts(p, s.vlanEthType)
    && (s.ipProto.Some? && s.ipProto.value.IPProtoOther? ==> s.ipProto.value.name == UnknownName(0))
    && (s.dstPort.Some? ==> s.dstPort.value != 0)
  }

  /** The keys that messages can carry: a type key exactly behind a tag, and no port zero. */
  predicate KeysConvert(p: FilterProtocol, s: FlowerSpec) {
    (s.vlanEthType.Some? <==> p == Proto8021Q) && s.dstPort != Some(0)
  }

  /**
   * The filters that survive the conversion: a preference, a known protocol, a type key exactly behind a tag, no port
   * zero, known actions. An unknown name is read back as a placeholder, which only that placeholder equals.
   */
  predicate Converts(f: Filter) {
    && f.attrs.kind == KindFlower
    && f.attrs.priority.Some?
    && ProtocolConverts(f.attrs.protocol)
    && f.flower.Some?
    && SpecConverts(f.attrs.protocol, f.flower.value)
    && forall i :: 0 <= i < |f.actions| && f.actions[i].control.ActOther? ==>
                   f.actions[i].control.name == UnknownName(TC_ACT_UNSPEC)
  }

  lemma ProtocolRoundTrip(p: FilterProtocol)
    ensures UnixProtoToFilterProto(FilterProtoToUnixProto(p)) == p <==> ProtocolConverts(p)
  {
  }

  lemma VlanRoundTrip(p: FilterProtocol, t: Option<VlanEthType>)
    ensures var code := FilterProtoToUnixProto(p);
            var ethType := if t.Some? then VlanEthTypeToUnixProto(t.value) else code;
            (if code == ETH_P_8021Q then Some(UnixProtoToVlanEthType(ethType)) else None) == t <==> VlanConverts(p, t)
  {
  }

  lemma {:induction false} ActionsReadBack(actions: seq<Action>)
    ensures |FlowerActions(NlActions(actions))| == |actions|
    ensures forall i :: 0 <= i < |actions| ==>
              FlowerActions(NlActions(actions))[i] == GenericAction(TcActToAction(ActionToTcAct(actions[i].control)))
  {
    if actions != [] {
      var n := |actions| - 1;
      ActionsReadBack(actions[..n]);
      assert NlActions(actions)[..n] == NlActions(actions[..n]);
    }
  }

  lemma ActionsRoundTrip(actions: seq<Action>)
    ensures FlowerActions(NlActions(actions)) == actions <==>
            forall i :: 0 <= i < |actions| && actions[i].control.ActOther? ==>
                        actions[i].control.name == UnknownName(TC_ACT_UNSPEC)
  {
    ActionsReadBack(actions);
  }

  /** Converting a filter to netlink and back gives an equal filter exactly when it converts. */
  lemma NetlinkRoundTrip(f: Filter)
    ensures FilterEquals(FromNl(ToNl(f)), f) <==> Converts(f)
  {
    ProtocolRoundTrip(f.attrs.protocol);
    ActionsRoundTrip(f.actions);
    EqualsIsCanonEquality(FromNl(ToNl(f)), f);
    if f.flower.Some? {
      VlanRoundTrip(f.attrs.protocol, f.flower.value.vlanEthType);
    }
  }

  // ----- messages in the kernel -----

  predicate CodedActions(actions: seq<NlAction>) {
    forall i :: 0 <= i < |actions| ==>
      actions[i].NlGeneric? && (actions[i].action == TC_ACT_OK || actions[i].action == TC_ACT_SHOT)
  }

  /** Every code of the message stands for a name, and its type fits its protocol. */
  predicate Coded(nl: NlFlower) {
    && !UnixProtoToFilterProto(nl.protocol).ProtoOther?
    && (if nl.protocol == ETH_P_8021Q then !UnixProtoToVlanEthType(nl.ethType).VlanOther?
        else nl.ethType == 0 || nl.ethType == nl.protocol)
    && (nl.ipProto.Some? ==> !NlIPProtoToFlower(nl.ipProto.value).IPProtoOther?)
    && CodedActions(nl.actions)
  }

  /** The message as the kernel lists it: with a chain, a preference and a handle, and with the range masked. */
  function Completed(nl: NlFlower, pref: u16, handle: u32): NlFlower {
    nl.(chain := Some(nl.chain.GetOr(CHAIN_DEFAULT_CHAIN)), priority := pref, handle := handle,
    dst := if nl.dst.Some? then Some(WireNet(nl.dst.value)) else None)
  }

  /** The driver reads a completed message as the kernel's form of the filter that the message stood for. */
  lemma CompletedIsStored(nl: NlFlower, pref: u16, handle: u32)
    ensures FromNl(Completed(nl, pref, handle)) == Stored(FromNl(nl), pref, handle)
  {
  }

  /** An accepted message stands for a filter with known names, a type key exactly behind a tag and no port zero. */
  lemma CodedIsNamed(f: Filter)
    requires Coded(ToNl(f))
    ensures Named(FromNl(ToNl(f)))
    ensures KeysConvert(FromNl(ToNl(f)).attrs.protocol, SpecOf(FromNl(ToNl(f))))
  {
    CodedActionsAreKnown(f.actions);
  }

  lemma CodedActionsAreKnown(actions: seq<Action>)
    requires CodedActions(NlActions(actions))
    ensures forall i :: 0 <= i < |actions| ==> !actions[i].control.ActOther?
    ensures FlowerActions(NlActions(actions)) == actions
  {
    ActionsReadBack(actions);
    forall i | 0 <= i < |actions|
      ensures !actions[i].control.ActOther?
    {
      assert NlActions(actions)[i].NlGeneric?;
    }
  }

  lemma NamedIsCoded(f: Filter)
    requires Named(f) && f.flower.Some? && SpecConverts(f.attrs.protocol, f.flower.value)
    ensures Coded(ToNl(f))
  {
  }
}
