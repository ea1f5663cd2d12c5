/**
 * What the kernel makes of a flower message, by its own numbers, and what tc's names stand for: nothing here refers to
 * how the drivers make filters into messages and records, or read them back.
 */
module Kernel {
  import opened Collections
  import opened Net
  import opened Texts
  import opened Classifier
  import opened Netlink
  import opened CmdLine

  /**
   * A filter of the kernel: the type field of the frame and the one behind a tag, the transport protocol, the range and
   * the port of the destination, and the code of the first action.
   */
  datatype KernelFilter = KernelFilter(
    chain: u32, pref: u16, frameType: int, tagType: Option<int>, transport: Option<int>, dst: Option<IPNet>,
    port: Option<u16>, code: int)

  // ----- packets in numbers -----

  /** The type field behind the first `depth` tags, if the packet is IP or has so many tags. */
  function TypeField(p: Packet, depth: nat): Option<int> {
    if depth < p.tags then Some(0x8100)
    else if depth == p.tags && p.payload.IPPayload? then Some(if p.payload.dst.Dst4? then 0x0800 else 0x86DD)
    else None
  }

  function TransportNumber(proto: L4Proto): Option<int> {
    match proto
    case L4TCP => Some(6)
    case L4UDP => Some(17)
    case L4SCTP => Some(132)
    case L4Other => None
  }

  /** Type 3 stands for every frame. */
  predicate KernelMatches(k: KernelFilter, p: Packet) {
    && k.chain == 0
    && (k.frameType == 3 || TypeField(p, 0) == Some(k.frameType))
    && (k.tagType.Some? ==> p.tags > 0 && TypeField(p, 1) == k.tagType)
    && (k.transport.Some? ==> p.payload.IPPayload? && TransportNumber(p.payload.proto) == k.transport)
    && (k.dst.Some? ==> p.payload.IPPayload? && Covers(k.dst.value, p.payload.dst))
    && (k.port.Some? ==> p.payload.IPPayload? && p.payload.proto != L4Other && p.payload.dstPort == k.port.value)
  }

  /** Code 0 lets the packet pass and code 2 drops it; with any other it is not decided here. */
  function KernelVerdict(k: KernelFilter): Verdict {
    if k.code == 0 then Pass else if k.code == 2 then Drop else NoHit
  }

  // ----- messages -----

  /** The code of a message's first action; without one the packet passes. Other types of actions have no code here. */
  function FirstCode(actions: seq<NlAction>): int {
    if actions == [] then 0 else if actions[0].NlGeneric? then actions[0].action else -1
  }

  /** A message: types and protocols are numbers already, port zero is none, and chain zero is the default. */
  function OfMessage(nl: NlFlower): KernelFilter {
    KernelFilter(nl.chain.GetOr(0), nl.priority, nl.protocol, if nl.protocol == 0x8100 then Some(nl.ethType) else None,
                 nl.ipProto, nl.dst, if nl.destPort == 0 then None else Some(nl.destPort), FirstCode(nl.actions))
  }

  // ----- tc's names -----

  const NAMED_TYPES: map<string, int> := map["all" := 3, "ip" := 0x0800, "ipv6" := 0x86DD, "802.1q" := 0x8100]
  const NAMED_TRANSPORTS: map<string, int> := map["tcp" := 6, "udp" := 17]
  const NAMED_CODES: map<string, int> := map["pass" := 0, "drop" := 2]

  /** The number that a name stands for, in upper or lower case; -1 for a name outside the table. */
  function NumberFor(table: map<string, int>, name: string): int {
    if Lower(name) in table then table[Lower(name)] else -1
  }

  /** The range that tc prints, an address without a suffix for itself alone. */
  function PrintedRange(t: Token): Option<IPNet> {
    match t
    case AddressText(ip) => Some(IPNet(ip, Mask(Width(ip), Width(ip))))
    case RangeText(ip, ones) => if ones <= Width(ip) then Some(IPNet(ip, Mask(ones, Width(ip)))) else None
    case Word(_) => None
  }

  /** tc prints an IPv4 address in its own form, and a prefix length that fits the address. */
  predicate WellPrinted(t: Token) {
    match t
    case AddressText(ip) => CanonIP(ip) == ip
    case RangeText(ip, ones) => CanonIP(ip) == ip && ones <= Width(ip)
    case Word(_) => false
  }

  function PrintedCode(actions: seq<CAction>): int {
    if actions == [] then 0
    else if actions[0].kind == "gact" then NumberFor(NAMED_CODES, actions[0].controlType)
    else -1
  }

  /** A record: what tc prints of a filter of the kernel. */
  function OfRecord(c: CFilter): KernelFilter
    requires c.options.Some?
  {
    var keys := c.options.value.keys;
    KernelFilter(c.chain, c.pref, NumberFor(NAMED_TYPES, c.protocol),
                 if keys.vlanEthType.Some? then Some(NumberFor(NAMED_TYPES, keys.vlanEthType.value)) else None,
                 if keys.ipProto.Some? then Some(NumberFor(NAMED_TRANSPORTS, keys.ipProto.value)) else None,
                 if keys.dstIP.Some? then PrintedRange(keys.dstIP.value) else None,
                 keys.dstPort, PrintedCode(c.options.value.actions))
  }

  // ----- lists of filters -----

  predicate KernelHit(ks: seq<KernelFilter>, p: Packet) {
    exists i :: 0 <= i < |ks| && KernelMatches(ks[i], p)
  }

  predicate KernelDecides(ks: seq<KernelFilter>, i: int, p: Packet) {
    0 <= i < |ks| && KernelMatches(ks[i], p) &&
    forall j :: 0 <= j < |ks| && KernelMatches(ks[j], p) ==> ks[i].pref <= ks[j].pref
  }

  /** The verdicts that the kernel may give, whatever order it tries filters of equal preference in. */
  ghost predicate KernelMayGive(ks: seq<KernelFilter>, p: Packet, v: Verdict) {
    if v == NoHit then !KernelHit(ks, p) || exists i :: KernelDecides(ks, i, p) && KernelVerdict(ks[i]) == NoHit
    else exists i :: KernelDecides(ks, i, p) && KernelVerdict(ks[i]) == v
  }
}
