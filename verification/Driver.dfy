/** The two drivers: what becomes of a filter on its way to the kernel and back, and what the kernel does with it. */
module Drivers {
  import opened Collections
  import opened Net
  import opened Texts
  import opened TcTypes
  import opened Classifier
  import opened Netlink
  import opened CmdLine
  import opened Kernel

  datatype Driver = NetlinkDriver | CmdLineDriver

  /** A filter as the kernel shows it: to one driver as a message, to the other as a record that tc prints. */
  datatype Entry = Message(nl: NlFlower) | Record(c: CFilter)

  predicate Reads(d: Driver, e: Entry, f: Filter) {
    match d
    case NetlinkDriver => e.Message? && FromNl(e.nl) == f
    case CmdLineDriver => e.Record? && e.c.options.Some? && Built(e.c) == Ok(f)
  }

  /**
   * Filters that reach the kernel: those of known names, and for netlink without a type that contradicts the protocol.
   */
  predicate Accepted(d: Driver, f: Filter) {
    match d
    case NetlinkDriver => f.attrs.kind == KindFlower && Coded(ToNl(f))
    case CmdLineDriver => Named(f)
  }

  /** The filter that the kernel is asked for. In a netlink message port zero stands for no port. */
  function Sent(d: Driver, f: Filter): Filter {
    match d
    case NetlinkDriver => FromNl(ToNl(f))
    case CmdLineDriver => f
  }

  /**
   * A filter that is listed as it was added, if the kernel takes it: with a preference, with keys, and with a canonical
   * range. Through netlink it also needs a type key exactly behind a tag, and no port zero. All that a driver can list
   * is of this form, also filters of unknown names that others have added.
   */
  predicate Faithful(d: Driver, f: Filter) {
    && f.flower.Some? && f.attrs.priority.Some? && f.attrs.priority != Some(0) && RangeCanonical(f)
    && (d.NetlinkDriver? ==> KeysConvert(f.attrs.protocol, f.flower.value))
  }

  lemma FaithfulRespectsEquals(d: Driver, f: Filter, g: Filter)
    requires Canon(f) == Canon(g)
    ensures Faithful(d, f) <==> Faithful(d, g)
  {
    CanonKeepsRange(f);
    CanonKeepsRange(g);
  }

  lemma CanonKeepsRange(f: Filter)
    ensures RangeCanonical(Canon(f)) <==> RangeCanonical(f)
  {
  }

  /** Whatever the kernel holds is faithful itself. */
  lemma StoredIsFaithful(d: Driver, f: Filter, pref: u16, handle: u32)
    requires Accepted(d, f) && pref != 0
    ensures Faithful(d, Stored(Sent(d, f), pref, handle))
  {
    if d.NetlinkDriver? {
      CodedIsNamed(f);
    }
    var s := SpecOf(Sent(d, f));
    if s.dstIP.Some? {
      WireNetIsCanonical(s.dstIP.value);
    }
  }

  lemma FaithfulIsAccepted(d: Driver, f: Filter)
    requires Faithful(d, f) && Named(f)
    ensures Accepted(d, f) && Canon(Sent(d, f)) == Canon(f)
  {
    if d.NetlinkDriver? {
      NamedIsCoded(f);
      NetlinkRoundTrip(f);
      EqualsIsCanonEquality(Sent(d, f), f);
    }
  }

  lemma AcceptedIsNamed(d: Driver, f: Filter)
    requires Accepted(d, f) && Faithful(d, f)
    ensures Named(f)
  {
    if d.NetlinkDriver? {
      CodedActionsAreKnown(f.actions);
    }
  }

  /** What drivers can list is determined by what the kernel holds. */
  lemma FaithfulByWire(d: Driver, f: Filter, g: Filter)
    requires Faithful(d, f) && Faithful(d, g) && Wire(f) == Wire(g)
    ensures Canon(f) == Canon(g)
  {
    RangeByWire(f.flower.value.dstIP);
    RangeByWire(g.flower.value.dstIP);
    assert WireSpec(f.flower) == WireSpec(g.flower);
  }

  lemma RangeByWire(n: Option<IPNet>)
    requires n.Some? ==> Canonical(n.value)
    ensures n.Some? ==> CanonIP(WireNet(n.value).ip) == CanonIP(n.value.ip) && WireNet(n.value).mask == n.value.mask
  {
    if n.Some? {
      WireIsOwnIffCanonical(n.value);
    }
  }

  lemma SentPriority(d: Driver, f: Filter)
    requires f.attrs.priority.Some?
    ensures Sent(d, f).attrs.priority == f.attrs.priority
  {
  }

  /** What is listed equals what was added exactly for faithful filters. */
  lemma StoredEqualsAdded(d: Driver, f: Filter, pref: u16, handle: u32)
    requires Accepted(d, f) && pref == Chosen(f.attrs.priority, pref) && pref != 0
    ensures Canon(Stored(Sent(d, f), pref, handle)) == Canon(f) <==> Faithful(d, f)
  {
    var g := Stored(Sent(d, f), pref, handle);
    if Faithful(d, f) {
      AcceptedIsNamed(d, f);
      FaithfulIsAccepted(d, f);
      SentPriority(d, f);
      FaithfulRespectsEquals(d, Sent(d, f), f);
      StoredEquals(Sent(d, f), pref, handle);
    } else if Canon(g) == Canon(f) {
      StoredIsFaithful(d, f, pref, handle);
      FaithfulRespectsEquals(d, g, f);
    }
  }

  // ----- what filters do in the kernel -----

  /** All that matters for classification: the masked range and the keys, but not the handle. */
  function Wire(f: Filter): Filter {
    FlowerFilter(
      FilterAttrs(f.attrs.kind, f.attrs.protocol, Some(ChainOf(f)), None, Some(PrefOf(f))),
      Some(WireSpec(f.flower)),
      f.actions)
  }

  function WireKeys(fs: seq<Filter>): set<Filter> {
    set i | 0 <= i < |fs| :: Wire(fs[i])
  }

  /** What the kernel is asked for when all of `fs` are added. */
  function SentKeys(d: Driver, fs: seq<Filter>): set<Filter> {
    set i | 0 <= i < |fs| :: Wire(Sent(d, fs[i]))
  }

  function WireOf(keys: set<Filter>): set<Filter> {
    set c | c in keys :: Wire(c)
  }

  /** The kernel's view depends on equality classes only. */
  lemma WireOfKeys(fs: seq<Filter>)
    ensures WireOf(Keys(fs)) == WireKeys(fs)
  {
    forall i | 0 <= i < |fs|
      ensures Wire(fs[i]) in WireOf(Keys(fs)) && Wire(Canon(fs[i])) == Wire(fs[i])
    {
      CanonKeepsWire(fs[i]);
      assert Canon(fs[i]) in Keys(fs);
    }
    forall c | c in Keys(fs)
      ensures Wire(c) in WireKeys(fs)
    {
      var i :| 0 <= i < |fs| && Canon(fs[i]) == c;
      CanonKeepsWire(fs[i]);
    }
  }

  lemma WireMatches(f: Filter, p: Packet)
    ensures Matches(Wire(f), p) <==> Matches(f, p)
    ensures PrefOf(Wire(f)) == PrefOf(f) && FilterVerdict(Wire(f)) == FilterVerdict(f)
  {
    if f.flower.Some? && f.flower.value.dstIP.Some? && p.payload.IPPayload? {
      WireCovers(f.flower.value.dstIP.value, p.payload.dst);
    }
  }

  lemma WireRespectsEquals(f: Filter, g: Filter)
    requires Canon(f) == Canon(g)
    ensures Wire(f) == Wire(g)
  {
    CanonKeepsWire(f);
    CanonKeepsWire(g);
  }

  lemma SentRespectsEquals(d: Driver, f: Filter, g: Filter)
    requires Canon(f) == Canon(g)
    ensures Wire(Sent(d, f)) == Wire(Sent(d, g))
  {
    WireRespectsEquals(f, g);
  }

  lemma CanonKeepsWire(f: Filter)
    ensures WireSpec(Canon(f).flower) == WireSpec(f.flower)
    ensures ChainOf(Canon(f)) == ChainOf(f) && PrefOf(Canon(f)) == PrefOf(f)
    ensures Canon(f).attrs.protocol == f.attrs.protocol
  {
  }

  lemma StoredKeepsWire(f: Filter, pref: u16, handle: u32)
    ensures WireSpec(Stored(f, pref, handle).flower) == WireSpec(f.flower)
    ensures f.attrs.priority == Some(pref) ==> Wire(Stored(f, pref, handle)) == Wire(f)
  {
    if f.flower.Some? && f.flower.value.dstIP.Some? {
      WireNetTwice(f.flower.value.dstIP.value);
    }
  }

  lemma WireKeysMirror(a: seq<Filter>, b: seq<Filter>, p: Packet)
    requires WireKeys(a) <= WireKeys(b)
    ensures Mirrored(a, b, p)
  {
    forall i | 0 <= i < |a|
      ensures HasTwin(a[i], b, p)
    {
      assert Wire(a[i]) in WireKeys(b);
      var k :| 0 <= k < |b| && Wire(b[k]) == Wire(a[i]);
      WireMatches(a[i], p);
      WireMatches(b[k], p);
      assert ActsAlike(a[i], b[k], p);
    }
  }

  /** The verdict depends on what the kernel holds only: not on how ranges were written. */
  lemma VerdictDependsOnWireKeysOnly(a: seq<Filter>, b: seq<Filter>, p: Packet, v: Verdict)
    requires WireKeys(a) == WireKeys(b)
    ensures MayGive(a, p, v) <==> MayGive(b, p, v)
  {
    WireKeysMirror(a, b, p);
    WireKeysMirror(b, a, p);
    MirroredVerdict(a, b, p, v);
  }

  // ----- filters and the kernel's own numbers -----

  /** Entries that the driver shows in full: without actions of other types, and with ranges as tc prints them. */
  predicate Plain(e: Entry) {
    match e
    case Message(nl) => forall i :: 0 <= i < |nl.actions| ==> nl.actions[i].NlGeneric?
    case Record(c) =>
      c.options.Some? &&
      (c.options.value.keys.dstIP.Some? ==> WellPrinted(c.options.value.keys.dstIP.value))
  }

  function OfEntry(e: Entry): KernelFilter
    requires Plain(e)
  {
    match e
    case Message(nl) => OfMessage(nl)
    case Record(c) => OfRecord(c)
  }

  /** The kernel does with the packet what the filter says. */
  predicate ActsAs(k: KernelFilter, f: Filter, p: Packet) {
    (KernelMatches(k, p) <==> Matches(f, p)) && k.pref == PrefOf(f) && KernelVerdict(k) == FilterVerdict(f)
  }

  lemma ReadActions(actions: seq<NlAction>)
    requires forall i :: 0 <= i < |actions| ==> actions[i].NlGeneric?
    ensures |FlowerActions(actions)| == |actions|
    ensures forall i :: 0 <= i < |actions| ==>
              FlowerActions(actions)[i] == GenericAction(TcActToAction(actions[i].action))
  {
    if actions != [] {
      var n := |actions| - 1;
      ReadActions(actions[..n]);
      assert actions[..n] + [actions[n]] == actions;
    }
  }

  /** A message acts as the filter that the driver reads from it. */
  lemma MessageActs(nl: NlFlower, p: Packet)
    requires Plain(Message(nl)) && Named(FromNl(nl))
    ensures ActsAs(OfMessage(nl), FromNl(nl), p)
  {
    ReadActions(nl.actions);
  }

  /** The range that tc prints is the one that the driver reads. */
  lemma PrintedIsRead(t: Token, d: Dst)
    requires WellPrinted(t) && IPToIPNet(t).Some?
    ensures PrintedRange(t).Some? && (Covers(PrintedRange(t).value, d) <==> Covers(IPToIPNet(t).value, d))
  {
    var c, n := PrintedRange(t).value, IPToIPNet(t).value;
    PrintedIsWire(t);
    WireCovers(c, d);
    WireCovers(n, d);
  }

  lemma PrintedIsWire(t: Token)
    requires WellPrinted(t) && IPToIPNet(t).Some?
    ensures PrintedRange(t).Some? && WireNet(PrintedRange(t).value) == WireNet(IPToIPNet(t).value)
  {
    var c := PrintedRange(t).value;
    var bits := c.mask.bits - c.mask.ones;
    ClearLowTwice(Address(c.ip), bits);
    if !IsIPv4(c.ip) {
      ClearedStaysIPv6(Address(c.ip), bits);
    }
  }

  /** A record acts as the filter that the driver builds from it. */
  lemma RecordActs(c: CFilter, p: Packet)
    requires Plain(Record(c)) && Built(c).Ok? && Named(Built(c).value)
    ensures ActsAs(OfRecord(c), Built(c).value, p)
  {
    var keys := c.options.value.keys;
    if keys.dstIP.Some? {
      PrintedIsRead(keys.dstIP.value, if p.payload.IPPayload? then p.payload.dst else Dst4(0));
    }
    FrameTypeActs(c.protocol, p);
    if keys.vlanEthType.Some? {
      TagTypeActs(keys.vlanEthType.value, p);
    }
    if keys.ipProto.Some? {
      TransportActs(keys.ipProto.value, p);
    }
    PrintedCodeActs(c.options.value.actions);
  }

  lemma FrameTypeActs(name: string, p: Packet)
    requires !ProtocolNamed(name).ProtoOther?
    ensures var frameType := NumberFor(NAMED_TYPES, name);
            (frameType == 3 || TypeField(p, 0) == Some(frameType)) <==> ProtocolMatches(ProtocolNamed(name), p)
  {
  }

  lemma TagTypeActs(name: string, p: Packet)
    requires !VlanEthTypeNamed(name).VlanOther?
    ensures p.tags > 0 && TypeField(p, 1) == Some(NumberFor(NAMED_TYPES, name)) <==>
            VlanEthTypeMatches(VlanEthTypeNamed(name), p)
  {
  }

  lemma TransportActs(name: string, p: Packet)
    requires !IPProtoNamed(name).IPProtoOther?
    ensures p.payload.IPPayload? && TransportNumber(p.payload.proto) == Some(NumberFor(NAMED_TRANSPORTS, name)) <==>
            IPProtoMatches(IPProtoNamed(name), p)
  {
  }

  lemma PrintedCodeActs(actions: seq<CAction>)
    requires KnownCActions(actions) && forall i :: 0 <= i < |actions| ==> !BuiltActions(actions)[i].control.ActOther?
    ensures PrintedCode(actions) ==
            if actions == [] then 0 else if BuiltActions(actions)[0].control == ActDrop then 2 else 0
  {
    assert Lower("pass") == "pass" && Lower("drop") == "drop";
  }

  // ----- what the drivers send -----

  /**
   * The message of a filter: its first action drops with code 2 and passes with code 0, and the kernel does with every
   * packet what the filter says, if it has keys, a type key exactly behind a tag, and no port zero.
   */
  lemma SentMessageActs(f: Filter, p: Packet)
    requires Accepted(NetlinkDriver, f) && Faithful(NetlinkDriver, f)
    ensures ActsAs(OfMessage(ToNl(f)), f, p)
  {
    var nl := ToNl(f);
    AcceptedIsNamed(NetlinkDriver, f);
    FaithfulIsAccepted(NetlinkDriver, f);
    CodedIsNamed(f);
    MessageActs(nl, p);
    WireRespectsEquals(FromNl(nl), f);
    WireMatches(FromNl(nl), p);
    WireMatches(f, p);
  }

  /** A filter for port zero is sent as one for every port of its protocol. */
  lemma SentPortZeroActs(f: Filter, p: Packet)
    requires Accepted(NetlinkDriver, f) && f.flower.Some? && f.flower.value.dstPort == Some(0)
    requires f.flower.value.vlanEthType.Some? <==> f.attrs.protocol == Proto8021Q
    ensures KernelMatches(OfMessage(ToNl(f)), p) <==>
            Matches(f.(flower := Some(f.flower.value.(dstPort := None))), p)
    ensures KernelVerdict(OfMessage(ToNl(f))) == FilterVerdict(f) && OfMessage(ToNl(f)).pref == PrefOf(f)
  {
    var nl := ToNl(f);
    CodedIsNamed(f);
    CodedActionsAreKnown(f.actions);
    MessageActs(nl, p);
  }

  /** The number of the frames that a filter is for. */
  function TypeNumber(p: FilterProtocol): int {
    match p
    case ProtoAll => 0x0003
    case ProtoIPv4 => 0x0800
    case ProtoIPv6 => 0x86DD
    case Proto8021Q => 0x8100
    case ProtoOther(_) => 0
  }

  /**
   * The fields of a message in the kernel's numbers: attributes, keys with zero for an absent port and the frame's own
   * type where there is no type behind a tag, and the actions in order, each with its place and code.
   */
  lemma MessageOfFilter(f: Filter)
    requires Accepted(NetlinkDriver, f)
    ensures var nl := ToNl(f);
            nl.handle == f.attrs.handle.GetOr(0) && nl.chain == f.attrs.chain && nl.priority == PrefOf(f) &&
            nl.protocol == TypeNumber(f.attrs.protocol) && nl.dst == SpecOf(f).dstIP &&
            nl.destPort == SpecOf(f).dstPort.GetOr(0) &&
            nl.ipProto == (match SpecOf(f).ipProto
                           case None => None
                           case Some(t) => Some(if t == IPProtoTCP then 6 else 17)) &&
            (f.flower.Some? ==>
               nl.ethType == match f.flower.value.vlanEthType
                             case None => nl.protocol
                             case Some(t) => if t == VlanIPv4 then 0x0800 else if t == VlanIPv6 then 0x86DD else 0) &&
            |nl.actions| == |f.actions| &&
            forall i :: 0 <= i < |f.actions| ==>
              nl.actions[i] == NlGeneric(i, if f.actions[i].control == ActDrop then 2 else 0)
  {
    CodedActionsAreKnown(f.actions);
  }

  /** What tc lists for the printed arguments acts as the filter, at the preference that the kernel keeps it at. */
  lemma SentArgumentsAct(f: Filter, pref: u16, handle: u32, p: Packet)
    requires Named(f)
    ensures var c := Listed(FilterArgs(f), pref, handle);
            c.Some? && Plain(Record(c.value)) &&
            ActsAs(OfRecord(c.value), f.(attrs := f.attrs.(priority := Some(Chosen(f.attrs.priority, pref)))), p)
  {
    ArgumentsAreRead(f, pref, handle);
    RecordIsPlain(f, pref, handle);
    RecordBuilds(f, pref, handle);
    RecordActs(RecordOf(f, pref, handle), p);
    var kept := f.(attrs := f.attrs.(priority := Some(Chosen(f.attrs.priority, pref))));
    StoredKeepsWire(kept, Chosen(f.attrs.priority, pref), Chosen(f.attrs.handle, handle));
    WireMatches(kept, p);
    WireMatches(Stored(kept, Chosen(f.attrs.priority, pref), Chosen(f.attrs.handle, handle)), p);
  }

  lemma RecordIsPlain(f: Filter, pref: u16, handle: u32)
    ensures Plain(Record(RecordOf(f, pref, handle)))
  {
  }

  // ----- lists of entries -----

  predicate AllPlain(entries: seq<Entry>) {
    forall i :: 0 <= i < |entries| ==> Plain(entries[i])
  }

  predicate AllNamed(fs: seq<Filter>) {
    forall i :: 0 <= i < |fs| ==> Named(fs[i])
  }

  predicate AllReadAs(d: Driver, entries: seq<Entry>, fs: seq<Filter>) {
    |entries| == |fs| && forall i :: 0 <= i < |entries| ==> Reads(d, entries[i], fs[i])
  }

  function KernelFilters(entries: seq<Entry>): seq<KernelFilter>
    requires AllPlain(entries)
  {
    seq(|entries|, i requires 0 <= i < |entries| => OfEntry(entries[i]))
  }

  lemma EntryActs(d: Driver, e: Entry, f: Filter, p: Packet)
    requires Plain(e) && Reads(d, e, f) && Named(f)
    ensures ActsAs(OfEntry(e), f, p)
  {
    match e
    case Message(nl) => MessageActs(nl, p);
    case Record(c) => RecordActs(c, p);
  }

  /** The kernel gives a packet the verdicts that the filters which a driver reads give it. */
  lemma KernelGivesAsRead(d: Driver, entries: seq<Entry>, fs: seq<Filter>, p: Packet, v: Verdict)
    requires AllPlain(entries) && AllReadAs(d, entries, fs) && AllNamed(fs)
    ensures KernelMayGive(KernelFilters(entries), p, v) <==> MayGive(fs, p, v)
  {
    var ks := KernelFilters(entries);
    forall i | 0 <= i < |fs|
      ensures ActsAs(ks[i], fs[i], p)
    {
      EntryActs(d, entries[i], fs[i], p);
    }
    assert forall i :: KernelDecides(ks, i, p) <==> Decides(fs, i, p);
    assert KernelHit(ks, p) <==> Hit(fs, p);
  }

  /** Entries outside chain 0 are not asked. */
  lemma OtherChainsAreSilent(d: Driver, entries: seq<Entry>, fs: seq<Filter>, p: Packet, v: Verdict)
    requires AllPlain(entries) && AllReadAs(d, entries, fs)
    requires forall i :: 0 <= i < |fs| ==> ChainOf(fs[i]) != 0
    ensures KernelMayGive(KernelFilters(entries), p, v) <==> v == NoHit
  {
    forall i | 0 <= i < |fs|
      ensures KernelFilters(entries)[i].chain != 0
    {
      assert Reads(d, entries[i], fs[i]);
    }
  }

  /** Names are part of what the kernel holds. */
  lemma NamedByWire(f: Filter, g: Filter)
    requires Wire(f) == Wire(g) && Named(g)
    ensures Named(f)
  {
    assert WireSpec(f.flower) == WireSpec(g.flower);
  }
}
