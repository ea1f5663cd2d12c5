/** The command line driver: filters as arguments of tc, and the filters built from what tc lists. */
module CmdLine {
  import opened Collections
  import opened Net
  import opened Texts
  import opened TcTypes

  /** An argument: a word, or the text of an address or a range. Printing and scanning an address are inverse. */
  datatype Token = Word(text: string) | AddressText(ip: IP) | RangeText(ip: IP, ones: nat)

  // ----- printing -----

  function ProtocolName(p: FilterProtocol): string {
    match p
    case ProtoAll => "all"
    case ProtoIPv4 => "ip"
    case ProtoIPv6 => "ipv6"
    case Proto8021Q => "802.1q"
    case ProtoOther(name) => name
  }

  function VlanEthTypeName(t: VlanEthType): string {
    match t
    case VlanIPv4 => "ip"
    case VlanIPv6 => "ipv6"
    case VlanOther(name) => name
  }

  function IPProtoName(t: FlowerIPProto): string {
    match t
    case IPProtoTCP => "tcp"
    case IPProtoUDP => "udp"
    case IPProtoOther(name) => name
  }

  function ControlName(c: ControlAction): string {
    match c
    case ActPass => "pass"
    case ActDrop => "drop"
    case ActOther(name) => name
  }

  function KindName(k: FilterKind): string {
    match k
    case KindFlower => "flower"
    case KindOther(name) => name
  }

  /** The text of `IPNet.String`. */
  function NetText(n: IPNet): Token {
    RangeText(CanonIP(n.ip), PrefixLen(n))
  }

  function DstText(n: IPNet): Token {
    if !IsMaskFull(n.mask) then NetText(n) else AddressText(CanonIP(n.ip))
  }

  /** An argument pair, or nothing for an absent value. */
  function Pair(key: string, value: Option<Token>): seq<Token> {
    if value.Some? then [Word(key), value.value] else []
  }

  function Number(n: Option<int>): Option<Token>
    requires n.Some? ==> n.value >= 0
  {
    if n.Some? then Some(Word(Format(n.value, 10))) else None
  }

  function AttrsArgs(a: FilterAttrs): seq<Token> {
    Pair("protocol", if ProtocolName(a.protocol) != "" then Some(Word(ProtocolName(a.protocol))) else None) +
    (Pair("handle", Number(a.handle)) +
     (Pair("chain", Number(a.chain)) +
      (Pair("pref", Number(a.priority)) + [Word(KindName(a.kind))])))
  }

  function SpecTail(s: FlowerSpec, rest: seq<Token>): seq<Token> {
    Pair("vlan_ethtype", if s.vlanEthType.Some? then Some(Word(VlanEthTypeName(s.vlanEthType.value))) else None) +
    (Pair("ip_proto", if s.ipProto.Some? then Some(Word(IPProtoName(s.ipProto.value))) else None) +
     (Pair("dst_ip", if s.dstIP.Some? then Some(DstText(s.dstIP.value)) else None) +
      (Pair("dst_port", Number(s.dstPort)) + rest)))
  }

  function ActionArgs(actions: seq<Action>): seq<Token> {
    if actions == [] then []
    else [Word("action"), Word("gact"), Word(ControlName(actions[0].control))] + ActionArgs(actions[1..])
  }

  /** The arguments that describe a filter; absent keys print as no keys. */
  function FilterArgs(f: Filter): seq<Token> {
    AttrsArgs(f.attrs) + SpecTail(SpecOf(f), ActionArgs(f.actions))
  }

  /** `rest` stands for what will be appended later. */
  method AppendPair(args: seq<Token>, key: string, value: Option<Token>, ghost rest: seq<Token>)
    returns (r: seq<Token>)
    ensures r + rest == args + (Pair(key, value) + rest)
  {
    r := args;
    if value != None {
      r := r + [Word(key), value.value];
    }
    assert r == args + Pair(key, value);
    AppendAssociates(args, Pair(key, value), rest);
  }

  method GenAttrsArgs(a: FilterAttrs) returns (args: seq<Token>)
    ensures args == AttrsArgs(a)
  {
    var name := ProtocolName(a.protocol);
    var protocol := if name != "" then Some(Word(name)) else None;
    ghost var r4 := [Word(KindName(a.kind))];
    ghost var r3 := Pair("pref", Number(a.priority)) + r4;
    ghost var r2 := Pair("chain", Number(a.chain)) + r3;
    ghost var r1 := Pair("handle", Number(a.handle)) + r2;
    args := AppendPair([], "protocol", protocol, r1);
    args := AppendPair(args, "handle", Number(a.handle), r2);
    args := AppendPair(args, "chain", Number(a.chain), r3);
    args := AppendPair(args, "pref", Number(a.priority), r4);
    args := args + [Word(KindName(a.kind))];
  }

  method GenSpecArgs(s: FlowerSpec) returns (args: seq<Token>)
    ensures args == SpecTail(s, [])
  {
    var vlan := if s.vlanEthType.Some? then Some(Word(VlanEthTypeName(s.vlanEthType.value))) else None;
    var proto := if s.ipProto.Some? then Some(Word(IPProtoName(s.ipProto.value))) else None;
    var dst := None;
    if s.dstIP != None {
      dst := GenDstArg(s.dstIP.value);
    }
    ghost var r3 := Pair("dst_port", Number(s.dstPort)) + [];
    ghost var r2 := Pair("dst_ip", dst) + r3;
    ghost var r1 := Pair("ip_proto", proto) + r2;
    args := AppendPair([], "vlan_ethtype", vlan, r1);
    args := AppendPair(args, "ip_proto", proto, r2);
    args := AppendPair(args, "dst_ip", dst, r3);
    args := AppendPair(args, "dst_port", Number(s.dstPort), []);
    assert args + [] == args;
  }

  method GenDstArg(n: IPNet) returns (dst: Option<Token>)
    ensures dst == Some(DstText(n))
  {
    if !IsMaskFull(n.mask) {
      dst := Some(NetText(n));
    } else {
      dst := Some(AddressText(CanonIP(n.ip)));
    }
  }

  lemma SpecTailAppends(s: FlowerSpec, rest: seq<Token>)
    ensures SpecTail(s, []) + rest == SpecTail(s, rest)
  {
  }

  lemma {:induction false} ActionArgsAppend(actions: seq<Action>, a: Action)
    ensures ActionArgs(actions + [a])
      == ActionArgs(actions) + [Word("action"), Word("gact"), Word(ControlName(a.control))]
  {
    if actions == [] {
      assert [a][1..] == [];
    } else {
      ActionArgsAppend(actions[1..], a);
      assert (actions + [a])[1..] == actions[1..] + [a];
    }
  }

  method AppendActions(before: seq<Token>, actions: seq<Action>) returns (args: seq<Token>)
    ensures args == before + ActionArgs(actions)
  {
    args := before;
    for i := 0 to |actions|
      invariant args == before + ActionArgs(actions[..i])
    {
      ActionArgsAppend(actions[..i], actions[i]);
      assert actions[..i + 1] == actions[..i] + [actions[i]];
      args := args + [Word("action"), Word("gact"), Word(ControlName(actions[i].control))];
    }
    assert actions[..|actions|] == actions;
  }

  lemma AppendAssociates<A>(a: seq<A>, b: seq<A>, c: seq<A>)
    ensures a + b + c == a + (b + c)
  {
  }

  lemma FilterArgsParts(f: Filter)
    ensures FilterArgs(f) == AttrsArgs(f.attrs) + SpecTail(SpecOf(f), []) + ActionArgs(f.actions)
  {
    AppendAssociates(AttrsArgs(f.attrs), SpecTail(SpecOf(f), []), ActionArgs(f.actions));
    SpecTailAppends(SpecOf(f), ActionArgs(f.actions));
  }

  method GenCmdLineArgs(f: Filter) returns (args: seq<Token>)
    ensures args == FilterArgs(f)
  {
    FilterArgsParts(f);
    args := GenAttrsArgs(f.attrs);
    if f.flower != None {
      var keys := GenSpecArgs(f.flower.value);
      args := args + keys;
    } else {
      assert args + SpecTail(NO_KEYS, []) == args;
    }
    args := AppendActions(args, f.actions);
  }

  predicate IsDecimalDigit(c: char, d: nat) {
    '0' <= c <= '9' && c as int - '0' as int == d
  }

  /** Numbers are printed in decimal. */
  lemma NumbersAreDecimal(tens: nat, ones: nat)
    requires 0 < tens < 10 && ones < 10
    ensures var number := Number(Some(10 * tens + ones)).value;
            |number.text| == 2 && IsDecimalDigit(number.text[0], tens) && IsDecimalDigit(number.text[1], ones)
  {
    var n := 10 * tens + ones;
    assert n / 10 == tens && n % 10 == ones;
    DigitRoundTrip(tens);
    DigitRoundTrip(ones);
    assert Format(n, 10) == Format(tens, 10) + [DigitChar(ones)] == [DigitChar(tens), DigitChar(ones)];
  }

  // ----- what tc lists -----

  datatype CAction = CAction(kind: string, controlType: string)
  datatype CKeys = CKeys(vlanEthType: Option<string>, ipProto: Option<string>, dstIP: Option<Token>,
    dstPort: Option<u16>)
  datatype COptions = COptions(handle: u32, keys: CKeys, actions: seq<CAction>)
  datatype CFilter = CFilter(protocol: string, pref: u16, kind: string, chain: u32, options: Option<COptions>)

  /** Names are compared in lower case. */
  function ProtocolNamed(name: string): FilterProtocol {
    var s := Lower(name);
    if s == "all" then ProtoAll
    else if s == "ip" then ProtoIPv4
    else if s == "ipv6" then ProtoIPv6
    else if s == "802.1q" then Proto8021Q
    else ProtoOther("")
  }

  function VlanEthTypeNamed(name: string): VlanEthType {
    var s := Lower(name);
    if s == "ip" then VlanIPv4 else if s == "ipv6" then VlanIPv6 else VlanOther("")
  }

  function IPProtoNamed(name: string): FlowerIPProto {
    var s := Lower(name);
    if s == "tcp" then IPProtoTCP else if s == "udp" then IPProtoUDP else IPProtoOther("")
  }

  function ControlNamed(name: string): ControlAction {
    if name == "pass" then ActPass else if name == "drop" then ActDrop else ActOther(name)
  }

  /** A listed address or range; an address without a prefix length stands for itself alone. */
  function IPToIPNet(t: Token): Option<IPNet> {
    match t
    case AddressText(ip) => ParseCIDR(ip, Width(ip))
    case RangeText(ip, ones) => ParseCIDR(ip, ones)
    case _ => None
  }

  datatype ListError = UnexpectedKind | BadDstIP | UnexpectedAction

  predicate KnownCActions(actions: seq<CAction>) {
    forall i :: 0 <= i < |actions| ==> actions[i].kind == "gact"
  }

  function BuiltActions(actions: seq<CAction>): seq<Action> {
    seq(|actions|, i requires 0 <= i < |actions| => GenericAction(ControlNamed(actions[i].controlType)))
  }

  /** The filter built from a record with options. */
  function Built(c: CFilter): Result<Filter, ListError>
    requires c.options.Some?
  {
    var o := c.options.value;
    if c.kind != "flower" then Err(UnexpectedKind)
    else if o.keys.dstIP.Some? && IPToIPNet(o.keys.dstIP.value).None? then Err(BadDstIP)
    else if !KnownCActions(o.actions) then Err(UnexpectedAction)
    else Ok(FlowerFilter(
      FilterAttrs(KindFlower, ProtocolNamed(c.protocol), Some(c.chain), Some(o.handle), Some(c.pref)),
      Some(FlowerSpec(
        if o.keys.vlanEthType.Some? then Some(VlanEthTypeNamed(o.keys.vlanEthType.value)) else None,
        if o.keys.ipProto.Some? then Some(IPProtoNamed(o.keys.ipProto.value)) else None,
        if o.keys.dstIP.Some? then IPToIPNet(o.keys.dstIP.value) else None,
        o.keys.dstPort)),
      BuiltActions(o.actions)))
  }

  /** A record can be read exactly if it is for flower, its range parses, and its actions are all general ones. */
  lemma BuiltIff(c: CFilter)
    requires c.options.Some?
    ensures var o := c.options.value;
            var readable := o.keys.dstIP.Some? ==> IPToIPNet(o.keys.dstIP.value).Some?;
            var general := forall i :: 0 <= i < |o.actions| ==> o.actions[i].kind == "gact";
            (Built(c).Ok? <==> c.kind == "flower" && readable && general) &&
            (Built(c) == Err(UnexpectedKind) <==> c.kind != "flower") &&
            (Built(c) == Err(BadDstIP) <==> c.kind == "flower" && !readable) &&
            (Built(c) == Err(UnexpectedAction) <==> c.kind == "flower" && readable && !general)
  {
  }

  method BuildActions(cActions: seq<CAction>) returns (r: Result<seq<Action>, ListError>)
    ensures r.Ok? <==> KnownCActions(cActions)
    ensures r.Ok? ==> r.value == BuiltActions(cActions)
    ensures r.Err? ==> r.error == UnexpectedAction
  {
    var actions: seq<Action> := [];
    for i := 0 to |cActions|
      invariant forall k :: 0 <= k < i ==> cActions[k].kind == "gact"
      invariant actions == BuiltActions(cActions)[..i]
    {
      if cActions[i].kind != "gact" {
        return Err(UnexpectedAction);
      }
      actions := actions + [GenericAction(ControlNamed(cActions[i].controlType))];
    }
    return Ok(actions);
  }

  method Build(c: CFilter) returns (r: Result<Filter, ListError>)
    requires c.options.Some?
    ensures r == Built(c)
  {
    var o := c.options.value;
    if c.kind != "flower" {
      return Err(UnexpectedKind);
    }
    var spec := FlowerSpec(None, None, None, None);
    if o.keys.vlanEthType != None {
      spec := spec.(vlanEthType := Some(VlanEthTypeNamed(o.keys.vlanEthType.value)));
    }
    if o.keys.ipProto != None {
      spec := spec.(ipProto := Some(IPProtoNamed(o.keys.ipProto.value)));
    }
    if o.keys.dstIP != None {
      var ipn := IPToIPNet(o.keys.dstIP.value);
      if ipn == None {
        return Err(BadDstIP);
      }
      spec := spec.(dstIP := ipn);
    }
    if o.keys.dstPort != None {
      spec := spec.(dstPort := o.keys.dstPort);
    }
    var actions := BuildActions(o.actions);
    if actions.Err? {
      return Err(actions.error);
    }
    var attrs := FilterAttrs(KindFlower, ProtocolNamed(c.protocol), Some(c.chain), Some(o.handle), Some(c.pref));
    return Ok(FlowerFilter(attrs, Some(spec), actions.value));
  }

  function HasOptions(): CFilter -> bool {
    (c: CFilter) => c.options.Some?
  }

  predicate AllBuilt(cFilters: seq<CFilter>, objs: seq<Filter>) {
    |objs| == |cFilters| &&
    forall k :: 0 <= k < |objs| ==> cFilters[k].options.Some? && Built(cFilters[k]) == Ok(objs[k])
  }

  /** The filters built from the records that have options; the first bad one fails the listing. */
  method FilterList(cFilters: seq<CFilter>) returns (r: Result<seq<Filter>, ListError>)
    ensures r.Ok? ==> AllBuilt(Select(HasOptions(), cFilters), r.value)
    ensures r.Ok? <==> forall c :: c in cFilters && c.options.Some? ==> Built(c).Ok?
    ensures r.Err? ==> exists c :: c in cFilters && c.options.Some? && Built(c) == Err(r.error)
  {
    var objs: seq<Filter> := [];
    for i := 0 to |cFilters|
      invariant AllBuilt(Select(HasOptions(), cFilters[..i]), objs)
    {
      SelectStep(HasOptions(), cFilters, i);
      if cFilters[i].options == None {
        continue;
      }
      var f := Build(cFilters[i]);
      if f.Err? {
        return Err(f.error);
      }
      objs := objs + [f.value];
    }
    SelectAll(HasOptions(), cFilters);
    SelectMember(HasOptions(), cFilters);
    ghost var kept := Select(HasOptions(), cFilters);
    forall c | c in cFilters && c.options.Some?
      ensures Built(c).Ok?
    {
      assert c in kept;
      var k :| 0 <= k < |kept| && kept[k] == c;
    }
    return Ok(objs);
  }

  // ----- tc in between: reading the arguments and reporting the filter -----

  /** Takes the value of an optional argument off the front. */
  function Take(key: string, args: seq<Token>): (r: (Option<Token>, seq<Token>)) {
    if |args| >= 2 && args[0] == Word(key) then (Some(args[1]), args[2..]) else (None, args)
  }

  function WordOf(t: Option<Token>): Option<string> {
    if t.Some? && t.value.Word? then Some(t.value.text) else None
  }

  function NumberOf(t: Option<Token>, limit: nat): Option<nat> {
    if t.Some? && t.value.Word? then ParseUint(t.value.text, 10, limit) else None
  }

  function ReadActions(args: seq<Token>): Option<seq<CAction>>
    decreases |args|
  {
    if args == [] then Some([])
    else if |args| >= 3 && args[0] == Word("action") && args[1].Word? && args[2].Word? then
      var rest := ReadActions(args[3..]);
      if rest.Some? then Some([CAction(args[1].text, args[2].text)] + rest.value) else None
    else None
  }

  /** The flower keys and actions behind the filter kind. */
  function ReadOptions(args: seq<Token>, handle: u32): Option<COptions> {
    var (vlan, a1) := Take("vlan_ethtype", args);
    var (proto, a2) := Take("ip_proto", a1);
    var (dst, a3) := Take("dst_ip", a2);
    var (port, a4) := Take("dst_port", a3);
    var actions := ReadActions(a4);
    if actions.None? then None
    else Some(COptions(handle, CKeys(WordOf(vlan), WordOf(proto), dst, NumberOf(port, 0x1_0000)), actions.value))
  }

  datatype Head = Head(
    protocol: Option<Token>, handle: Option<Token>, chain: Option<Token>, pref: Option<Token>, rest: seq<Token>)

  function ReadHead(args: seq<Token>): Head {
    var (protocol, a1) := Take("protocol", args);
    var (handle, a2) := Take("handle", a1);
    var (chain, a3) := Take("chain", a2);
    var (pref, a4) := Take("pref", a3);
    Head(protocol, handle, chain, pref, a4)
  }

  /** tc lists the tag protocol with a capital letter. */
  function ListedProtocol(name: string): string {
    if name == "802.1q" then "802.1Q" else name
  }

  /** What tc lists for a filter added with these arguments under a preference and a handle that the kernel may pick. */
  function Listed(args: seq<Token>, pref: u16, handle: u32): Option<CFilter> {
    var h := ReadHead(args);
    if h.rest == [] || !h.rest[0].Word? then None
    else
      var options := ReadOptions(h.rest[1..], Chosen(NumberOf(h.handle, 0x1_0000_0000), handle));
      if options.None? then None
      else Some(CFilter(ListedProtocol(WordOf(h.protocol).GetOr("all")), Chosen(NumberOf(h.pref, 0x1_0000), pref),
                        h.rest[0].text, NumberOf(h.chain, 0x1_0000_0000).GetOr(0), options))
  }

  // ----- round trip -----

  predicate StartsOther(key: string, args: seq<Token>) {
    args == [] || args[0] != Word(key)
  }

  lemma TakePair(key: string, value: Option<Token>, rest: seq<Token>)
    requires StartsOther(key, rest)
    ensures Take(key, Pair(key, value) + rest) == (value, rest)
  {
    if value.Some? {
      assert (Pair(key, value) + rest)[2..] == rest;
    } else {
      assert Pair(key, value) + rest == rest;
    }
  }

  lemma PairStarts(key: string, other: string, value: Option<Token>, rest: seq<Token>)
    requires key != other && StartsOther(key, rest)
    ensures StartsOther(key, Pair(other, value) + rest)
  {
  }

  lemma KeywordsDiffer()
    ensures "protocol" != "handle" && "protocol" != "chain" && "protocol" != "pref" && "protocol" != "flower"
    ensures "handle" != "chain" && "handle" != "pref" && "handle" != "flower"
    ensures "chain" != "pref" && "chain" != "flower" && "pref" != "flower"
    ensures "vlan_ethtype" != "ip_proto" && "vlan_ethtype" != "dst_ip" && "vlan_ethtype" != "dst_port"
    ensures "vlan_ethtype" != "action"
    ensures "ip_proto" != "dst_ip" && "ip_proto" != "dst_port" && "ip_proto" != "action"
    ensures "dst_ip" != "dst_port" && "dst_ip" != "action" && "dst_port" != "action"
  {
  }

  function CActionsOf(actions: seq<Action>): seq<CAction> {
    seq(|actions|, i requires 0 <= i < |actions| => CAction("gact", ControlName(actions[i].control)))
  }

  lemma {:induction false} ActionsAreRead(actions: seq<Action>)
    ensures ReadActions(ActionArgs(actions)) == Some(CActionsOf(actions))
  {
    if actions != [] {
      var args := ActionArgs(actions);
      assert args[3..] == ActionArgs(actions[1..]);
      ActionsAreRead(actions[1..]);
      var first, tail := CAction("gact", ControlName(actions[0].control)), CActionsOf(actions[1..]);
      assert forall i :: 0 <= i < |tail| ==> CActionsOf(actions)[i + 1] == tail[i];
      assert CActionsOf(actions) == [first] + tail;
    }
  }

  function OptionsOf(s: FlowerSpec, actions: seq<Action>, handle: u32): COptions {
    COptions(
      handle,
      CKeys(if s.vlanEthType.Some? then Some(VlanEthTypeName(s.vlanEthType.value)) else None,
            if s.ipProto.Some? then Some(IPProtoName(s.ipProto.value)) else None,
            if s.dstIP.Some? then Some(DstText(s.dstIP.value)) else None,
            s.dstPort),
      CActionsOf(actions))
  }

  lemma NumberIsRead(n: Option<int>, limit: nat)
    requires n.Some? ==> 0 <= n.value < limit
    ensures NumberOf(Number(n), limit) == n
  {
    if n.Some? {
      UintRoundTrip(n.value, 10, limit);
    }
  }

  lemma OptionsAreRead(s: FlowerSpec, actions: seq<Action>, handle: u32)
    ensures ReadOptions(SpecTail(s, ActionArgs(actions)), handle) == Some(OptionsOf(s, actions, handle))
  {
    KeywordsDiffer();
    ActionsAreRead(actions);
    NumberIsRead(s.dstPort, 0x1_0000);
    var vlan := if s.vlanEthType.Some? then Some(Word(VlanEthTypeName(s.vlanEthType.value))) else None;
    var proto := if s.ipProto.Some? then Some(Word(IPProtoName(s.ipProto.value))) else None;
    var dst := if s.dstIP.Some? then Some(DstText(s.dstIP.value)) else None;
    var port := Number(s.dstPort);
    var a4 := ActionArgs(actions);
    var a3 := Pair("dst_port", port) + a4;
    var a2 := Pair("dst_ip", dst) + a3;
    var a1 := Pair("ip_proto", proto) + a2;
    TakePair("dst_port", port, a4);
    PairStarts("dst_ip", "dst_port", port, a4);
    TakePair("dst_ip", dst, a3);
    PairStarts("ip_proto", "dst_port", port, a4);
    PairStarts("ip_proto", "dst_ip", dst, a3);
    TakePair("ip_proto", proto, a2);
    PairStarts("vlan_ethtype", "dst_port", port, a4);
    PairStarts("vlan_ethtype", "dst_ip", dst, a3);
    PairStarts("vlan_ethtype", "ip_proto", proto, a2);
    TakePair("vlan_ethtype", vlan, a1);
  }

  /** The record of a filter with known names. */
  function RecordOf(f: Filter, pref: u16, handle: u32): CFilter {
    CFilter(ListedProtocol(ProtocolName(f.attrs.protocol)), Chosen(f.attrs.priority, pref), "flower", ChainOf(f),
            Some(OptionsOf(SpecOf(f), f.actions, Chosen(f.attrs.handle, handle))))
  }

  lemma HeadIsRead(protocol: Option<Token>, handle: Option<Token>, chain: Option<Token>, pref: Option<Token>,
                   rest: seq<Token>)
    requires rest != [] && rest[0] == Word("flower")
    ensures ReadHead(Pair("protocol", protocol) + (Pair("handle", handle) + (Pair("chain", chain) +
                     (Pair("pref", pref) + rest)))) == Head(protocol, handle, chain, pref, rest)
  {
    KeywordsDiffer();
    var a3 := Pair("pref", pref) + rest;
    var a2 := Pair("chain", chain) + a3;
    var a1 := Pair("handle", handle) + a2;
    TakePair("pref", pref, rest);
    PairStarts("chain", "pref", pref, rest);
    TakePair("chain", chain, a3);
    PairStarts("handle", "pref", pref, rest);
    PairStarts("handle", "chain", chain, a3);
    TakePair("handle", handle, a2);
    PairStarts("protocol", "pref", pref, rest);
    PairStarts("protocol", "chain", chain, a3);
    PairStarts("protocol", "handle", handle, a2);
    TakePair("protocol", protocol, a1);
  }

  lemma AttrsThenTail(a: FilterAttrs, tail: seq<Token>)
    requires !a.protocol.ProtoOther?
    ensures AttrsArgs(a) + tail ==
            Pair("protocol", Some(Word(ProtocolName(a.protocol)))) + (Pair("handle", Number(a.handle)) +
            (Pair("chain", Number(a.chain)) + (Pair("pref", Number(a.priority)) + ([Word(KindName(a.kind))] + tail))))
  {
  }

  lemma AttrsAreRead(a: FilterAttrs, tail: seq<Token>)
    requires !a.protocol.ProtoOther? && a.kind == KindFlower
    ensures ReadHead(AttrsArgs(a) + tail) ==
            Head(Some(Word(ProtocolName(a.protocol))), Number(a.handle), Number(a.chain), Number(a.priority),
                 [Word("flower")] + tail)
  {
    AttrsThenTail(a, tail);
    HeadIsRead(Some(Word(ProtocolName(a.protocol))), Number(a.handle), Number(a.chain), Number(a.priority),
               [Word("flower")] + tail);
  }

  lemma ListedAfterHead(args: seq<Token>, a: FilterAttrs, tail: seq<Token>, pref: u16, handle: u32, options: COptions)
    requires ReadHead(args) == Head(Some(Word(ProtocolName(a.protocol))), Number(a.handle), Number(a.chain),
                                    Number(a.priority), [Word("flower")] + tail)
    requires ReadOptions(tail, Chosen(a.handle, handle)) == Some(options)
    ensures Listed(args, pref, handle) ==
            Some(CFilter(ListedProtocol(ProtocolName(a.protocol)), Chosen(a.priority, pref), "flower",
                         a.chain.GetOr(0), Some(options)))
  {
    assert ([Word("flower")] + tail)[1..] == tail;
    NumberIsRead(a.handle, 0x1_0000_0000);
    NumberIsRead(a.chain, 0x1_0000_0000);
    NumberIsRead(a.priority, 0x1_0000);
  }

  /** The printed arguments can be read again: tc reports the filter it was given, whatever the kernel picked. */
  lemma ArgumentsAreRead(f: Filter, pref: u16, handle: u32)
    requires Named(f)
    ensures Listed(FilterArgs(f), pref, handle) == Some(RecordOf(f, pref, handle))
  {
    var tail := SpecTail(SpecOf(f), ActionArgs(f.actions));
    AttrsAreRead(f.attrs, tail);
    OptionsAreRead(SpecOf(f), f.actions, Chosen(f.attrs.handle, handle));
    ListedAfterHead(FilterArgs(f), f.attrs, tail, pref, handle,
                    OptionsOf(SpecOf(f), f.actions, Chosen(f.attrs.handle, handle)));
  }

  /**
   * A range printed and read again is the range that the kernel keeps, and equals the printed one if it is canonical.
   */
  lemma RangeIsReadBack(n: IPNet)
    ensures IPToIPNet(DstText(n)) == Some(WireNet(n))
    ensures DstIPEquals(IPToIPNet(DstText(n)), Some(n)) <==> Canonical(n)
  {
    var ip := CanonIP(n.ip);
    assert IsIPv4(ip) == IsIPv4(n.ip) && CanonIP(ip) == ip && Address(ip) == Address(n.ip);
    WireNetFixed(n);
  }

  lemma ActionsAreBuilt(actions: seq<Action>)
    requires forall i :: 0 <= i < |actions| ==> !actions[i].control.ActOther?
    ensures KnownCActions(CActionsOf(actions)) && BuiltActions(CActionsOf(actions)) == actions
  {
  }

  lemma ProtocolIsRestored(p: FilterProtocol)
    requires !p.ProtoOther?
    ensures ProtocolNamed(ListedProtocol(ProtocolName(p))) == p
  {
    assert Lower("802.1Q") == "802.1q" && Lower("all") == "all" && Lower("ip") == "ip" && Lower("ipv6") == "ipv6";
  }

  lemma NamesAreRestored(t: VlanEthType, q: FlowerIPProto)
    ensures !t.VlanOther? ==> VlanEthTypeNamed(VlanEthTypeName(t)) == t
    ensures !q.IPProtoOther? ==> IPProtoNamed(IPProtoName(q)) == q
  {
    assert Lower("ip") == "ip" && Lower("ipv6") == "ipv6" && Lower("tcp") == "tcp" && Lower("udp") == "udp";
  }

  /** The driver builds from the record what the kernel keeps of the filter. */
  lemma RecordBuilds(f: Filter, pref: u16, handle: u32)
    requires Named(f)
    ensures Built(RecordOf(f, pref, handle)) ==
            Ok(Stored(f, Chosen(f.attrs.priority, pref), Chosen(f.attrs.handle, handle)))
  {
    var s := SpecOf(f);
    ActionsAreBuilt(f.actions);
    ProtocolIsRestored(f.attrs.protocol);
    NamesAreRestored(s.vlanEthType.GetOr(VlanIPv4), s.ipProto.GetOr(IPProtoTCP));
    if s.dstIP.Some? {
      RangeIsReadBack(s.dstIP.value);
    }
  }

  predicate RebuiltEqual(c: CFilter, f: Filter)
    requires c.options.Some?
  {
    Built(c).Ok? && FilterEquals(Built(c).value, f)
  }

  /**
   * Printing a filter for tc, having tc list it and building it from the record gives an equal filter exactly when the
   * filter names its preference, has keys, and its range is canonical. A full mask, printed without a suffix, is
   * restored.
   */
  lemma CmdLineRoundTrip(f: Filter, pref: u16, handle: u32)
    requires Named(f) && pref != 0
    ensures var c := Listed(FilterArgs(f), pref, handle);
            c.Some? && c.value.options.Some? &&
            (RebuiltEqual(c.value, f) <==>
             f.attrs.priority.Some? && f.attrs.priority != Some(0) && f.flower.Some? && RangeCanonical(f))
  {
    var keptPref, keptHandle := Chosen(f.attrs.priority, pref), Chosen(f.attrs.handle, handle);
    ArgumentsAreRead(f, pref, handle);
    RecordBuilds(f, pref, handle);
    StoredEquals(f, keptPref, keptHandle);
    EqualsIsCanonEquality(Stored(f, keptPref, keptHandle), f);
  }

  // ----- injectivity -----

  lemma NumbersDiffer(a: Option<int>, b: Option<int>, limit: nat)
    requires (a.Some? ==> 0 <= a.value < limit) && (b.Some? ==> 0 <= b.value < limit)
    requires Number(a) == Number(b)
    ensures a == b
  {
    NumberIsRead(a, limit);
    NumberIsRead(b, limit);
  }

  /** The attributes and everything behind them can be told from the arguments, also without a preference. */
  lemma AttrsFromArgs(f: Filter, g: Filter)
    requires Named(f) && Named(g) && FilterArgs(f) == FilterArgs(g)
    ensures f.attrs == g.attrs
    ensures SpecTail(SpecOf(f), ActionArgs(f.actions)) == SpecTail(SpecOf(g), ActionArgs(g.actions))
  {
    var s, t := SpecTail(SpecOf(f), ActionArgs(f.actions)), SpecTail(SpecOf(g), ActionArgs(g.actions));
    AttrsAreRead(f.attrs, s);
    AttrsAreRead(g.attrs, t);
    NumbersDiffer(f.attrs.handle, g.attrs.handle, 0x1_0000_0000);
    NumbersDiffer(f.attrs.chain, g.attrs.chain, 0x1_0000_0000);
    NumbersDiffer(f.attrs.priority, g.attrs.priority, 0x1_0000);
    ProtocolIsRestored(f.attrs.protocol);
    ProtocolIsRestored(g.attrs.protocol);
    assert ([Word("flower")] + s)[1..] == s && ([Word("flower")] + t)[1..] == t;
  }

  /** The keys, up to the mask of the range, and the actions can be told from the arguments. */
  lemma KeysFromArgs(f: Filter, g: Filter)
    requires Named(f) && Named(g) && FilterArgs(f) == FilterArgs(g)
    ensures f.actions == g.actions
    ensures var s, t := SpecOf(f), SpecOf(g);
            s.vlanEthType == t.vlanEthType && s.ipProto == t.ipProto && s.dstPort == t.dstPort &&
            (s.dstIP.Some? <==> t.dstIP.Some?) &&
            (s.dstIP.Some? ==> DstText(s.dstIP.value) == DstText(t.dstIP.value))
  {
    var s, t := SpecOf(f), SpecOf(g);
    AttrsFromArgs(f, g);
    OptionsAreRead(s, f.actions, 0);
    OptionsAreRead(t, g.actions, 0);
    ActionsAreBuilt(f.actions);
    ActionsAreBuilt(g.actions);
    NamesAreRestored(s.vlanEthType.GetOr(VlanIPv4), s.ipProto.GetOr(IPProtoTCP));
    NamesAreRestored(t.vlanEthType.GetOr(VlanIPv4), t.ipProto.GetOr(IPProtoTCP));
  }

  predicate SameMask(f: Filter, g: Filter) {
    SpecOf(f).dstIP.Some? && SpecOf(g).dstIP.Some? ==> SpecOf(f).dstIP.value.mask == SpecOf(g).dstIP.value.mask
  }

  /**
   * Filters printed alike are equal exactly when both or neither have keys and the masks of their ranges are the same:
   * these two are all that the arguments do not show.
   */
  lemma PrintedAlike(f: Filter, g: Filter)
    requires Named(f) && Named(g) && FilterArgs(f) == FilterArgs(g)
    ensures FilterEquals(f, g) <==> (f.flower.Some? <==> g.flower.Some?) && SameMask(f, g)
  {
    AttrsFromArgs(f, g);
    KeysFromArgs(f, g);
  }

  /** Filters with canonical ranges that are printed alike are equal, with or without a preference. */
  lemma PrinterIsInjective(f: Filter, g: Filter)
    requires Named(f) && f.flower.Some? && RangeCanonical(f)
    requires Named(g) && g.flower.Some? && RangeCanonical(g)
    requires FilterArgs(f) == FilterArgs(g)
    ensures FilterEquals(f, g)
  {
    KeysFromArgs(f, g);
    PrintedAlike(f, g);
  }
}
