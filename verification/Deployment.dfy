/**
 * Generated filters and the kernel: when they are listed as they were added, when they can stand side by side, and what
 * they do once they have come through a driver.
 */
module Deployment {
  import opened Collections
  import opened Net
  import opened TcTypes
  import opened Classifier
  import opened PolicyRules
  import opened Generator
  import opened GeneratorMeaning
  import opened Netlink
  import opened CmdLine
  import opened Drivers
  import opened Devices
  import opened Actuators

  // ----- what a compiled filter is made of -----

  /** One choice of a family, a tag, a range and a port. */
  datatype Part = Part(family: FilterProtocol, tagged: bool, range: Option<IPNet>, port: Option<Port>)

  /** A filter names a range and a port if there are any, and the family of its range. */
  predicate PartOf(part: Part, ipCidrs: seq<IPNet>, ports: seq<Port>) {
    && part.family in {ProtoIPv4, ProtoIPv6}
    && (if part.range.Some? then part.range.value in ipCidrs && part.family == ProtocolOfNet(part.range.value)
        else ipCidrs == [])
    && (if part.port.Some? then part.port.value in ports else ports == [])
  }

  function PartFilter(part: Part, base: BasePrio, action: ControlAction): Filter {
    BuildFilter(if part.tagged then Proto8021Q else part.family, base,
                if part.tagged then Some(ProtoToFlowerVlanEthType(part.family)) else None,
                part.range, part.port, action)
  }

  function RuleBase(r: Rule): BasePrio {
    if r.action == ActionPass then BasePrioPass else BasePrioDrop
  }

  function RuleAct(r: Rule): ControlAction {
    if r.action == ActionPass then ActPass else ActDrop
  }

  function RuleFilter(r: Rule, part: Part): Filter {
    PartFilter(part, RuleBase(r), RuleAct(r))
  }

  lemma NetFilterPart(c: IPNet, port: Option<Port>, base: BasePrio, action: ControlAction, f: Filter)
    returns (part: Part)
    requires f in NetFilters(c, port, base, action)
    ensures part.range == Some(c) && part.port == port && part.family == ProtocolOfNet(c)
    ensures f == PartFilter(part, base, action)
  {
    part := Part(ProtocolOfNet(c), f.attrs.protocol == Proto8021Q, Some(c), port);
  }

  lemma AnyNetFilterPart(port: Option<Port>, base: BasePrio, action: ControlAction, f: Filter) returns (part: Part)
    requires f in AnyNetFilters(port, base, action)
    ensures part.range == None && part.port == port && part.family in {ProtoIPv4, ProtoIPv6}
    ensures f == PartFilter(part, base, action)
  {
    FlatMapMember(PerProtocol(port, base, action), ALL_PROTOCOLS);
    var i :| 0 <= i < |ALL_PROTOCOLS| && f in PerProtocol(port, base, action)(ALL_PROTOCOLS[i]);
    var tagged := ALL_PROTOCOLS[i] == Proto8021Q;
    var family := if !tagged then ALL_PROTOCOLS[i]
                  else if f.flower.value.vlanEthType == Some(VlanIPv4) then ProtoIPv4 else ProtoIPv6;
    part := Part(family, tagged, None, port);
  }

  /** Every filter comes from a choice. */
  lemma PartBehind(ipCidrs: seq<IPNet>, ports: seq<Port>, base: BasePrio, action: ControlAction, f: Filter)
    returns (part: Part)
    requires f in FiltersFor(ipCidrs, ports, base, action)
    ensures PartOf(part, ipCidrs, ports) && f == PartFilter(part, base, action)
  {
    if ipCidrs != [] && ports != [] {
      FlatMapMember(PerNetAndPorts(ports, base, action), ipCidrs);
      var i :| 0 <= i < |ipCidrs| && f in PerNetAndPorts(ports, base, action)(ipCidrs[i]);
      FlatMapMember(PerPortOfNet(ipCidrs[i], base, action), ports);
      var j :| 0 <= j < |ports| && f in PerPortOfNet(ipCidrs[i], base, action)(ports[j]);
      part := NetFilterPart(ipCidrs[i], Some(ports[j]), base, action, f);
    } else if ipCidrs != [] {
      FlatMapMember(PerNet(base, action), ipCidrs);
      var i :| 0 <= i < |ipCidrs| && f in PerNet(base, action)(ipCidrs[i]);
      part := NetFilterPart(ipCidrs[i], None, base, action, f);
    } else if ports != [] {
      FlatMapMember(PerPort(base, action), ports);
      var j :| 0 <= j < |ports| && f in PerPort(base, action)(ports[j]);
      part := AnyNetFilterPart(Some(ports[j]), base, action, f);
    } else {
      part := AnyNetFilterPart(None, base, action, f);
    }
  }

  lemma AnyNetPartIsMade(part: Part, base: BasePrio, action: ControlAction)
    requires part.range.None? && part.family in {ProtoIPv4, ProtoIPv6}
    ensures PartFilter(part, base, action) in AnyNetFilters(part.port, base, action)
  {
    var f := PartFilter(part, base, action);
    var i := if part.tagged then 2 else if part.family == ProtoIPv4 then 0 else 1;
    FlatMapMember(PerProtocol(part.port, base, action), ALL_PROTOCOLS);
    assert f in PerProtocol(part.port, base, action)(ALL_PROTOCOLS[i]) by {
      var fs := ProtocolFilters(ALL_PROTOCOLS[i], part.port, base, action);
      assert f == fs[if part.tagged && part.family == ProtoIPv6 then 1 else 0];
    }
  }

  lemma NetPartIsMade(part: Part, base: BasePrio, action: ControlAction)
    requires part.range.Some? && part.family == ProtocolOfNet(part.range.value)
    ensures PartFilter(part, base, action) in NetFilters(part.range.value, part.port, base, action)
  {
    var fs := NetFilters(part.range.value, part.port, base, action);
    assert PartFilter(part, base, action) == fs[if part.tagged then 1 else 0];
  }

  /** Every choice is made. */
  lemma PartIsMade(ipCidrs: seq<IPNet>, ports: seq<Port>, part: Part, base: BasePrio, action: ControlAction)
    requires PartOf(part, ipCidrs, ports)
    ensures PartFilter(part, base, action) in FiltersFor(ipCidrs, ports, base, action)
  {
    var f := PartFilter(part, base, action);
    if part.range.None? {
      AnyNetPartIsMade(part, base, action);
      if part.port.Some? {
        var j :| 0 <= j < |ports| && ports[j] == part.port.value;
        FlatMapMember(PerPort(base, action), ports);
        assert f in PerPort(base, action)(ports[j]);
      }
    } else {
      NetPartIsMade(part, base, action);
      var i :| 0 <= i < |ipCidrs| && ipCidrs[i] == part.range.value;
      if part.port.None? {
        FlatMapMember(PerNet(base, action), ipCidrs);
        assert f in PerNet(base, action)(ipCidrs[i]);
      } else {
        var j :| 0 <= j < |ports| && ports[j] == part.port.value;
        FlatMapMember(PerPortOfNet(ipCidrs[i], base, action), ports);
        assert f in PerPortOfNet(ipCidrs[i], base, action)(ports[j]);
        FlatMapMember(PerNetAndPorts(ports, base, action), ipCidrs);
        assert f in PerNetAndPorts(ports, base, action)(ipCidrs[i]);
      }
    }
  }

  /** A compiled filter is a default drop, or comes from a choice of the ranges and ports of a rule. */
  lemma CompiledPart(rules: seq<Rule>, f: Filter) returns (i: int, part: Part)
    requires f in Compile(rules)
    ensures -1 <= i < |rules|
    ensures i == -1 ==> f in DefaultFilters() && PartOf(part, [], []) && f == PartFilter(part, BasePrioDefault, ActDrop)
    ensures i != -1 ==> !rules[i].action.ActionOther? && PartOf(part, rules[i].ipCidrs, rules[i].ports) &&
                        f == RuleFilter(rules[i], part)
  {
    if f in DefaultFilters() {
      i := -1;
      part := PartBehind([], [], BasePrioDefault, ActDrop, f);
    } else {
      FlatMapMember(PerRule(), rules);
      i :| 0 <= i < |rules| && f in PerRule()(rules[i]);
      part := PartBehind(rules[i].ipCidrs, rules[i].ports, RuleBase(rules[i]), RuleAct(rules[i]), f);
    }
  }

  lemma PartIsCompiled(rules: seq<Rule>, i: nat, part: Part)
    requires i < |rules| && !rules[i].action.ActionOther? && PartOf(part, rules[i].ipCidrs, rules[i].ports)
    ensures RuleFilter(rules[i], part) in Compile(rules)
  {
    PartIsMade(rules[i].ipCidrs, rules[i].ports, part, RuleBase(rules[i]), RuleAct(rules[i]));
    FlatMapMember(PerRule(), rules);
    assert RuleFilter(rules[i], part) in PerRule()(rules[i]);
  }

  /** A choice with the given range, or the given port, if the rule has them. */
  function SomePart(r: Rule, range: Option<IPNet>, port: Option<Port>): (part: Part)
    requires range.Some? ==> range.value in r.ipCidrs
    requires port.Some? ==> port.value in r.ports
    ensures PartOf(part, r.ipCidrs, r.ports) && !part.tagged
    ensures range.Some? ==> part.range == range
    ensures port.Some? ==> part.port == port
    ensures part.range.None? ==> part.family == ProtoIPv4
  {
    var c := if range.Some? || r.ipCidrs == [] then range else Some(r.ipCidrs[0]);
    var q := if port.Some? || r.ports == [] then port else Some(r.ports[0]);
    Part(if c.Some? then ProtocolOfNet(c.value) else ProtoIPv4, false, c, q)
  }

  // ----- filters that are listed as they were added -----

  predicate CanonicalRule(r: Rule) {
    forall c :: c in r.ipCidrs ==> Canonical(c)
  }

  predicate CanonicalRules(rules: seq<Rule>) {
    forall r :: r in rules ==> CanonicalRule(r)
  }

  predicate NoZeroPort(rules: seq<Rule>) {
    forall r :: r in rules ==> forall port :: port in r.ports ==> port.number != 0
  }

  /** The condition under which every compiled filter is listed as it was added. */
  predicate Listable(d: Driver, rules: seq<Rule>) {
    CanonicalRules(rules) && (d.NetlinkDriver? ==> NoZeroPort(rules))
  }

  lemma PartFaithful(d: Driver, part: Part, base: BasePrio, action: ControlAction)
    requires part.family in {ProtoIPv4, ProtoIPv6}
    ensures Faithful(d, PartFilter(part, base, action)) <==>
            (part.range.Some? ==> Canonical(part.range.value)) &&
            (d.NetlinkDriver? && part.port.Some? ==> part.port.value.number != 0)
  {
  }

  lemma TierOfCompiled(rules: seq<Rule>, f: Filter) returns (base: BasePrio, action: ControlAction)
    requires f in Compile(rules)
    ensures Tiered(f, base, action) && (action == ActPass <==> base == BasePrioPass) && action in {ActPass, ActDrop}
  {
    var i, part := CompiledPart(rules, f);
    base, action := BasePrioDefault, ActDrop;
    if i != -1 {
      base, action := RuleBase(rules[i]), RuleAct(rules[i]);
    }
  }

  /** The preferences of compiled filters, in numbers: drops, then passes, then defaults, by protocol. */
  lemma CompiledPreference(rules: seq<Rule>, f: Filter)
    requires f in Compile(rules)
    ensures FilterVerdict(f) == Pass ==> PrefOf(f) in {200, 201, 202}
    ensures FilterVerdict(f) == Drop ==> PrefOf(f) in {100, 101, 102, 300, 301, 302}
    ensures f.attrs.protocol in {ProtoIPv4, ProtoIPv6, Proto8021Q}
    ensures PrefOf(f) % 100 == match f.attrs.protocol case ProtoIPv4 => 0 case ProtoIPv6 => 1 case _ => 2
    ensures PrefOf(f) >= 300 <==> f in DefaultFilters()
  {
    var i, part := CompiledPart(rules, f);
    if f in DefaultFilters() {
      var q := PartBehind([], [], BasePrioDefault, ActDrop, f);
    }
  }

  lemma PortOfCompiled(rules: seq<Rule>, f: Filter)
    requires f in Compile(rules) && NoZeroPort(rules)
    ensures f.flower.Some? && f.flower.value.dstPort != Some(0)
  {
    var i, part := CompiledPart(rules, f);
    if i != -1 && part.port.Some? {
      assert rules[i] in rules && part.port.value in rules[i].ports;
    }
  }

  /** A filter for untagged packets of the family of its range. */
  predicate UntaggedFor(f: Filter) {
    f.attrs.protocol == if SpecOf(f).dstIP.Some? then ProtocolOfNet(SpecOf(f).dstIP.value) else ProtoIPv4
  }

  /** A port of a rule with a known action shows up in some compiled filter. */
  lemma PortIsCompiled(rules: seq<Rule>, i: nat, j: nat) returns (f: Filter)
    requires i < |rules| && !rules[i].action.ActionOther? && j < |rules[i].ports|
    ensures f in Compile(rules) && f.flower.Some? && f.flower.value.dstPort == Some(rules[i].ports[j].number)
    ensures UntaggedFor(f)
  {
    var part := SomePart(rules[i], None, Some(rules[i].ports[j]));
    PartIsCompiled(rules, i, part);
    f := RuleFilter(rules[i], part);
  }

  lemma CompiledIsNamed(rules: seq<Rule>, f: Filter)
    requires f in Compile(rules)
    ensures Named(f) && f.flower.Some? && Given(f.attrs.priority) && f.attrs.handle.None?
    ensures SpecConverts(f.attrs.protocol, f.flower.value) <==> f.flower.value.dstPort != Some(0)
  {
    var base, action := TierOfCompiled(rules, f);
  }

  lemma CompiledIsAccepted(d: Driver, rules: seq<Rule>, f: Filter)
    requires f in Compile(rules)
    ensures Accepted(d, f)
  {
    var base, action := TierOfCompiled(rules, f);
  }

  lemma ListableIsFaithful(d: Driver, rules: seq<Rule>, f: Filter)
    requires Listable(d, rules) && f in Compile(rules)
    ensures Faithful(d, f)
  {
    var i, part := CompiledPart(rules, f);
    if i == -1 {
      PartFaithful(d, part, BasePrioDefault, ActDrop);
    } else {
      assert rules[i] in rules && CanonicalRule(rules[i]);
      PartFaithful(d, part, RuleBase(rules[i]), RuleAct(rules[i]));
    }
  }

  lemma NamedPort(r: Rule) returns (j: nat)
    requires exists port :: port in r.ports && port.number == 0
    ensures j < |r.ports| && r.ports[j].number == 0
  {
    var port :| port in r.ports && port.number == 0;
    j :| 0 <= j < |r.ports| && r.ports[j] == port;
  }

  lemma UnlistableIsUnfaithful(d: Driver, rules: seq<Rule>) returns (f: Filter)
    requires KnownActions(rules) && !Listable(d, rules)
    ensures f in Compile(rules) && !Faithful(d, f)
  {
    if !CanonicalRules(rules) {
      var r :| r in rules && !CanonicalRule(r);
      var c :| c in r.ipCidrs && !Canonical(c);
      var i :| 0 <= i < |rules| && rules[i] == r;
      PartIsCompiled(rules, i, SomePart(r, Some(c), None));
      f := RuleFilter(r, SomePart(r, Some(c), None));
    } else {
      var r :| r in rules && exists port :: port in r.ports && port.number == 0;
      var i :| 0 <= i < |rules| && rules[i] == r;
      var j := NamedPort(r);
      f := PortIsCompiled(rules, i, j);
    }
  }

  /**
   * Compiled filters are listed as they were added exactly when every range of the rules is canonical and, for the
   * netlink driver, no rule names port zero. Parsed ranges that are not canonical are those written in IPv4-mapped
   * form.
   */
  lemma FaithfulIffListable(d: Driver, rules: seq<Rule>)
    requires KnownActions(rules)
    ensures AllFaithful(d, Compile(rules)) <==> Listable(d, rules)
  {
    if Listable(d, rules) {
      forall k | 0 <= k < |Compile(rules)|
        ensures Faithful(d, Compile(rules)[k])
      {
        ListableIsFaithful(d, rules, Compile(rules)[k]);
      }
    } else {
      var f := UnlistableIsUnfaithful(d, rules);
      var k :| 0 <= k < |Compile(rules)| && Compile(rules)[k] == f;
      assert !Faithful(d, Compile(rules)[k]);
    }
  }

  /** The range ::ffff:10.0.0.0/104, which the kernel keeps as 10.0.0.0/8. */
  function MappedTen(): IPNet {
    IPNet(Bytes16(0xffff_0a00_0000), Mask(104, 128))
  }

  function Ten(): IPNet {
    IPNet(Bytes4(0x0a00_0000), Mask(8, 32))
  }

  lemma MappedTenIsParsed()
    ensures ParseCIDR(Bytes16(0xffff_0a00_0000), 104) == Some(MappedTen())
    ensures ParseCIDR(Bytes4(0x0a00_0000), 8) == Some(Ten())
    ensures WireNet(MappedTen()) == WireNet(Ten()) == Ten() && Canonical(Ten()) && !Canonical(MappedTen())
  {
    Pow2Bytes();
    MappedIsParsed(0xffff_0a00_0000, 104, 0x0a00_0000);
  }

  lemma RangeIsUnlistable(d: Driver, c: IPNet, action: PolicyAction)
    requires !Canonical(c) && !action.ActionOther?
    ensures !Listable(d, [Rule([c], [], action)]) && !AllFaithful(d, Compile([Rule([c], [], action)]))
  {
    var rules := [Rule([c], [], action)];
    assert c in rules[0].ipCidrs && rules[0] in rules;
    FaithfulIffListable(d, rules);
  }

  /** A range in IPv4-mapped form keeps the reconciler from settling, through both drivers. */
  lemma MappedRangeIsUnlistable(d: Driver)
    ensures ParseCIDR(Bytes16(0xffff_0a00_0000), 104) == Some(MappedTen())
    ensures !AllFaithful(d, Compile([Rule([MappedTen()], [], ActionPass)]))
  {
    MappedTenIsParsed();
    RangeIsUnlistable(d, MappedTen(), ActionPass);
  }

  // ----- filters that can stand side by side -----

  /** A preference names one tier and one protocol. */
  lemma PreferenceIsInjective(b1: BasePrio, p1: FilterProtocol, b2: BasePrio, p2: FilterProtocol)
    requires p1 in ALL_PROTOCOLS && p2 in ALL_PROTOCOLS
    requires PrioFromBaseAndProtocol(b1, p1) == PrioFromBaseAndProtocol(b2, p2)
    ensures b1 == b2 && p1 == p2
  {
  }

  /** The ranges are equal as `Equals` compares them. */
  predicate WrittenAlike(c: IPNet, e: IPNet) {
    CanonIP(c.ip) == CanonIP(e.ip) && c.mask == e.mask
  }

  predicate ShareAPort(r: Rule, s: Rule) {
    (r.ports == [] && s.ports == []) || exists port :: port in r.ports && port in s.ports
  }

  predicate WriteAlike(r: Rule, s: Rule) {
    forall c, e :: c in r.ipCidrs && e in s.ipCidrs && WireNet(c) == WireNet(e) ==> WrittenAlike(c, e)
  }

  predicate Compete(r: Rule, s: Rule) {
    r.action == s.action && !r.action.ActionOther? && ShareAPort(r, s)
  }

  /** Rules of one action with a common port, or both without ports, write each range in one way. */
  predicate RangesAgree(rules: seq<Rule>) {
    forall r, s :: r in rules && s in rules && Compete(r, s) ==> WriteAlike(r, s)
  }

  /** Two choices stand for the same keys in the kernel. */
  predicate SameInKernel(a: Part, b: Part) {
    a.family == b.family && a.tagged == b.tagged && a.port == b.port && a.range.Some? == b.range.Some? &&
    (a.range.Some? ==> WireNet(a.range.value) == WireNet(b.range.value))
  }

  /** Filters of the generated form stand in one another's way as sent exactly when they do as compiled. */
  lemma SentClash(d: Driver, f: Filter, b1: BasePrio, a1: ControlAction, g: Filter, b2: BasePrio, a2: ControlAction)
    requires Tiered(f, b1, a1) && a1 in {ActPass, ActDrop} && Tiered(g, b2, a2) && a2 in {ActPass, ActDrop}
    ensures Clash(Sent(d, f), Sent(d, g)) <==> Clash(f, g)
  {
    if d.NetlinkDriver? {
      SentByNetlink(f, b1, a1);
      SentByNetlink(g, b2, a2);
      NetlinkClash(f, Sent(d, f), g, Sent(d, g));
    }
  }

  lemma NetlinkClash(f: Filter, f': Filter, g: Filter, g': Filter)
    requires f.flower.Some? && (f.flower.value.dstPort.Some? <==> f.flower.value.ipProto.Some?)
    requires g.flower.Some? && (g.flower.value.dstPort.Some? <==> g.flower.value.ipProto.Some?)
    requires f' == WithoutPortZero(f).(attrs := f.attrs.(handle := Some(0)))
    requires g' == WithoutPortZero(g).(attrs := g.attrs.(handle := Some(0)))
    ensures Clash(f', g') <==> Clash(f, g)
  {
    SameKeysWithoutPortZero(f.flower.value, g.flower.value);
  }

  lemma SameKeysWithoutPortZero(s: FlowerSpec, t: FlowerSpec)
    requires (s.dstPort.Some? <==> s.ipProto.Some?) && (t.dstPort.Some? <==> t.ipProto.Some?)
    ensures WireSpec(Some(if s.dstPort == Some(0) then s.(dstPort := None) else s)) ==
            WireSpec(Some(if t.dstPort == Some(0) then t.(dstPort := None) else t)) <==>
            WireSpec(Some(s)) == WireSpec(Some(t))
  {
  }

  lemma PartsClash(a: Part, b1: BasePrio, a1: ControlAction, b: Part, b2: BasePrio, a2: ControlAction)
    requires a.family in {ProtoIPv4, ProtoIPv6} && b.family in {ProtoIPv4, ProtoIPv6}
    ensures Clash(PartFilter(a, b1, a1), PartFilter(b, b2, a2)) <==> b1 == b2 && SameInKernel(a, b)
  {
    var f, g := PartFilter(a, b1, a1), PartFilter(b, b2, a2);
    if PrefOf(f) == PrefOf(g) {
      PreferenceIsInjective(b1, f.attrs.protocol, b2, g.attrs.protocol);
    }
  }

  lemma SentPartsClash(d: Driver, a: Part, b1: BasePrio, a1: ControlAction, b: Part, b2: BasePrio, a2: ControlAction)
    requires a.family in {ProtoIPv4, ProtoIPv6} && b.family in {ProtoIPv4, ProtoIPv6}
    requires a1 in {ActPass, ActDrop} && a2 in {ActPass, ActDrop}
    ensures Clash(Sent(d, PartFilter(a, b1, a1)), Sent(d, PartFilter(b, b2, a2))) <==> b1 == b2 && SameInKernel(a, b)
  {
    SentClash(d, PartFilter(a, b1, a1), b1, a1, PartFilter(b, b2, a2), b2, a2);
    PartsClash(a, b1, a1, b, b2, a2);
  }

  /** Ranges of different families never denote the same range. */
  lemma FamilyInKernel(a: Part, b: Part)
    ensures a.range.Some? && b.range.Some? && WireNet(a.range.value) == WireNet(b.range.value) ==>
              ProtocolOfNet(a.range.value) == ProtocolOfNet(b.range.value)
  {
  }

  lemma PartsEqual(a: Part, b: Part, base: BasePrio, action: ControlAction)
    requires SameInKernel(a, b) && a.family in {ProtoIPv4, ProtoIPv6}
    ensures Canon(PartFilter(a, base, action)) == Canon(PartFilter(b, base, action)) <==>
            (a.range.Some? ==> WrittenAlike(a.range.value, b.range.value))
  {
  }

  lemma AgreeingRulesDoNotConflict(d: Driver, rules: seq<Rule>, f: Filter, g: Filter)
    requires RangesAgree(rules) && f in Compile(rules) && g in Compile(rules) && Clash(Sent(d, f), Sent(d, g))
    ensures Canon(f) == Canon(g)
  {
    var i, a := CompiledPart(rules, f);
    var j, b := CompiledPart(rules, g);
    var b1, a1 := BasePrioDefault, ActDrop;
    var b2, a2 := BasePrioDefault, ActDrop;
    if i != -1 {
      b1, a1 := RuleBase(rules[i]), RuleAct(rules[i]);
    }
    if j != -1 {
      b2, a2 := RuleBase(rules[j]), RuleAct(rules[j]);
    }
    SentPartsClash(d, a, b1, a1, b, b2, a2);
    PartsEqual(a, b, b1, a1);
    if a.range.Some? {
      assert rules[i] in rules && rules[j] in rules;
      assert a.port.Some? ==> a.port.value in rules[i].ports && a.port.value in rules[j].ports;
      assert Compete(rules[i], rules[j]);
    }
  }

  lemma TwinParts(r: Rule, s: Rule, c: IPNet, e: IPNet) returns (a: Part, b: Part)
    requires ShareAPort(r, s) && c in r.ipCidrs && e in s.ipCidrs && WireNet(c) == WireNet(e)
    ensures PartOf(a, r.ipCidrs, r.ports) && PartOf(b, s.ipCidrs, s.ports) && SameInKernel(a, b)
    ensures a.range == Some(c) && b.range == Some(e)
  {
    var port := None;
    if r.ports != [] {
      var q :| q in r.ports && q in s.ports;
      port := Some(q);
    }
    a, b := SomePart(r, Some(c), port), SomePart(s, Some(e), port);
    FamilyInKernel(a, b);
  }

  lemma DisagreeingRulesConflict(d: Driver, rules: seq<Rule>) returns (f: Filter, g: Filter)
    requires !RangesAgree(rules)
    ensures f in Compile(rules) && g in Compile(rules) && Clash(Sent(d, f), Sent(d, g)) && Canon(f) != Canon(g)
  {
    var r, s :| r in rules && s in rules && Compete(r, s) && !WriteAlike(r, s);
    var c, e :| c in r.ipCidrs && e in s.ipCidrs && WireNet(c) == WireNet(e) && !WrittenAlike(c, e);
    var i :| 0 <= i < |rules| && rules[i] == r;
    var j :| 0 <= j < |rules| && rules[j] == s;
    var a, b := TwinParts(r, s, c, e);
    PartIsCompiled(rules, i, a);
    PartIsCompiled(rules, j, b);
    f, g := RuleFilter(r, a), RuleFilter(s, b);
    SentPartsClash(d, a, RuleBase(r), RuleAct(r), b, RuleBase(s), RuleAct(s));
    PartsEqual(a, b, RuleBase(r), RuleAct(r));
  }

  /**
   * Compiled filters can be installed, by either driver, exactly when no range is written in two ways by rules of one
   * action with a common port. Port zero is no obstacle, and neither are IPv4-mapped ranges on their own.
   */
  lemma InstallableIffRangesAgree(d: Driver, rules: seq<Rule>)
    ensures Installable(d, Compile(rules)) <==> RangesAgree(rules)
    ensures ConflictFree(d, Compile(rules)) <==> RangesAgree(rules)
  {
    var fs := Compile(rules);
    forall k | 0 <= k < |fs|
      ensures Given(fs[k].attrs.priority) && Named(fs[k]) && fs[k].attrs.handle.None? && Accepted(d, fs[k])
    {
      CompiledIsNamed(rules, fs[k]);
      CompiledIsAccepted(d, rules, fs[k]);
    }
    if RangesAgree(rules) {
      forall i, j | 0 <= i < |fs| && 0 <= j < |fs| && Clash(Sent(d, fs[i]), Sent(d, fs[j]))
        ensures Canon(fs[i]) == Canon(fs[j])
      {
        AgreeingRulesDoNotConflict(d, rules, fs[i], fs[j]);
      }
    } else {
      var f, g := DisagreeingRulesConflict(d, rules);
      var i :| 0 <= i < |fs| && fs[i] == f;
      var j :| 0 <= j < |fs| && fs[j] == g;
    }
  }

  /** Canonical ranges are written in one way. */
  lemma CanonicalRangesAgree(rules: seq<Rule>)
    requires CanonicalRules(rules)
    ensures RangesAgree(rules)
  {
    forall r, s, c, e | r in rules && s in rules && c in r.ipCidrs && e in s.ipCidrs && WireNet(c) == WireNet(e)
      ensures WrittenAlike(c, e)
    {
      assert CanonicalRule(r) && CanonicalRule(s);
      WireIsOwnIffCanonical(c);
      WireIsOwnIffCanonical(e);
    }
  }

  lemma TwinsConflict(d: Driver, c: IPNet, e: IPNet)
    requires WireNet(c) == WireNet(e) && !WrittenAlike(c, e)
    ensures !ConflictFree(d, Compile([Rule([c], [], ActionPass), Rule([e], [], ActionPass)]))
  {
    var rules := [Rule([c], [], ActionPass), Rule([e], [], ActionPass)];
    assert c in rules[0].ipCidrs && e in rules[1].ipCidrs && rules[0] in rules && rules[1] in rules;
    assert Compete(rules[0], rules[1]) && !WriteAlike(rules[0], rules[1]);
    InstallableIffRangesAgree(d, rules);
  }

  /** Pass rules for 10.0.0.0/8 and for ::ffff:10.0.0.0/104 stand in one another's way. */
  lemma MappedTwinConflicts(d: Driver)
    ensures ParseCIDR(Bytes16(0xffff_0a00_0000), 104) == Some(MappedTen())
    ensures ParseCIDR(Bytes4(0x0a00_0000), 8) == Some(Ten())
    ensures !ConflictFree(d, Compile([Rule([Ten()], [], ActionPass), Rule([MappedTen()], [], ActionPass)]))
  {
    MappedTenIsParsed();
    TwinsConflict(d, Ten(), MappedTen());
  }

  /** Every compiled filter survives the conversion to a message and back exactly when no rule names port zero. */
  lemma CompiledRoundTrip(rules: seq<Rule>)
    requires KnownActions(rules)
    ensures (forall f :: f in Compile(rules) ==> FilterEquals(FromNl(ToNl(f)), f)) <==> NoZeroPort(rules)
  {
    forall f | f in Compile(rules)
      ensures FilterEquals(FromNl(ToNl(f)), f) <==> f.flower.Some? && f.flower.value.dstPort != Some(0)
    {
      NetlinkRoundTrip(f);
      CompiledIsNamed(rules, f);
    }
    if NoZeroPort(rules) {
      forall f | f in Compile(rules) { PortOfCompiled(rules, f); }
    } else {
      var r :| r in rules && exists port :: port in r.ports && port.number == 0;
      var i :| 0 <= i < |rules| && rules[i] == r;
      var j := NamedPort(r);
      var f := PortIsCompiled(rules, i, j);
    }
  }

  /** Every compiled filter of rules with canonical ranges is printed, listed and built again as an equal one. */
  lemma CompiledIsListedAsAdded(rules: seq<Rule>, f: Filter, pref: u16, handle: u32)
    requires CanonicalRules(rules) && f in Compile(rules) && pref != 0
    ensures var c := Listed(FilterArgs(f), pref, handle);
            c.Some? && c.value.options.Some? && RebuiltEqual(c.value, f)
  {
    CompiledIsNamed(rules, f);
    ListableIsFaithful(CmdLineDriver, rules, f);
    CmdLineRoundTrip(f, pref, handle);
  }

  // ----- what compiled filters do when they come through a driver -----

  /** The same packet to port zero. */
  function ToPortZero(p: Packet): Packet
    requires p.payload.IPPayload?
  {
    p.(payload := p.payload.(dstPort := 0))
  }

  /** Rules reach a packet through a driver; netlink turns port zero into any port. */
  predicate Reached(d: Driver, rules: seq<Rule>, action: PolicyAction, p: Packet)
    requires p.payload.IPPayload?
  {
    SomeRuleMatches(rules, action, p) || (d.NetlinkDriver? && SomeRuleMatches(rules, action, ToPortZero(p)))
  }

  /** The verdict of rules that were installed through a driver. */
  function SentVerdict(d: Driver, rules: seq<Rule>, p: Packet): Verdict {
    if !IsPolicyTraffic(p) then NoHit
    else if Reached(d, rules, ActionDrop, p) then Drop
    else if Reached(d, rules, ActionPass, p) then Pass
    else Drop
  }

  predicate SentMatchesAs(d: Driver, f: Filter, p: Packet) {
    Matches(Sent(d, f), p) <==>
    Matches(f, p) || (d.NetlinkDriver? && p.payload.IPPayload? && Matches(f, ToPortZero(p)))
  }

  /** What netlink makes of a generated filter. */
  function WithoutPortZero(f: Filter): Filter
    requires f.flower.Some?
  {
    if f.flower.value.dstPort == Some(0) then f.(flower := Some(f.flower.value.(dstPort := None))) else f
  }

  lemma SentByNetlink(f: Filter, base: BasePrio, action: ControlAction)
    requires Tiered(f, base, action) && action in {ActPass, ActDrop}
    ensures Sent(NetlinkDriver, f) == WithoutPortZero(f).(attrs := f.attrs.(handle := Some(0)))
  {
    assert Coded(ToNl(f));
    CodedActionsAreKnown(f.actions);
  }

  lemma DroppedPortMatches(f: Filter, p: Packet)
    requires f.flower.Some? && f.flower.value.dstPort == Some(0)
    requires f.flower.value.ipProto.Some? && !f.flower.value.ipProto.value.IPProtoOther?
    ensures Matches(WithoutPortZero(f), p) <==> p.payload.IPPayload? && Matches(f, ToPortZero(p))
    ensures Matches(f, p) ==> Matches(WithoutPortZero(f), p)
  {
  }

  lemma OtherPortsMatch(f: Filter, p: Packet)
    requires f.flower.Some? && f.flower.value.dstPort != Some(0) && p.payload.IPPayload?
    ensures Matches(f, ToPortZero(p)) ==> Matches(f, p)
  {
  }

  lemma SentMatches(d: Driver, f: Filter, base: BasePrio, action: ControlAction, p: Packet)
    requires Tiered(f, base, action) && action in {ActPass, ActDrop}
    ensures SentMatchesAs(d, f, p)
    ensures PrefOf(Sent(d, f)) == PrefOf(f) && FilterVerdict(Sent(d, f)) == FilterVerdict(f)
  {
    if d.NetlinkDriver? {
      var g := WithoutPortZero(f);
      SentByNetlink(f, base, action);
      assert Matches(Sent(d, f), p) <==> Matches(g, p);
      if f.flower.value.dstPort == Some(0) {
        DroppedPortMatches(f, p);
      } else if p.payload.IPPayload? {
        OtherPortsMatch(f, p);
      }
    }
  }

  function SentList(d: Driver, fs: seq<Filter>): seq<Filter> {
    seq(|fs|, i requires 0 <= i < |fs| => Sent(d, fs[i]))
  }

  /** A compiled filter that matches after it was sent means that a rule of its tier reaches the packet. */
  lemma SentOrigin(d: Driver, rules: seq<Rule>, f: Filter, p: Packet)
    requires f in Compile(rules) && Matches(Sent(d, f), p)
    ensures IsPolicyTraffic(p)
    ensures
      var g := Sent(d, f);
      || (PrefOf(g) >= 300 && FilterVerdict(g) == Drop)
      || (100 <= PrefOf(g) < 200 && FilterVerdict(g) == Drop && Reached(d, rules, ActionDrop, p))
      || (200 <= PrefOf(g) < 300 && FilterVerdict(g) == Pass && Reached(d, rules, ActionPass, p))
  {
    var base, action := TierOfCompiled(rules, f);
    SentMatches(d, f, base, action, p);
    var q := if Matches(f, p) then p else ToPortZero(p);
    var k :| 0 <= k < |Compile(rules)| && Compile(rules)[k] == f;
    CompiledHit(rules, q);
    MatchingOrigin(rules, f, q);
  }

  /** A rule that reaches the packet has a filter of its tier that matches after it was sent. */
  lemma ReachedInSent(d: Driver, rules: seq<Rule>, action: PolicyAction, p: Packet) returns (k: nat)
    requires IsPolicyTraffic(p) && Reached(d, rules, action, p) && action in {ActionPass, ActionDrop}
    ensures k < |Compile(rules)| && Matches(SentList(d, Compile(rules))[k], p)
    ensures action == ActionDrop ==> 100 <= PrefOf(SentList(d, Compile(rules))[k]) < 200
    ensures action == ActionPass ==> 200 <= PrefOf(SentList(d, Compile(rules))[k]) < 300
  {
    var q := if SomeRuleMatches(rules, action, p) then p else ToPortZero(p);
    var i :| 0 <= i < |rules| && rules[i].action == action && RuleMatches(rules[i], q);
    k := RuleInCompiled(rules, i, q);
    var f := Compile(rules)[k];
    TierOfRule(f, rules[i]);
    var base, tier := TierOfCompiled(rules, f);
    SentMatches(d, f, base, tier, p);
  }

  lemma DecidingSentIsRight(d: Driver, rules: seq<Rule>, p: Packet, i: int)
    requires Decides(SentList(d, Compile(rules)), i, p)
    ensures FilterVerdict(SentList(d, Compile(rules))[i]) == SentVerdict(d, rules, p)
  {
    SentOrigin(d, rules, Compile(rules)[i], p);
    if Reached(d, rules, ActionDrop, p) {
      var k := ReachedInSent(d, rules, ActionDrop, p);
    } else if Reached(d, rules, ActionPass, p) {
      var k := ReachedInSent(d, rules, ActionPass, p);
    }
  }

  lemma SentHit(d: Driver, rules: seq<Rule>, p: Packet)
    ensures Hit(SentList(d, Compile(rules)), p) <==> IsPolicyTraffic(p)
  {
    var fs := Compile(rules);
    if IsPolicyTraffic(p) {
      CompiledHit(rules, p);
      var k :| 0 <= k < |fs| && Matches(fs[k], p);
      var base, action := TierOfCompiled(rules, fs[k]);
      SentMatches(d, fs[k], base, action, p);
      assert Matches(SentList(d, fs)[k], p);
    } else {
      forall k | 0 <= k < |fs|
        ensures !Matches(SentList(d, fs)[k], p)
      {
        if Matches(Sent(d, fs[k]), p) {
          SentOrigin(d, rules, fs[k], p);
        }
      }
    }
  }

  /** What the compiled list means once it has come through a driver. */
  lemma SentMeaning(d: Driver, rules: seq<Rule>, p: Packet, v: Verdict)
    ensures MayGive(SentList(d, Compile(rules)), p, v) <==> v == SentVerdict(d, rules, p)
  {
    var sent := SentList(d, Compile(rules));
    SentHit(d, rules, p);
    if IsPolicyTraffic(p) {
      var i := SomeFilterDecides(sent, p);
      DecidingSentIsRight(d, rules, p, i);
      forall i | Decides(sent, i, p)
        ensures FilterVerdict(sent[i]) == SentVerdict(d, rules, p)
      {
        DecidingSentIsRight(d, rules, p, i);
      }
    } else {
      forall i
        ensures !Decides(sent, i, p)
      {
      }
    }
  }

  lemma SentKeysAreWireKeys(d: Driver, fs: seq<Filter>)
    ensures SentKeys(d, fs) == WireKeys(SentList(d, fs))
  {
    forall i | 0 <= i < |fs|
      ensures Wire(Sent(d, fs[i])) in WireKeys(SentList(d, fs))
    {
      assert SentList(d, fs)[i] == Sent(d, fs[i]);
    }
  }

  /** Filters that act like the compiled ones sent through the driver give the verdict of the rules as sent. */
  lemma InstalledVerdict(d: Driver, installed: seq<Filter>, rules: seq<Rule>)
    requires WireKeys(installed) == SentKeys(d, Compile(rules))
    ensures forall p, v :: MayGive(installed, p, v) <==> v == SentVerdict(d, rules, p)
  {
    SentKeysAreWireKeys(d, Compile(rules));
    forall p, v
      ensures MayGive(installed, p, v) <==> v == SentVerdict(d, rules, p)
    {
      VerdictDependsOnWireKeysOnly(installed, SentList(d, Compile(rules)), p, v);
      SentMeaning(d, rules, p, v);
    }
  }

  // ----- port zero through netlink -----

  lemma ZeroPortRule(r: Rule, p: Packet)
    requires IsPolicyTraffic(p) && RuleMatches(r, ToPortZero(p)) && !RuleMatches(r, p)
    ensures exists port :: port in r.ports && port.number == 0
  {
    var k :| 0 <= k < |r.ports| && PortMatches(r.ports[k], ToPortZero(p));
    assert r.ports[k] in r.ports;
  }

  lemma ReachedIsMatched(d: Driver, rules: seq<Rule>, action: PolicyAction, p: Packet)
    requires IsPolicyTraffic(p) && (d.NetlinkDriver? ==> NoZeroPort(rules))
    ensures Reached(d, rules, action, p) <==> SomeRuleMatches(rules, action, p)
  {
    forall i | d.NetlinkDriver? && 0 <= i < |rules| && rules[i].action == action && RuleMatches(rules[i], ToPortZero(p))
      ensures SomeRuleMatches(rules, action, p)
    {
      if !RuleMatches(rules[i], p) {
        ZeroPortRule(rules[i], p);
      }
    }
  }

  /** Without a rule for port zero both drivers give the verdict of the rules. */
  lemma SentVerdictIsRight(d: Driver, rules: seq<Rule>, p: Packet)
    requires d.NetlinkDriver? ==> NoZeroPort(rules)
    ensures SentVerdict(d, rules, p) == RulesVerdict(rules, p)
  {
    if IsPolicyTraffic(p) {
      ReachedIsMatched(d, rules, ActionDrop, p);
      ReachedIsMatched(d, rules, ActionPass, p);
    }
  }

  /**
   * Through netlink a packet gets another verdict than the rules give exactly when a Drop rule for port zero takes away
   * what they pass, or a Pass rule for port zero adds what no rule matches.
   */
  lemma NetlinkVerdictIsRightIff(rules: seq<Rule>, p: Packet)
    requires IsPolicyTraffic(p)
    ensures (forall v :: MayGive(SentList(NetlinkDriver, Compile(rules)), p, v) <==> v == RulesVerdict(rules, p)) <==>
            (RulesVerdict(rules, p) == Pass ==> !SomeRuleMatches(rules, ActionDrop, ToPortZero(p))) &&
            (RulesVerdict(rules, ToPortZero(p)) == Pass ==>
               SomeRuleMatches(rules, ActionDrop, p) || SomeRuleMatches(rules, ActionPass, p))
  {
    var sent := SentVerdict(NetlinkDriver, rules, p);
    forall v
      ensures MayGive(SentList(NetlinkDriver, Compile(rules)), p, v) <==> v == sent
    {
      SentMeaning(NetlinkDriver, rules, p, v);
    }
    assert MayGive(SentList(NetlinkDriver, Compile(rules)), p, sent);
  }

  /** Some packet to another port gives a filter for port zero away. */
  lemma ZeroPortFilterLeaks(f: Filter, base: BasePrio, action: ControlAction) returns (p: Packet)
    requires Tiered(f, base, action) && action in {ActPass, ActDrop} && f.flower.value.dstPort == Some(0)
    requires UntaggedFor(f)
    ensures Matches(Sent(NetlinkDriver, f), p) && !Matches(f, p)
  {
    var s := f.flower.value;
    var dst := if s.dstIP.Some? then AsDst(s.dstIP.value.ip) else Dst4(0);
    p := Packet(0, IPPayload(dst, if s.ipProto == Some(IPProtoTCP) then L4TCP else L4UDP, 80));
    if s.dstIP.Some? {
      CoversOwnAddress(s.dstIP.value);
    }
    SentMatches(NetlinkDriver, f, base, action, p);
  }

  /** Each compiled filter acts through netlink as it was compiled exactly when no rule names port zero. */
  lemma FiltersActAsCompiledIff(rules: seq<Rule>)
    requires KnownActions(rules)
    ensures (forall f, p :: f in Compile(rules) ==> (Matches(Sent(NetlinkDriver, f), p) <==> Matches(f, p))) <==>
            NoZeroPort(rules)
  {
    if NoZeroPort(rules) {
      forall f, p | f in Compile(rules)
        ensures Matches(Sent(NetlinkDriver, f), p) <==> Matches(f, p)
      {
        var base, action := TierOfCompiled(rules, f);
        SentMatches(NetlinkDriver, f, base, action, p);
        PortOfCompiled(rules, f);
      }
    } else {
      var r :| r in rules && exists port :: port in r.ports && port.number == 0;
      var i :| 0 <= i < |rules| && rules[i] == r;
      var j := NamedPort(r);
      var f := PortIsCompiled(rules, i, j);
      var base, action := TierOfCompiled(rules, f);
      var p := ZeroPortFilterLeaks(f, base, action);
    }
  }

  /**
   * A Pass rule on its own survives netlink exactly when it lists every port of a protocol that it lists port zero of.
   */
  predicate ZeroPortsSpread(r: Rule) {
    forall i :: 0 <= i < |r.ports| && r.ports[i].number == 0 ==>
      forall n: u16 :: Port(r.ports[i].protocol, n) in r.ports
  }

  lemma PassRuleSurvivesIff(r: Rule)
    requires r.action == ActionPass
    ensures (forall p :: SentVerdict(NetlinkDriver, [r], p) == RulesVerdict([r], p)) <==> ZeroPortsSpread(r)
  {
    if ZeroPortsSpread(r) {
      forall p
        ensures SentVerdict(NetlinkDriver, [r], p) == RulesVerdict([r], p)
      {
        if IsPolicyTraffic(p) && RuleMatches(r, ToPortZero(p)) {
          SpreadRuleMatches(r, p);
          assert RuleMatches([r][0], p);
        }
      }
    } else {
      var i, n := UnlistedPort(r);
      var dst := if r.ipCidrs == [] then Dst4(0) else AsDst(r.ipCidrs[0].ip);
      var p := Packet(0, IPPayload(dst, if r.ports[i].protocol == TCP then L4TCP else L4UDP, n));
      if r.ipCidrs != [] {
        CoversOwnAddress(r.ipCidrs[0]);
      }
      assert PortMatches(r.ports[i], ToPortZero(p));
      assert RuleMatches([r][0], ToPortZero(p));
      forall k | 0 <= k < |r.ports|
        ensures !PortMatches(r.ports[k], p)
      {
        assert r.ports[k] in r.ports;
      }
      assert SentVerdict(NetlinkDriver, [r], p) != RulesVerdict([r], p);
    }
  }

  lemma UnlistedPort(r: Rule) returns (i: nat, n: u16)
    requires !ZeroPortsSpread(r)
    ensures i < |r.ports| && r.ports[i].number == 0 && Port(r.ports[i].protocol, n) !in r.ports
  {
    i :| 0 <= i < |r.ports| && r.ports[i].number == 0 && !forall n: u16 :: Port(r.ports[i].protocol, n) in r.ports;
    n :| Port(r.ports[i].protocol, n) !in r.ports;
  }

  lemma SpreadRuleMatches(r: Rule, p: Packet)
    requires IsPolicyTraffic(p) && ZeroPortsSpread(r) && RuleMatches(r, ToPortZero(p))
    ensures RuleMatches(r, p)
  {
    if r.ports != [] {
      var i :| 0 <= i < |r.ports| && PortMatches(r.ports[i], ToPortZero(p));
      assert Port(r.ports[i].protocol, p.payload.dstPort) in r.ports;
      var k :| 0 <= k < |r.ports| && r.ports[k] == Port(r.ports[i].protocol, p.payload.dstPort);
      assert PortMatches(r.ports[k], p);
    }
  }

  /** A Pass rule for TCP port zero lets TCP traffic to every port through when it is installed by netlink. */
  lemma PortZeroOpensAllPorts(d: Driver, v: Verdict)
    ensures var rules := [Rule([], [Port(TCP, 0)], ActionPass)];
            var p := Packet(0, IPPayload(Dst4(0), L4TCP, 80));
            CanonicalRules(rules) && RulesVerdict(rules, p) == Drop &&
            (MayGive(SentList(d, Compile(rules)), p, v) <==> v == if d.NetlinkDriver? then Pass else Drop)
  {
    var rules := [Rule([], [Port(TCP, 0)], ActionPass)];
    var p := Packet(0, IPPayload(Dst4(0), L4TCP, 80));
    SentMeaning(d, rules, p, v);
    assert PortMatches(rules[0].ports[0], ToPortZero(p));
    assert RuleMatches(rules[0], ToPortZero(p));
  }
}
