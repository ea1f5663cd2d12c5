/** The compiled filters mean what the rules mean. */
module GeneratorMeaning {
  import opened Collections
  import opened Net
  import opened TcTypes
  import opened Classifier
  import opened PolicyRules
  import opened Generator

  // ----- which packets the filters of one rule hit -----

  predicate OptionalPortMatches(port: Option<Port>, p: Packet) {
    port.Some? ==> PortMatches(port.value, p)
  }

  lemma HitList(fs: seq<Filter>, p: Packet)
    ensures |fs| == 1 ==> (Hit(fs, p) <==> Matches(fs[0], p))
    ensures |fs| == 2 ==> (Hit(fs, p) <==> Matches(fs[0], p) || Matches(fs[1], p))
  {
  }

  lemma NetFiltersHit(c: IPNet, port: Option<Port>, base: BasePrio, action: ControlAction, p: Packet)
    ensures Hit(NetFilters(c, port, base, action), p) <==>
            IsPolicyTraffic(p) && Covers(c, p.payload.dst) && OptionalPortMatches(port, p)
  {
    HitList(NetFilters(c, port, base, action), p);
  }

  lemma ProtocolFiltersHit(proto: FilterProtocol, port: Option<Port>, base: BasePrio, action: ControlAction, p: Packet)
    requires proto in ALL_PROTOCOLS
    ensures Hit(ProtocolFilters(proto, port, base, action), p) <==>
            IsPolicyTraffic(p) && ProtocolMatches(proto, p) && OptionalPortMatches(port, p)
  {
    HitList(ProtocolFilters(proto, port, base, action), p);
  }

  lemma AnyNetFiltersHit(port: Option<Port>, base: BasePrio, action: ControlAction, p: Packet)
    ensures Hit(AnyNetFilters(port, base, action), p) <==> IsPolicyTraffic(p) && OptionalPortMatches(port, p)
  {
    var f := PerProtocol(port, base, action);
    HitFlatMap(f, ALL_PROTOCOLS, p);
    ProtocolFiltersHit(ProtoIPv4, port, base, action, p);
    ProtocolFiltersHit(ProtoIPv6, port, base, action, p);
    ProtocolFiltersHit(Proto8021Q, port, base, action, p);
    assert Hit(f(ALL_PROTOCOLS[0]), p) || Hit(f(ALL_PROTOCOLS[1]), p) || Hit(f(ALL_PROTOCOLS[2]), p) <==>
           IsPolicyTraffic(p) && OptionalPortMatches(port, p);
  }

  lemma NetAndPortsHit(c: IPNet, ports: seq<Port>, base: BasePrio, action: ControlAction, p: Packet)
    ensures Hit(PerNetAndPorts(ports, base, action)(c), p) <==>
            IsPolicyTraffic(p) && Covers(c, p.payload.dst) && AnyPortMatches(ports, p)
  {
    HitFlatMap(PerPortOfNet(c, base, action), ports, p);
    forall i | 0 <= i < |ports|
      ensures Hit(PerPortOfNet(c, base, action)(ports[i]), p) <==>
              IsPolicyTraffic(p) && Covers(c, p.payload.dst) && PortMatches(ports[i], p)
    {
      NetFiltersHit(c, Some(ports[i]), base, action, p);
    }
  }

  /** In all four cases the filters hit exactly the packets that the ranges and ports describe. */
  lemma FiltersForHit(ipCidrs: seq<IPNet>, ports: seq<Port>, base: BasePrio, action: ControlAction, p: Packet)
    ensures Hit(FiltersFor(ipCidrs, ports, base, action), p) <==>
            IsPolicyTraffic(p) &&
            (ipCidrs == [] || AnyCovers(ipCidrs, p.payload.dst)) &&
            (ports == [] || AnyPortMatches(ports, p))
  {
    if ipCidrs != [] && ports != [] {
      HitFlatMap(PerNetAndPorts(ports, base, action), ipCidrs, p);
      forall i | 0 <= i < |ipCidrs| { NetAndPortsHit(ipCidrs[i], ports, base, action, p); }
    } else if ipCidrs != [] {
      HitFlatMap(PerNet(base, action), ipCidrs, p);
      forall i | 0 <= i < |ipCidrs|
        ensures Hit(PerNet(base, action)(ipCidrs[i]), p) <==> IsPolicyTraffic(p) && Covers(ipCidrs[i], p.payload.dst)
      {
        NetFiltersHit(ipCidrs[i], None, base, action, p);
      }
    } else if ports != [] {
      HitFlatMap(PerPort(base, action), ports, p);
      forall i | 0 <= i < |ports|
        ensures Hit(PerPort(base, action)(ports[i]), p) <==> IsPolicyTraffic(p) && PortMatches(ports[i], p)
      {
        AnyNetFiltersHit(Some(ports[i]), base, action, p);
      }
    } else {
      AnyNetFiltersHit(None, base, action, p);
    }
  }

  // ----- the tier that the filters of one rule sit in -----

  /**
   * The form of every generated filter: one protocol per preference, one action per tier, a type key exactly behind a
   * tag.
   */
  predicate Tiered(f: Filter, base: BasePrio, action: ControlAction) {
    && f.attrs
      == FilterAttrs(KindFlower, f.attrs.protocol, None, None, Some(PrioFromBaseAndProtocol(base, f.attrs.protocol)))
    && f.attrs.protocol in ALL_PROTOCOLS
    && f.actions == [GenericAction(action)]
    && f.flower.Some?
    && (f.flower.value.vlanEthType.Some? <==> f.attrs.protocol == Proto8021Q)
    && (f.flower.value.vlanEthType.Some? ==> !f.flower.value.vlanEthType.value.VlanOther?)
    && (f.flower.value.ipProto.Some? ==> !f.flower.value.ipProto.value.IPProtoOther?)
    && (f.flower.value.dstPort.Some? <==> f.flower.value.ipProto.Some?)
  }

  predicate NetsFrom(f: Filter, nets: seq<IPNet>) {
    f.flower.Some? && (f.flower.value.dstIP.Some? ==> f.flower.value.dstIP.value in nets)
  }

  predicate PortsFrom(f: Filter, ports: seq<Port>) {
    f.flower.Some? &&
    (f.flower.value.dstPort.Some? ==> exists i :: 0 <= i < |ports| && ports[i].number == f.flower.value.dstPort.value)
  }

  /** A filter in the tier of `base` and `action` whose keys come from the given ranges and ports. */
  predicate MadeFrom(f: Filter, ipCidrs: seq<IPNet>, ports: seq<Port>, base: BasePrio, action: ControlAction) {
    Tiered(f, base, action) && NetsFrom(f, ipCidrs) && PortsFrom(f, ports)
  }

  lemma NetFiltersTiered(c: IPNet, port: Option<Port>, base: BasePrio, action: ControlAction, f: Filter)
    requires f in NetFilters(c, port, base, action)
    ensures Tiered(f, base, action) && f.flower.value.dstIP == Some(c)
    ensures f.flower.value.dstPort == if port.Some? then Some(port.value.number) else None
  {
  }

  lemma ProtocolFiltersTiered(
    proto: FilterProtocol, port: Option<Port>, base: BasePrio, action: ControlAction, f: Filter)
    requires proto in ALL_PROTOCOLS && f in ProtocolFilters(proto, port, base, action)
    ensures Tiered(f, base, action) && f.flower.value.dstIP.None?
    ensures f.flower.value.dstPort == if port.Some? then Some(port.value.number) else None
  {
  }

  lemma AnyNetFiltersTiered(port: Option<Port>, base: BasePrio, action: ControlAction, f: Filter)
    requires f in AnyNetFilters(port, base, action)
    ensures Tiered(f, base, action) && f.flower.value.dstIP.None?
    ensures f.flower.value.dstPort == if port.Some? then Some(port.value.number) else None
  {
    FlatMapMember(PerProtocol(port, base, action), ALL_PROTOCOLS);
    var i :| 0 <= i < |ALL_PROTOCOLS| && f in PerProtocol(port, base, action)(ALL_PROTOCOLS[i]);
    ProtocolFiltersTiered(ALL_PROTOCOLS[i], port, base, action, f);
  }

  lemma FilterMadeFrom(ipCidrs: seq<IPNet>, ports: seq<Port>, base: BasePrio, action: ControlAction, f: Filter)
    requires f in FiltersFor(ipCidrs, ports, base, action)
    ensures MadeFrom(f, ipCidrs, ports, base, action)
  {
    if ipCidrs != [] && ports != [] {
      FlatMapMember(PerNetAndPorts(ports, base, action), ipCidrs);
      var i :| 0 <= i < |ipCidrs| && f in PerNetAndPorts(ports, base, action)(ipCidrs[i]);
      FlatMapMember(PerPortOfNet(ipCidrs[i], base, action), ports);
      var j :| 0 <= j < |ports| && f in PerPortOfNet(ipCidrs[i], base, action)(ports[j]);
      NetFiltersTiered(ipCidrs[i], Some(ports[j]), base, action, f);
    } else if ipCidrs != [] {
      FlatMapMember(PerNet(base, action), ipCidrs);
      var i :| 0 <= i < |ipCidrs| && f in PerNet(base, action)(ipCidrs[i]);
      NetFiltersTiered(ipCidrs[i], None, base, action, f);
    } else if ports != [] {
      FlatMapMember(PerPort(base, action), ports);
      var j :| 0 <= j < |ports| && f in PerPort(base, action)(ports[j]);
      AnyNetFiltersTiered(Some(ports[j]), base, action, f);
    } else {
      AnyNetFiltersTiered(None, base, action, f);
    }
  }

  lemma FiltersForTiered(ipCidrs: seq<IPNet>, ports: seq<Port>, base: BasePrio, action: ControlAction)
    ensures forall f :: f in FiltersFor(ipCidrs, ports, base, action) ==> MadeFrom(f, ipCidrs, ports, base, action)
  {
    forall f | f in FiltersFor(ipCidrs, ports, base, action) {
      FilterMadeFrom(ipCidrs, ports, base, action, f);
    }
  }

  /** Where a compiled filter comes from. */
  ghost predicate FromDefault(f: Filter) {
    f in DefaultFilters() && Tiered(f, BasePrioDefault, ActDrop)
  }

  ghost predicate FromRule(f: Filter, r: Rule) {
    f in RuleFilters(r) &&
    ((r.action == ActionPass && Tiered(f, BasePrioPass, ActPass)) ||
     (r.action == ActionDrop && Tiered(f, BasePrioDrop, ActDrop)))
  }

  lemma CompiledOrigin(rules: seq<Rule>, f: Filter)
    requires f in Compile(rules)
    ensures FromDefault(f) || exists i :: 0 <= i < |rules| && FromRule(f, rules[i])
  {
    if f in DefaultFilters() {
      FiltersForTiered([], [], BasePrioDefault, ActDrop);
    } else {
      FlatMapMember(PerRule(), rules);
      var i :| 0 <= i < |rules| && f in PerRule()(rules[i]);
      FiltersForTiered(rules[i].ipCidrs, rules[i].ports, BasePrioPass, ActPass);
      FiltersForTiered(rules[i].ipCidrs, rules[i].ports, BasePrioDrop, ActDrop);
      assert FromRule(f, rules[i]);
    }
  }

  lemma RuleFiltersHit(r: Rule, p: Packet)
    ensures Hit(RuleFilters(r), p) <==> !r.action.ActionOther? && RuleMatches(r, p)
  {
    FiltersForHit(r.ipCidrs, r.ports, BasePrioPass, ActPass, p);
    FiltersForHit(r.ipCidrs, r.ports, BasePrioDrop, ActDrop, p);
  }

  lemma CompiledHit(rules: seq<Rule>, p: Packet)
    ensures Hit(Compile(rules), p) <==> IsPolicyTraffic(p)
  {
    HitAppend(DefaultFilters(), FlatMap(PerRule(), rules), p);
    FiltersForHit([], [], BasePrioDefault, ActDrop, p);
    HitFlatMap(PerRule(), rules, p);
    forall i | 0 <= i < |rules| { RuleFiltersHit(rules[i], p); }
  }

  /** A rule that matches puts a matching filter of its own tier into the list. */
  lemma RuleInCompiled(rules: seq<Rule>, i: nat, p: Packet) returns (k: nat)
    requires i < |rules| && !rules[i].action.ActionOther? && RuleMatches(rules[i], p)
    ensures k < |Compile(rules)| && Matches(Compile(rules)[k], p) && FromRule(Compile(rules)[k], rules[i])
  {
    RuleFiltersHit(rules[i], p);
    var fs := RuleFilters(rules[i]);
    var j :| 0 <= j < |fs| && Matches(fs[j], p);
    FiltersForTiered(rules[i].ipCidrs, rules[i].ports, BasePrioPass, ActPass);
    FiltersForTiered(rules[i].ipCidrs, rules[i].ports, BasePrioDrop, ActDrop);
    FlatMapMember(PerRule(), rules);
    assert fs[j] in PerRule()(rules[i]);
    assert fs[j] in Compile(rules);
    k :| 0 <= k < |Compile(rules)| && Compile(rules)[k] == fs[j];
  }

  lemma MatchingFilterMeansRule(r: Rule, f: Filter, p: Packet)
    requires FromRule(f, r) && Matches(f, p)
    ensures RuleMatches(r, p)
  {
    var fs := RuleFilters(r);
    var j :| 0 <= j < |fs| && fs[j] == f;
    RuleFiltersHit(r, p);
  }

  /** The tier of a rule's filters, in numbers. */
  lemma TierOfRule(f: Filter, r: Rule)
    requires FromRule(f, r)
    ensures r.action == ActionDrop ==> 100 <= PrefOf(f) < 200 && FilterVerdict(f) == Drop
    ensures r.action == ActionPass ==> 200 <= PrefOf(f) < 300 && FilterVerdict(f) == Pass
  {
  }

  lemma TierOfDefault(f: Filter)
    requires FromDefault(f)
    ensures 300 <= PrefOf(f) && FilterVerdict(f) == Drop
  {
  }

  /**
   * A filter that matches comes from a default drop or from a rule that matches, and sits in the tier of its origin.
   */
  lemma MatchingOrigin(rules: seq<Rule>, f: Filter, p: Packet)
    requires f in Compile(rules) && Matches(f, p)
    ensures
      || (PrefOf(f) >= 300 && FilterVerdict(f) == Drop)
      || (100 <= PrefOf(f) < 200 && FilterVerdict(f) == Drop && SomeRuleMatches(rules, ActionDrop, p))
      || (200 <= PrefOf(f) < 300 && FilterVerdict(f) == Pass && SomeRuleMatches(rules, ActionPass, p))
  {
    CompiledOrigin(rules, f);
    if FromDefault(f) {
      TierOfDefault(f);
    } else {
      var i :| 0 <= i < |rules| && FromRule(f, rules[i]);
      TierOfRule(f, rules[i]);
      MatchingFilterMeansRule(rules[i], f, p);
    }
  }

  /** The filter that decides gives the verdict of the rules. */
  lemma DecidingFilterIsRight(rules: seq<Rule>, p: Packet, d: int)
    requires KnownActions(rules)
    requires Decides(Compile(rules), d, p)
    ensures FilterVerdict(Compile(rules)[d]) == RulesVerdict(rules, p)
  {
    var fs := Compile(rules);
    CompiledHit(rules, p);
    MatchingOrigin(rules, fs[d], p);
    if i :| 0 <= i < |rules| && rules[i].action == ActionDrop && RuleMatches(rules[i], p) {
      var k := RuleInCompiled(rules, i, p);
      TierOfRule(fs[k], rules[i]);
    } else if i :| 0 <= i < |rules| && rules[i].action == ActionPass && RuleMatches(rules[i], p) {
      var k := RuleInCompiled(rules, i, p);
      TierOfRule(fs[k], rules[i]);
    }
  }

  /**
   * Compilation preserves meaning: in every order of trying filters of equal preference, the compiled list gives the
   * rules' verdict and no other. Traffic that is not IP or carries two tags meets no filter.
   */
  lemma CompilePreservesMeaning(rules: seq<Rule>, p: Packet, v: Verdict)
    requires KnownActions(rules)
    ensures MayGive(Compile(rules), p, v) <==> v == RulesVerdict(rules, p)
  {
    var fs := Compile(rules);
    CompiledHit(rules, p);
    if IsPolicyTraffic(p) {
      var d := SomeFilterDecides(fs, p);
      DecidingFilterIsRight(rules, p, d);
      forall i | Decides(fs, i, p)
        ensures FilterVerdict(fs[i]) == RulesVerdict(rules, p)
      {
        DecidingFilterIsRight(rules, p, i);
      }
    } else {
      forall i
        ensures !Decides(fs, i, p)
      {
      }
    }
  }

  /** One 802.1Q tag changes no verdict. */
  lemma TagTransparency(rules: seq<Rule>, payload: Payload, v: Verdict)
    requires KnownActions(rules)
    ensures MayGive(Compile(rules), Packet(0, payload), v) <==> MayGive(Compile(rules), Packet(1, payload), v)
  {
    CompilePreservesMeaning(rules, Packet(0, payload), v);
    CompilePreservesMeaning(rules, Packet(1, payload), v);
    forall i | 0 <= i < |rules|
      ensures RuleMatches(rules[i], Packet(0, payload)) <==> RuleMatches(rules[i], Packet(1, payload))
    {
      RuleIgnoresTag(rules[i], payload);
    }
  }

  lemma RuleIgnoresTag(r: Rule, payload: Payload)
    ensures RuleMatches(r, Packet(0, payload)) <==> RuleMatches(r, Packet(1, payload))
  {
  }

  /** The order and multiplicity of rules is immaterial: policies may be visited in any order. */
  lemma RuleOrderIsImmaterial(a: seq<Rule>, b: seq<Rule>, p: Packet, v: Verdict)
    requires KnownActions(a)
    requires forall r :: r in a <==> r in b
    ensures KnownActions(b)
    ensures MayGive(Compile(a), p, v) <==> MayGive(Compile(b), p, v)
  {
    forall i | 0 <= i < |b|
      ensures !b[i].action.ActionOther?
    {
      assert b[i] in a;
    }
    SameRulesMatch(a, b, p);
    CompilePreservesMeaning(a, p, v);
    CompilePreservesMeaning(b, p, v);
  }

  lemma SameRulesMatch(a: seq<Rule>, b: seq<Rule>, p: Packet)
    requires forall r :: r in a <==> r in b
    ensures RulesVerdict(a, p) == RulesVerdict(b, p)
  {
    forall action
      ensures SomeRuleMatches(a, action, p) <==> SomeRuleMatches(b, action, p)
    {
      if i :| 0 <= i < |a| && a[i].action == action && RuleMatches(a[i], p) {
        assert a[i] in b;
      }
      if i :| 0 <= i < |b| && b[i].action == action && RuleMatches(b[i], p) {
        assert b[i] in a;
      }
    }
  }
}
