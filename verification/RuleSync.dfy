/**
 * The sync of one rule set: every state of the device on the way from one compiled list to another, for all rules, and
 * what the device holds at the end.
 */
module RuleSync {
  import opened Collections
  import opened Net
  import opened TcTypes
  import opened Classifier
  import opened PolicyRules
  import opened Generator
  import opened GeneratorMeaning
  import opened Netlink
  import opened Kernel
  import opened Drivers
  import opened Devices
  import opened Actuators
  import opened Deployment

  // ----- every state on the way from one compiled list to another -----

  /** A new filter that is listed as it was added, and that the kernel held before. */
  predicate Remains(d: Driver, before: seq<Rule>, after: seq<Rule>, h: Filter) {
    h in Compile(after) && Faithful(d, h) && Wire(h) in SentKeys(d, Compile(before))
  }

  /** What the kernel holds throughout. */
  function Staying(d: Driver, before: seq<Rule>, after: seq<Rule>): set<Filter> {
    set h | h in Compile(after) && Remains(d, before, after, h) :: Wire(h)
  }

  ghost predicate Between(d: Driver, state: seq<Filter>, before: seq<Rule>, after: seq<Rule>) {
    Staying(d, before, after) <= WireKeys(state) <= SentKeys(d, Compile(before)) + SentKeys(d, Compile(after))
  }

  ghost predicate AllBetween(d: Driver, states: seq<seq<Filter>>, from: nat, before: seq<Rule>, after: seq<Rule>) {
    forall k :: from <= k < |states| ==> Between(d, states[k], before, after)
  }

  /** What is old and desired is, to the kernel, what stays. */
  lemma KeptIsStaying(d: Driver, was: seq<Filter>, before: seq<Rule>, after: seq<Rule>)
    requires AllFaithful(d, was) && WireKeys(was) == SentKeys(d, Compile(before))
    ensures WireOf(Kept(Keys(was), Compile(after))) == Staying(d, before, after)
  {
    forall c | c in Kept(Keys(was), Compile(after))
      ensures Wire(c) in Staying(d, before, after)
    {
      var h := KeptRemains(d, was, before, after, c);
    }
    forall h | Remains(d, before, after, h)
      ensures Wire(h) in WireOf(Kept(Keys(was), Compile(after)))
    {
      RemainsIsKept(d, was, before, after, h);
      WireRespectsEquals(Canon(h), h);
    }
  }

  lemma KeptRemains(d: Driver, was: seq<Filter>, before: seq<Rule>, after: seq<Rule>, c: Filter) returns (h: Filter)
    requires AllFaithful(d, was) && WireKeys(was) == SentKeys(d, Compile(before))
    requires c in Kept(Keys(was), Compile(after))
    ensures Remains(d, before, after, h) && Wire(h) == Wire(c)
  {
    var fs := Compile(after);
    var i :| 0 <= i < |was| && Canon(was[i]) == c;
    var k :| 0 <= k < |fs| && Canon(fs[k]) == c;
    FaithfulRespectsEquals(d, fs[k], was[i]);
    WireRespectsEquals(fs[k], was[i]);
    WireRespectsEquals(c, fs[k]);
    assert Wire(was[i]) in WireKeys(was);
    h := fs[k];
  }

  lemma RemainsIsKept(d: Driver, was: seq<Filter>, before: seq<Rule>, after: seq<Rule>, h: Filter)
    requires AllFaithful(d, was) && WireKeys(was) == SentKeys(d, Compile(before)) && Remains(d, before, after, h)
    ensures Canon(h) in Kept(Keys(was), Compile(after))
  {
    var k :| 0 <= k < |Compile(after)| && Compile(after)[k] == h;
    assert Wire(h) in WireKeys(was);
    var i :| 0 <= i < |was| && Wire(was[i]) == Wire(h);
    FaithfulByWire(d, was[i], h);
    assert Canon(h) in Keys(Compile(after)) && Canon(was[i]) in Keys(was);
  }

  /** The states of a run between compiled rules, however their ranges are written, are between the two. */
  lemma RunStaysBetween(d: Driver, was: seq<Filter>, state: seq<Filter>, before: seq<Rule>, after: seq<Rule>)
    requires AllFaithful(d, was) && WireKeys(was) == SentKeys(d, Compile(before))
    requires Transitional(d, state, Keys(was), Compile(after))
    ensures Between(d, state, before, after)
  {
    TransitionalBounds(d, state, Keys(was), Compile(after));
    KeptIsStaying(d, was, before, after);
    WireOfKeys(was);
  }

  /** A filter that matches in such a state comes from one of the two lists. */
  lemma StateOrigin(d: Driver, state: seq<Filter>, before: seq<Rule>, after: seq<Rule>, k: nat, p: Packet)
    requires Between(d, state, before, after) && k < |state| && Matches(state[k], p)
    ensures IsPolicyTraffic(p)
    ensures
      || (PrefOf(state[k]) >= 300 && FilterVerdict(state[k]) == Drop)
      || (100 <= PrefOf(state[k]) < 200 && FilterVerdict(state[k]) == Drop &&
          (Reached(d, before, ActionDrop, p) || Reached(d, after, ActionDrop, p)))
      || (200 <= PrefOf(state[k]) < 300 && FilterVerdict(state[k]) == Pass &&
          (Reached(d, before, ActionPass, p) || Reached(d, after, ActionPass, p)))
  {
    assert Wire(state[k]) in WireKeys(state);
    if Wire(state[k]) in SentKeys(d, Compile(before)) {
      OriginByWire(d, before, state[k], p);
    } else {
      OriginByWire(d, after, state[k], p);
    }
  }

  lemma OriginByWire(d: Driver, rules: seq<Rule>, f: Filter, p: Packet)
    requires Wire(f) in SentKeys(d, Compile(rules)) && Matches(f, p)
    ensures IsPolicyTraffic(p)
    ensures
      || (PrefOf(f) >= 300 && FilterVerdict(f) == Drop)
      || (100 <= PrefOf(f) < 200 && FilterVerdict(f) == Drop && Reached(d, rules, ActionDrop, p))
      || (200 <= PrefOf(f) < 300 && FilterVerdict(f) == Pass && Reached(d, rules, ActionPass, p))
  {
    var fs := Compile(rules);
    var k :| 0 <= k < |fs| && Wire(Sent(d, fs[k])) == Wire(f);
    WireMatches(f, p);
    WireMatches(Sent(d, fs[k]), p);
    SentOrigin(d, rules, fs[k], p);
  }

  /** A filter that stays is there. */
  lemma StayingIsThere(d: Driver, state: seq<Filter>, before: seq<Rule>, after: seq<Rule>, h: Filter, p: Packet)
    returns (k: nat)
    requires Staying(d, before, after) <= WireKeys(state)
    requires Remains(d, before, after, h) && Matches(h, p)
    ensures k < |state| && Matches(state[k], p) && PrefOf(state[k]) == PrefOf(h)
    ensures FilterVerdict(state[k]) == FilterVerdict(h)
  {
    assert Wire(h) in Staying(d, before, after);
    k :| 0 <= k < |state| && Wire(state[k]) == Wire(h);
    WireMatches(h, p);
    WireMatches(state[k], p);
  }

  lemma FaithfulIsSent(d: Driver, rules: seq<Rule>, h: Filter)
    requires h in Compile(rules) && Faithful(d, h)
    ensures Wire(Sent(d, h)) == Wire(h) && Wire(h) in SentKeys(d, Compile(rules))
  {
    CompiledIsNamed(rules, h);
    FaithfulIsAccepted(d, h);
    WireRespectsEquals(Sent(d, h), h);
    var k :| 0 <= k < |Compile(rules)| && Compile(rules)[k] == h;
  }

  /** The default drops always stay. */
  lemma DefaultStays(d: Driver, before: seq<Rule>, after: seq<Rule>, f: Filter)
    requires f in DefaultFilters()
    ensures Remains(d, before, after, f)
  {
    var part := PartBehind([], [], BasePrioDefault, ActDrop, f);
    PartFaithful(d, part, BasePrioDefault, ActDrop);
    assert f in Compile(before);
    FaithfulIsSent(d, before, f);
  }

  lemma DefaultIsThere(d: Driver, state: seq<Filter>, before: seq<Rule>, after: seq<Rule>, p: Packet)
    requires Staying(d, before, after) <= WireKeys(state) && IsPolicyTraffic(p)
    ensures Hit(state, p)
  {
    FiltersForHit([], [], BasePrioDefault, ActDrop, p);
    var i :| 0 <= i < |DefaultFilters()| && Matches(DefaultFilters()[i], p);
    DefaultStays(d, before, after, DefaultFilters()[i]);
    var k := StayingIsThere(d, state, before, after, DefaultFilters()[i], p);
  }

  ghost predicate GivesOnly(state: seq<Filter>, p: Packet, v: Verdict) {
    forall w :: MayGive(state, p, w) <==> w == v
  }

  /** A verdict that all deciding filters agree on is the only one. */
  lemma AgreedVerdict(state: seq<Filter>, p: Packet, v: Verdict)
    requires Hit(state, p) && forall i :: Decides(state, i, p) ==> FilterVerdict(state[i]) == v
    ensures GivesOnly(state, p, v)
  {
    var i := SomeFilterDecides(state, p);
  }

  /**
   * No opening on the way, for all rules: traffic that neither the old nor the new rules pass, as they were sent, is
   * dropped in every state between them, also in those that a failed run leaves behind.
   */
  lemma DeniedThroughout(d: Driver, state: seq<Filter>, before: seq<Rule>, after: seq<Rule>, p: Packet)
    requires Between(d, state, before, after) && IsPolicyTraffic(p)
    requires !Reached(d, before, ActionPass, p) && !Reached(d, after, ActionPass, p)
    ensures GivesOnly(state, p, Drop)
  {
    DefaultIsThere(d, state, before, after, p);
    forall i | Decides(state, i, p)
      ensures FilterVerdict(state[i]) == Drop
    {
      StateOrigin(d, state, before, after, i, p);
    }
    AgreedVerdict(state, p, Drop);
  }

  // ----- which rules stay in force on the way -----

  predicate WrittenIn(c: IPNet, cidrs: seq<IPNet>) {
    exists e :: e in cidrs && WireNet(e) == WireNet(c)
  }

  /** The new rule has a canonical range for the packet that the old one has too, or both are for all addresses. */
  predicate RangeStays(s: Rule, r: Rule, p: Packet)
    requires p.payload.IPPayload?
  {
    (s.ipCidrs == [] && r.ipCidrs == []) ||
    exists c :: c in r.ipCidrs && Canonical(c) && Covers(c, p.payload.dst) && WrittenIn(c, s.ipCidrs)
  }

  /** Both rules name the packet's port, or no port; through netlink it must not be port zero. */
  predicate PortStays(d: Driver, s: Rule, r: Rule, p: Packet) {
    (s.ports == [] && r.ports == []) ||
    exists port :: port in r.ports && port in s.ports && PortMatches(port, p) && (d.NetlinkDriver? ==> port.number != 0)
  }

  predicate Stays(d: Driver, s: Rule, r: Rule, p: Packet) {
    IsPolicyTraffic(p) && RangeStays(s, r, p) && PortStays(d, s, r, p)
  }

  /** An old and a new rule with this action have a part in common that stays in force for the packet. */
  predicate SomeStays(d: Driver, before: seq<Rule>, after: seq<Rule>, action: PolicyAction, p: Packet) {
    exists i, j :: 0 <= i < |before| && 0 <= j < |after| && before[i].action == action == after[j].action &&
                   Stays(d, before[i], after[j], p)
  }

  /** The part of two rules that stays, as choices of both. */
  lemma StayingParts(d: Driver, s: Rule, r: Rule, p: Packet) returns (a: Part, b: Part)
    requires Stays(d, s, r, p)
    ensures PartOf(a, s.ipCidrs, s.ports) && PartOf(b, r.ipCidrs, r.ports) && SameInKernel(a, b)
    ensures b.range.Some? ==> Canonical(b.range.value) && Covers(b.range.value, p.payload.dst)
    ensures b.port.Some? ==> PortMatches(b.port.value, p) && (d.NetlinkDriver? ==> b.port.value.number != 0)
    ensures b.family == if p.payload.dst.Dst4? then ProtoIPv4 else ProtoIPv6
    ensures b.tagged <==> p.tags == 1
  {
    var port := None;
    if s.ports != [] || r.ports != [] {
      var q :| q in r.ports && q in s.ports && PortMatches(q, p) && (d.NetlinkDriver? ==> q.number != 0);
      port := Some(q);
    }
    var family := if p.payload.dst.Dst4? then ProtoIPv4 else ProtoIPv6;
    if s.ipCidrs == [] && r.ipCidrs == [] {
      a := Part(family, p.tags == 1, None, port);
      b := a;
    } else {
      var c :| c in r.ipCidrs && Canonical(c) && Covers(c, p.payload.dst) && WrittenIn(c, s.ipCidrs);
      var e :| e in s.ipCidrs && WireNet(e) == WireNet(c);
      a, b := Part(family, p.tags == 1, Some(e), port), Part(family, p.tags == 1, Some(c), port);
      FamilyInKernel(a, b);
    }
  }

  lemma PartMatches(part: Part, base: BasePrio, action: ControlAction, p: Packet)
    requires part.family in {ProtoIPv4, ProtoIPv6}
    requires part.range.Some? ==> part.family == ProtocolOfNet(part.range.value)
    ensures Matches(PartFilter(part, base, action), p) <==>
            IsPolicyTraffic(p) && part.family == (if p.payload.dst.Dst4? then ProtoIPv4 else ProtoIPv6) &&
            (part.tagged <==> p.tags == 1) && (part.range.Some? ==> Covers(part.range.value, p.payload.dst)) &&
            (part.port.Some? ==> PortMatches(part.port.value, p))
  {
  }

  /** The kernel cannot tell parts apart that are the same to it. */
  lemma PartsByWire(a: Part, b: Part, base: BasePrio, action: ControlAction)
    requires SameInKernel(a, b)
    ensures Wire(PartFilter(a, base, action)) == Wire(PartFilter(b, base, action))
  {
  }

  /** Rules that stay in force for a packet have a filter that stays and matches it. */
  lemma StayingFilter(d: Driver, before: seq<Rule>, after: seq<Rule>, action: PolicyAction, p: Packet)
    returns (h: Filter)
    requires SomeStays(d, before, after, action, p) && !action.ActionOther?
    ensures Remains(d, before, after, h) && Matches(h, p)
    ensures action == ActionDrop ==> 100 <= PrefOf(h) < 200 && FilterVerdict(h) == Drop
    ensures action == ActionPass ==> 200 <= PrefOf(h) < 300 && FilterVerdict(h) == Pass
  {
    var i, j :| 0 <= i < |before| && 0 <= j < |after| && before[i].action == action == after[j].action &&
      Stays(d, before[i], after[j], p);
    var a, b := StayingParts(d, before[i], after[j], p);
    h := RuleFilter(after[j], b);
    PartMatches(b, RuleBase(after[j]), RuleAct(after[j]), p);
    PartRemains(d, before, i, a, after, j, b);
  }

  lemma PartRemains(d: Driver, before: seq<Rule>, i: nat, a: Part, after: seq<Rule>, j: nat, b: Part)
    requires i < |before| && PartOf(a, before[i].ipCidrs, before[i].ports)
    requires j < |after| && PartOf(b, after[j].ipCidrs, after[j].ports) && SameInKernel(a, b)
    requires before[i].action == after[j].action && !after[j].action.ActionOther?
    requires b.range.Some? ==> Canonical(b.range.value)
    requires d.NetlinkDriver? && b.port.Some? ==> b.port.value.number != 0
    ensures Remains(d, before, after, RuleFilter(after[j], b))
  {
    PartIsCompiled(after, j, b);
    PartFaithful(d, b, RuleBase(after[j]), RuleAct(after[j]));
    PartIsCompiled(before, i, a);
    PartsByWire(a, b, RuleBase(after[j]), RuleAct(after[j]));
    PartIsSent(d, before, RuleFilter(before[i], a), RuleFilter(after[j], b));
  }

  /** A filter that the kernel would keep as a faithful one is sent as that one. */
  lemma PartIsSent(d: Driver, rules: seq<Rule>, g: Filter, h: Filter)
    requires g in Compile(rules) && Faithful(d, h) && Wire(g) == Wire(h)
    ensures Wire(h) in SentKeys(d, Compile(rules))
  {
    var base, action := TierOfCompiled(rules, g);
    var k :| 0 <= k < |Compile(rules)| && Compile(rules)[k] == g;
    assert g.flower.value.dstPort == WireSpec(g.flower).dstPort == WireSpec(h.flower).dstPort;
    if d.NetlinkDriver? {
      SentByNetlink(g, base, action);
    }
    assert Wire(Sent(d, g)) == Wire(g);
  }

  /** A filter of a rule that stays and matches means that rules stay in force for the packet. */
  lemma StayingMeansRules(d: Driver, before: seq<Rule>, after: seq<Rule>, h: Filter, p: Packet)
    requires Remains(d, before, after, h) && Matches(h, p)
    ensures
      || (PrefOf(h) >= 300 && FilterVerdict(h) == Drop)
      || (100 <= PrefOf(h) < 200 && FilterVerdict(h) == Drop && SomeStays(d, before, after, ActionDrop, p))
      || (200 <= PrefOf(h) < 300 && FilterVerdict(h) == Pass && SomeStays(d, before, after, ActionPass, p))
  {
    var j, b := CompiledPart(after, h);
    if j != -1 {
      var i, a := SentPart(d, before, after, h, j, b);
      PartMatches(b, RuleBase(after[j]), RuleAct(after[j]), p);
      PartFaithful(d, b, RuleBase(after[j]), RuleAct(after[j]));
      PartsStay(d, before[i], after[j], a, b, p);
    }
  }

  /** The old rule and the choice behind a filter that remains. */
  lemma SentPart(d: Driver, before: seq<Rule>, after: seq<Rule>, h: Filter, j: nat, b: Part) returns (i: nat, a: Part)
    requires Remains(d, before, after, h) && j < |after| && !after[j].action.ActionOther?
    requires PartOf(b, after[j].ipCidrs, after[j].ports) && h == RuleFilter(after[j], b)
    ensures i < |before| && before[i].action == after[j].action
    ensures PartOf(a, before[i].ipCidrs, before[i].ports) && SameInKernel(a, b)
  {
    var fs := Compile(before);
    var k :| 0 <= k < |fs| && Wire(Sent(d, fs[k])) == Wire(h);
    CompiledIsNamed(after, h);
    WireClash(d, fs[k], h);
    i, a := ClashingPart(d, before, fs[k], b, RuleBase(after[j]), RuleAct(after[j]));
  }

  lemma ClashingPart(d: Driver, rules: seq<Rule>, f: Filter, b: Part, base: BasePrio, action: ControlAction)
    returns (i: nat, a: Part)
    requires f in Compile(rules) && b.family in {ProtoIPv4, ProtoIPv6} && action in {ActPass, ActDrop}
    requires base != BasePrioDefault && Clash(Sent(d, f), Sent(d, PartFilter(b, base, action)))
    ensures i < |rules| && RuleBase(rules[i]) == base && !rules[i].action.ActionOther?
    ensures PartOf(a, rules[i].ipCidrs, rules[i].ports) && SameInKernel(a, b)
  {
    var m;
    m, a := CompiledPart(rules, f);
    if m == -1 {
      SentPartsClash(d, a, BasePrioDefault, ActDrop, b, base, action);
      assert false;
    } else {
      SentPartsClash(d, a, RuleBase(rules[m]), RuleAct(rules[m]), b, base, action);
      i := m;
    }
  }

  /** A faithful filter that the kernel takes for a sent one clashes with it. */
  lemma WireClash(d: Driver, f: Filter, h: Filter)
    requires Faithful(d, h) && Named(h) && Wire(Sent(d, f)) == Wire(h)
    ensures Clash(Sent(d, f), Sent(d, h))
  {
    FaithfulIsAccepted(d, h);
    WireRespectsEquals(Sent(d, h), h);
    ClashByWire(Sent(d, f), h, Sent(d, h), h);
  }

  lemma PartsStay(d: Driver, s: Rule, r: Rule, a: Part, b: Part, p: Packet)
    requires PartOf(a, s.ipCidrs, s.ports) && PartOf(b, r.ipCidrs, r.ports) && SameInKernel(a, b) && IsPolicyTraffic(p)
    requires b.range.Some? ==> Canonical(b.range.value) && Covers(b.range.value, p.payload.dst)
    requires b.port.Some? ==> PortMatches(b.port.value, p) && (d.NetlinkDriver? ==> b.port.value.number != 0)
    ensures Stays(d, s, r, p)
  {
    if b.range.Some? {
      assert a.range.value in s.ipCidrs && WireNet(a.range.value) == WireNet(b.range.value);
      assert WrittenIn(b.range.value, s.ipCidrs);
    }
    if b.port.Some? {
      assert b.port.value in r.ports && b.port.value in s.ports;
    }
  }

  /**
   * The verdict of the state in the middle of a run, when all that goes has gone and nothing has come: that of the
   * rules that stay.
   */
  lemma MiddleVerdict(d: Driver, state: seq<Filter>, before: seq<Rule>, after: seq<Rule>, p: Packet)
    requires WireKeys(state) == Staying(d, before, after) && IsPolicyTraffic(p)
    ensures GivesOnly(state, p, if SomeStays(d, before, after, ActionDrop, p) then Drop
                                else if SomeStays(d, before, after, ActionPass, p) then Pass else Drop)
  {
    var v := if SomeStays(d, before, after, ActionDrop, p) then Drop
             else if SomeStays(d, before, after, ActionPass, p) then Pass else Drop;
    DefaultIsThere(d, state, before, after, p);
    forall i | Decides(state, i, p)
      ensures FilterVerdict(state[i]) == v
    {
      MiddleDecision(d, state, before, after, p, i);
    }
    AgreedVerdict(state, p, v);
  }

  lemma MiddleDecision(d: Driver, state: seq<Filter>, before: seq<Rule>, after: seq<Rule>, p: Packet, i: int)
    requires WireKeys(state) == Staying(d, before, after) && Decides(state, i, p)
    ensures FilterVerdict(state[i]) == if SomeStays(d, before, after, ActionDrop, p) then Drop
                                       else if SomeStays(d, before, after, ActionPass, p) then Pass else Drop
  {
    assert Wire(state[i]) in WireKeys(state);
    var h :| Remains(d, before, after, h) && Wire(h) == Wire(state[i]);
    WireMatches(h, p);
    WireMatches(state[i], p);
    StayingMeansRules(d, before, after, h, p);
    if SomeStays(d, before, after, ActionDrop, p) {
      var g := StayingFilter(d, before, after, ActionDrop, p);
      var k := StayingIsThere(d, state, before, after, g, p);
    } else if SomeStays(d, before, after, ActionPass, p) {
      var g := StayingFilter(d, before, after, ActionPass, p);
      var k := StayingIsThere(d, state, before, after, g, p);
    }
  }

  function MiddleState(d: Driver, before: seq<Rule>, after: seq<Rule>): seq<Filter> {
    Select((h: Filter) => Remains(d, before, after, h), Compile(after))
  }

  lemma MiddleIsBetween(d: Driver, before: seq<Rule>, after: seq<Rule>)
    ensures WireKeys(MiddleState(d, before, after)) == Staying(d, before, after)
    ensures Between(d, MiddleState(d, before, after), before, after)
  {
    var keep := (h: Filter) => Remains(d, before, after, h);
    var state := MiddleState(d, before, after);
    SelectMember(keep, Compile(after));
    forall i | 0 <= i < |state|
      ensures Wire(state[i]) in Staying(d, before, after)
    {
      assert state[i] in state;
    }
    forall h | h in Compile(after) && keep(h)
      ensures Wire(h) in WireKeys(state)
    {
      assert h in state;
    }
  }

  /** Rules that stay in force for a packet have their way in every state. */
  lemma StayingPasses(d: Driver, state: seq<Filter>, before: seq<Rule>, after: seq<Rule>, p: Packet)
    requires Between(d, state, before, after) && SomeStays(d, before, after, ActionPass, p)
    requires !Reached(d, before, ActionDrop, p) && !Reached(d, after, ActionDrop, p)
    ensures GivesOnly(state, p, Pass)
  {
    var h := StayingFilter(d, before, after, ActionPass, p);
    var k := StayingIsThere(d, state, before, after, h, p);
    forall i | Decides(state, i, p)
      ensures FilterVerdict(state[i]) == Pass
    {
      StateOrigin(d, state, before, after, i, p);
    }
    AgreedVerdict(state, p, Pass);
  }

  /** Traffic that a Drop rule stays in force for is dropped in every state, whatever else the rules say. */
  lemma DroppedThroughout(d: Driver, state: seq<Filter>, before: seq<Rule>, after: seq<Rule>, p: Packet)
    requires Between(d, state, before, after) && SomeStays(d, before, after, ActionDrop, p)
    ensures GivesOnly(state, p, Drop)
  {
    var h := StayingFilter(d, before, after, ActionDrop, p);
    var k := StayingIsThere(d, state, before, after, h, p);
    forall i | Decides(state, i, p)
      ensures FilterVerdict(state[i]) == Drop
    {
      StateOrigin(d, state, before, after, i, p);
    }
    AgreedVerdict(state, p, Drop);
  }

  /**
   * No interruption on the way: traffic that no Drop rule reaches goes through in every state between the old and the
   * new rules exactly when a Pass rule of both has a part for it that stays in force.
   */
  lemma AllowedThroughoutIff(d: Driver, before: seq<Rule>, after: seq<Rule>, p: Packet)
    requires IsPolicyTraffic(p) && !Reached(d, before, ActionDrop, p) && !Reached(d, after, ActionDrop, p)
    ensures (forall state :: Between(d, state, before, after) ==> GivesOnly(state, p, Pass)) <==>
            SomeStays(d, before, after, ActionPass, p)
  {
    if SomeStays(d, before, after, ActionPass, p) {
      forall state | Between(d, state, before, after)
        ensures GivesOnly(state, p, Pass)
      {
        StayingPasses(d, state, before, after, p);
      }
    } else {
      NoDropStays(d, before, after, p);
      MiddleDisagrees(d, before, after, p, Pass, Drop);
    }
  }

  /** Where a Pass rule stays in force, an exception holds in every state exactly when it stays in force itself. */
  lemma DroppedThroughoutIff(d: Driver, before: seq<Rule>, after: seq<Rule>, p: Packet)
    requires SomeStays(d, before, after, ActionPass, p)
    ensures (forall state :: Between(d, state, before, after) ==> GivesOnly(state, p, Drop)) <==>
            SomeStays(d, before, after, ActionDrop, p)
  {
    if SomeStays(d, before, after, ActionDrop, p) {
      forall state | Between(d, state, before, after)
        ensures GivesOnly(state, p, Drop)
      {
        DroppedThroughout(d, state, before, after, p);
      }
    } else {
      MiddleDisagrees(d, before, after, p, Drop, Pass);
    }
  }

  lemma MiddleDisagrees(d: Driver, before: seq<Rule>, after: seq<Rule>, p: Packet, wanted: Verdict, given: Verdict)
    requires IsPolicyTraffic(p) && !SomeStays(d, before, after, ActionDrop, p) && wanted != given
    requires given == if SomeStays(d, before, after, ActionPass, p) then Pass else Drop
    ensures !forall state :: Between(d, state, before, after) ==> GivesOnly(state, p, wanted)
  {
    var state := MiddleState(d, before, after);
    MiddleIsBetween(d, before, after);
    MiddleVerdict(d, state, before, after, p);
    assert MayGive(state, p, given);
  }

  lemma NoDropStays(d: Driver, before: seq<Rule>, after: seq<Rule>, p: Packet)
    requires IsPolicyTraffic(p) && !Reached(d, after, ActionDrop, p)
    ensures !SomeStays(d, before, after, ActionDrop, p)
  {
    if SomeStays(d, before, after, ActionDrop, p) {
      var i, j :| 0 <= i < |before| && 0 <= j < |after| && before[i].action == ActionDrop == after[j].action &&
        Stays(d, before[i], after[j], p);
      StaysMatches(d, before[i], after[j], p);
    }
  }

  lemma StaysMatches(d: Driver, s: Rule, r: Rule, p: Packet)
    requires Stays(d, s, r, p)
    ensures RuleMatches(r, p)
  {
    var a, b := StayingParts(d, s, r, p);
    if b.range.Some? {
      var k :| 0 <= k < |r.ipCidrs| && r.ipCidrs[k] == b.range.value;
    }
    if b.port.Some? {
      var k :| 0 <= k < |r.ports| && r.ports[k] == b.port.value;
    }
  }

  /** A rule of both lists that matches stays in force if its ranges are canonical and it names no port zero. */
  lemma CommonRuleStays(d: Driver, before: seq<Rule>, after: seq<Rule>, r: Rule, p: Packet)
    requires r in before && r in after && RuleMatches(r, p) && Listable(d, [r])
    ensures SomeStays(d, before, after, r.action, p)
  {
    assert [r][0] in [r] && CanonicalRule(r);
    if r.ipCidrs != [] {
      var k :| 0 <= k < |r.ipCidrs| && Covers(r.ipCidrs[k], p.payload.dst);
      assert r.ipCidrs[k] in r.ipCidrs && WrittenIn(r.ipCidrs[k], r.ipCidrs);
    }
    if r.ports != [] {
      var k :| 0 <= k < |r.ports| && PortMatches(r.ports[k], p);
      assert r.ports[k] in r.ports;
    }
    var i :| 0 <= i < |before| && before[i] == r;
    var j :| 0 <= j < |after| && after[j] == r;
    assert Stays(d, before[i], after[j], p);
  }

  /** Traffic that a common Pass rule matches and no Drop rule reaches goes through in every state of the change. */
  lemma AllowedThroughout(d: Driver, state: seq<Filter>, before: seq<Rule>, after: seq<Rule>, r: Rule, p: Packet)
    requires Between(d, state, before, after)
    requires r in before && r in after && r.action == ActionPass && RuleMatches(r, p) && Listable(d, [r])
    requires !Reached(d, before, ActionDrop, p) && !Reached(d, after, ActionDrop, p)
    ensures GivesOnly(state, p, Pass)
  {
    CommonRuleStays(d, before, after, r, p);
    StayingPasses(d, state, before, after, p);
  }

  // ----- passes over rules that are not listed as they were added -----

  /** One of the states holds just what stays. */
  ghost predicate PassesMiddle(d: Driver, states: seq<seq<Filter>>, from: nat, before: seq<Rule>, after: seq<Rule>) {
    exists k :: from <= k < |states| && WireKeys(states[k]) == Staying(d, before, after)
  }

  lemma RunPassesMiddle(d: Driver, was: seq<Filter>, states: seq<seq<Filter>>, from: nat, before: seq<Rule>,
                        after: seq<Rule>)
    requires AllFaithful(d, was) && WireKeys(was) == SentKeys(d, Compile(before))
    requires PassesKept(states, from, Keys(was), Compile(after))
    ensures PassesMiddle(d, states, from, before, after)
  {
    var k :| from <= k < |states| && Keys(states[k]) == Kept(Keys(was), Compile(after));
    WireOfKeys(states[k]);
    KeptIsStaying(d, was, before, after);
  }

  /** If desired filters are not listed as they were added, some listed filter is not desired. */
  lemma UnlistedIsUndesired(d: Driver, was: seq<Filter>, fs: seq<Filter>)
    requires AllFaithful(d, was) && WireKeys(was) == SentKeys(d, fs)
    requires AllPlaced(fs) && ConflictFree(d, fs) && !AllFaithful(d, fs)
    ensures !(Keys(was) <= Keys(fs))
  {
    var k :| 0 <= k < |fs| && !Faithful(d, fs[k]);
    assert Wire(Sent(d, fs[k])) in WireKeys(was);
    var i :| 0 <= i < |was| && Wire(was[i]) == Wire(Sent(d, fs[k]));
    assert Canon(was[i]) in Keys(was);
    if Canon(was[i]) in Keys(fs) {
      var m :| 0 <= m < |fs| && Canon(fs[m]) == Canon(was[i]);
      ListedIsSent(d, fs[m], was[i]);
      ClashByWire(Sent(d, fs[k]), Sent(d, fs[m]), Sent(d, fs[m]), Sent(d, fs[m]));
      assert Canon(fs[k]) == Canon(fs[m]);
      FaithfulRespectsEquals(d, fs[k], fs[m]);
      assert false;
    }
  }

  lemma RangeRuleMatches(c: IPNet, action: PolicyAction, p: Packet)
    requires IsPolicyTraffic(p) && Covers(c, p.payload.dst)
    ensures RuleMatches(Rule([c], [], action), p)
  {
    assert [c][0] == c;
  }

  lemma LapsedRule(d: Driver, r: Rule, e: IPNet, p: Packet)
    requires !Canonical(e) && r.ipCidrs == [e]
    ensures !Stays(d, r, r, p)
  {
  }

  /** An exception that is not canonical does not hold in the middle of a pass over the same rules. */
  lemma ExceptionLapses(d: Driver, state: seq<Filter>, c: IPNet, e: IPNet, p: Packet)
    requires Canonical(c) && !Canonical(e) && IsPolicyTraffic(p)
    requires Covers(c, p.payload.dst) && Covers(e, p.payload.dst)
    requires var rules := [Rule([c], [], ActionPass), Rule([e], [], ActionDrop)];
             WireKeys(state) == Staying(d, rules, rules)
    ensures RulesVerdict([Rule([c], [], ActionPass), Rule([e], [], ActionDrop)], p) == Drop && GivesOnly(state, p, Pass)
  {
    var rules := [Rule([c], [], ActionPass), Rule([e], [], ActionDrop)];
    RangeRuleMatches(c, ActionPass, p);
    RangeRuleMatches(e, ActionDrop, p);
    assert rules[1].action == ActionDrop && RuleMatches(rules[1], p);
    CommonRuleStays(d, rules, rules, rules[0], p);
    LapsedRule(d, rules[1], e, p);
    MiddleVerdict(d, state, rules, rules, p);
  }

  /** A Pass rule with a range that is not canonical does not hold there either. */
  lemma PassLapses(d: Driver, state: seq<Filter>, e: IPNet, p: Packet)
    requires !Canonical(e) && IsPolicyTraffic(p) && Covers(e, p.payload.dst)
    requires var rules := [Rule([e], [], ActionPass)]; WireKeys(state) == Staying(d, rules, rules)
    ensures RulesVerdict([Rule([e], [], ActionPass)], p) == Pass && GivesOnly(state, p, Drop)
  {
    var rules := [Rule([e], [], ActionPass)];
    RangeRuleMatches(e, ActionPass, p);
    LapsedRule(d, rules[0], e, p);
    assert rules[0].action == ActionPass && RuleMatches(rules[0], p);
    MiddleVerdict(d, state, rules, rules, p);
  }

  /** The range ::ffff:10.1.0.0/112 and a packet to an address of it. */
  function MappedException(): IPNet {
    IPNet(Bytes16(0xffff_0a01_0000), Mask(112, 128))
  }

  function ExceptedPacket(): Packet {
    Packet(0, IPPayload(Dst4(0x0a01_0001), L4TCP, 80))
  }

  lemma MappedExceptionIsParsed()
    ensures ParseCIDR(Bytes16(0xffff_0a01_0000), 112) == Some(MappedException()) && !Canonical(MappedException())
    ensures Covers(MappedException(), ExceptedPacket().payload.dst)
  {
    Pow2Bytes();
    MappedIsParsed(0xffff_0a01_0000, 112, 0x0a01_0001);
  }

  lemma TenCoversExcepted()
    ensures Covers(Ten(), ExceptedPacket().payload.dst) && Covers(MappedTen(), ExceptedPacket().payload.dst)
  {
    var dst := ExceptedPacket().payload.dst;
    Pow2Bytes();
    MappedTenIsParsed();
    MappedIsParsed(0xffff_0a00_0000, 104, dst.d4);
    WireCovers(MappedTen(), dst);
    WireCovers(Ten(), dst);
  }

  /**
   * In the middle of every further pass, the exception ::ffff:10.1.0.0/112 of 10.0.0.0/8 lets excepted traffic through,
   * and a Pass rule for ::ffff:10.0.0.0/104 drops what it allows.
   */
  lemma MappedRangesLapse(d: Driver, state: seq<Filter>)
    ensures ParseCIDR(Bytes16(0xffff_0a01_0000), 112) == Some(MappedException())
    ensures var rules := [Rule([Ten()], [], ActionPass), Rule([MappedException()], [], ActionDrop)];
            WireKeys(state) == Staying(d, rules, rules) ==>
              RulesVerdict(rules, ExceptedPacket()) == Drop && GivesOnly(state, ExceptedPacket(), Pass)
    ensures var rules := [Rule([MappedTen()], [], ActionPass)];
            WireKeys(state) == Staying(d, rules, rules) ==>
              RulesVerdict(rules, ExceptedPacket()) == Pass && GivesOnly(state, ExceptedPacket(), Drop)
  {
    MappedExceptionIsParsed();
    MappedTenIsParsed();
    TenCoversExcepted();
    var c, m, e, p := Ten(), MappedTen(), MappedException(), ExceptedPacket();
    var excepting := [Rule([c], [], ActionPass), Rule([e], [], ActionDrop)];
    var passing := [Rule([m], [], ActionPass)];
    if WireKeys(state) == Staying(d, excepting, excepting) {
      ExceptionLapses(d, state, c, e, p);
    }
    if WireKeys(state) == Staying(d, passing, passing) {
      PassLapses(d, state, m, p);
    }
  }

  // ----- isolation from a blank device -----

  lemma DefaultsComeFirst(rules: seq<Rule>)
    ensures |DefaultFilters()| == 4 && Compile(rules)[..4] == DefaultFilters()
  {
    var f := PerProtocol(None, BasePrioDefault, ActDrop);
    FlatMapStep(f, ALL_PROTOCOLS, 0);
    FlatMapStep(f, ALL_PROTOCOLS, 1);
    FlatMapStep(f, ALL_PROTOCOLS, 2);
    FlatMapAll(f, ALL_PROTOCOLS);
  }

  lemma DefaultsDrop(rules: seq<Rule>, m: nat)
    requires m < |Compile(rules)| && FilterVerdict(Compile(rules)[m]) == Pass
    ensures m >= 4
  {
    DefaultsComeFirst(rules);
    if m < 4 {
      var f := DefaultFilters()[m];
      assert f == Compile(rules)[..4][m];
      FilterMadeFrom([], [], BasePrioDefault, ActDrop, f);
    }
  }

  ghost predicate Guarded(state: seq<Filter>) {
    (exists k :: 0 <= k < |state| && FilterVerdict(state[k]) == Pass) ==> WireKeys(DefaultFilters()) <= WireKeys(state)
  }

  /** On a blank device the default drops are complete before the first Pass filter appears, for all rules. */
  lemma DefaultsBeforePass(d: Driver, state: seq<Filter>, rules: seq<Rule>)
    requires Transitional(d, state, {}, Compile(rules))
    ensures Guarded(state)
  {
    if k :| 0 <= k < |state| && FilterVerdict(state[k]) == Pass {
      assert Canon(state[k]) in Keys(state) && Wire(state[k]) in WireKeys(state);
      AddedToBlank(d, state, Compile(rules));
      var n :| 0 <= n <= |Compile(rules)| && WireKeys(state) == SentKeys(d, Compile(rules)[..n]);
      PassAmongSent(d, rules, n, state[k]);
      DefaultsAreSent(d, rules, n);
    }
  }

  lemma AddedToBlank(d: Driver, state: seq<Filter>, fs: seq<Filter>)
    requires Transitional(d, state, {}, fs) && Keys(state) != {}
    ensures exists n :: 0 <= n <= |fs| && WireKeys(state) == SentKeys(d, fs[..n])
  {
    assert WireOf(Kept({}, fs)) == {};
  }

  lemma PassAmongSent(d: Driver, rules: seq<Rule>, n: nat, g: Filter)
    requires n <= |Compile(rules)| && Wire(g) in SentKeys(d, Compile(rules)[..n]) && FilterVerdict(g) == Pass
    ensures n > 4
  {
    var m :| 0 <= m < n && Wire(Sent(d, Compile(rules)[..n][m])) == Wire(g);
    assert Compile(rules)[..n][m] == Compile(rules)[m];
    PassIsSent(d, rules, m, g);
  }

  lemma DefaultsAreSent(d: Driver, rules: seq<Rule>, n: nat)
    requires 4 <= n <= |Compile(rules)|
    ensures WireKeys(DefaultFilters()) <= SentKeys(d, Compile(rules)[..n])
  {
    DefaultsComeFirst(rules);
    forall i | 0 <= i < |DefaultFilters()|
      ensures Wire(DefaultFilters()[i]) in SentKeys(d, Compile(rules)[..n])
    {
      var f := DefaultFilters()[i];
      assert Compile(rules)[..4][i] == Compile(rules)[..n][i] == f;
      DefaultStays(d, rules, rules, f);
      FaithfulIsSent(d, rules, f);
    }
  }

  lemma PassIsSent(d: Driver, rules: seq<Rule>, m: nat, g: Filter)
    requires m < |Compile(rules)| && Wire(Sent(d, Compile(rules)[m])) == Wire(g) && FilterVerdict(g) == Pass
    ensures m >= 4
  {
    var f := Compile(rules)[m];
    var base, action := TierOfCompiled(rules, f);
    var p := Packet(0, OtherPayload);
    SentMatches(d, f, base, action, p);
    WireMatches(Sent(d, f), p);
    WireMatches(g, p);
    DefaultsDrop(rules, m);
  }

  // ----- one rule set on one device -----

  datatype Outcome = Applied | NotGenerated(reason: GeneratorError) | NotActuated(error: TCError)

  lemma CompiledArePlaced(rules: seq<Rule>)
    ensures AllPlaced(Compile(rules)) && Compile(rules) != []
  {
    DefaultsComeFirst(rules);
    forall i | 0 <= i < |Compile(rules)|
      ensures Given(Compile(rules)[i].attrs.priority) && Named(Compile(rules)[i])
    {
      CompiledIsNamed(rules, Compile(rules)[i]);
    }
  }

  /** From what any rules have left on the device, the states of the run are between those rules and the new ones. */
  ghost predicate BetweenAny(d: Driver, was: seq<Filter>, states: seq<seq<Filter>>, from: nat, after: seq<Rule>) {
    forall before :: WireKeys(was) == SentKeys(d, Compile(before)) ==> AllBetween(d, states, from, before, after)
  }

  ghost predicate AllGuarded(states: seq<seq<Filter>>, from: nat) {
    forall k :: from <= k < |states| ==> Guarded(states[k])
  }

  lemma OnTheWay(d: Driver, was: seq<Filter>, states: seq<seq<Filter>>, from: nat, after: seq<Rule>)
    requires AllFaithful(d, was) && AllTransitional(d, states, from, Keys(was), Compile(after))
    ensures BetweenAny(d, was, states, from, after)
    ensures was == [] ==> AllGuarded(states, from)
  {
    forall before, k | WireKeys(was) == SentKeys(d, Compile(before)) && from <= k < |states|
      ensures Between(d, states[k], before, after)
    {
      RunStaysBetween(d, was, states[k], before, after);
    }
    if was == [] {
      forall k | from <= k < |states|
        ensures Guarded(states[k])
      {
        DefaultsBeforePass(d, states[k], after);
      }
    }
  }

  /** Compiles a rule set and installs it: what the sync loop does for each interface of a pod. */
  method SyncRuleSet(ruleSet: PolicyRuleSet, actuator: ActuatorTC) returns (outcome: Outcome)
    requires actuator.tcAPI.Valid()
    modifies actuator.tcAPI
    ensures actuator.tcAPI.Valid() && old(actuator.tcAPI.history) <= actuator.tcAPI.history
    // the verdict is that of the rules as sent, for all rules
    ensures outcome == Applied && ruleSet.rules.Some? ==>
              forall p, v :: actuator.tcAPI.Gives(p, v) <==>
                             v == SentVerdict(actuator.tcAPI.driver, ruleSet.rules.value, p)
    // and that of the rules, unless netlink meets port zero
    ensures outcome == Applied && ruleSet.rules.Some? ==>
              (actuator.tcAPI.driver.NetlinkDriver? ==> NoZeroPort(ruleSet.rules.value)) ==>
              forall p, v :: actuator.tcAPI.Gives(p, v) <==> v == RulesVerdict(ruleSet.rules.value, p)
    // the next sync finds what it wants exactly for rules that can be listed
    ensures outcome == Applied && ruleSet.rules.Some? ==>
              (Keys(actuator.tcAPI.filters) == Keys(Compile(ruleSet.rules.value)) <==>
               Listable(actuator.tcAPI.driver, ruleSet.rules.value))
    ensures outcome == Applied && ruleSet.rules.None? ==>
              forall p, v :: actuator.tcAPI.Gives(p, v) <==> v == NoHit
    ensures outcome.NotGenerated? <==>
              ruleSet.kind != Egress || (ruleSet.rules.Some? && !KnownActions(ruleSet.rules.value))
    // rules that write a range in two ways are never applied, and others are stopped by transient faults only
    ensures outcome == Applied && ruleSet.rules.Some? ==> RangesAgree(ruleSet.rules.value)
    ensures outcome.NotActuated? && ruleSet.rules.Some? && RangesAgree(ruleSet.rules.value) ==> outcome.error == Fault
    // every state on the way, of a success or a failure
    ensures ruleSet.rules.Some? ==>
              BetweenAny(actuator.tcAPI.driver, old(actuator.tcAPI.filters), actuator.tcAPI.history,
                         |old(actuator.tcAPI.history)|, ruleSet.rules.value)
    ensures ruleSet.rules.Some? && old(actuator.tcAPI.filters) == [] ==>
              AllGuarded(actuator.tcAPI.history, |old(actuator.tcAPI.history)|)
    // a further pass over rules that are not listed as they were added takes away for a while what does not stay
    ensures outcome == Applied && ruleSet.rules.Some? && !Listable(actuator.tcAPI.driver, ruleSet.rules.value) &&
            old(WireKeys(actuator.tcAPI.filters)) == SentKeys(actuator.tcAPI.driver, Compile(ruleSet.rules.value)) ==>
              PassesMiddle(actuator.tcAPI.driver, actuator.tcAPI.history, |old(actuator.tcAPI.history)|,
                           ruleSet.rules.value, ruleSet.rules.value)
  {
    var generated := GenerateFromPolicyRuleSet(ruleSet);
    if generated.Err? {
      return NotGenerated(generated.error);
    }
    if ruleSet.rules.None? {
      outcome := SyncNoRules(generated.value, actuator);
    } else {
      outcome := SyncRules(ruleSet.rules.value, generated.value, actuator);
    }
  }

  method SyncNoRules(objects: Objects, actuator: ActuatorTC) returns (outcome: Outcome)
    requires actuator.tcAPI.Valid() && objects == Objects(Some(QDiscIngress), [])
    modifies actuator.tcAPI
    ensures actuator.tcAPI.Valid() && old(actuator.tcAPI.history) <= actuator.tcAPI.history
    ensures outcome == Applied ==> forall p, v :: actuator.tcAPI.Gives(p, v) <==> v == NoHit
    ensures !outcome.NotGenerated?
  {
    ghost var before := actuator.tcAPI.filters;
    var err := actuator.Actuate(objects);
    if err != None {
      return NotActuated(err.value);
    }
    EmptiedChainIsSilent(actuator.tcAPI, before);
    return Applied;
  }

  method SyncRules(rules: seq<Rule>, objects: Objects, actuator: ActuatorTC) returns (outcome: Outcome)
    requires actuator.tcAPI.Valid() && KnownActions(rules) && objects == Objects(Some(QDiscIngress), Compile(rules))
    modifies actuator.tcAPI
    ensures actuator.tcAPI.Valid() && old(actuator.tcAPI.history) <= actuator.tcAPI.history
    ensures outcome == Applied ==> WireKeys(actuator.tcAPI.filters) == SentKeys(actuator.tcAPI.driver, Compile(rules))
    ensures outcome == Applied ==>
              forall p, v :: actuator.tcAPI.Gives(p, v) <==>
                             v == SentVerdict(actuator.tcAPI.driver, rules, p)
    ensures outcome == Applied && (actuator.tcAPI.driver.NetlinkDriver? ==> NoZeroPort(rules)) ==>
              forall p, v :: actuator.tcAPI.Gives(p, v) <==> v == RulesVerdict(rules, p)
    ensures outcome == Applied ==>
              (Keys(actuator.tcAPI.filters) == Keys(Compile(rules)) <==> Listable(actuator.tcAPI.driver, rules))
    ensures outcome == Applied ==> RangesAgree(rules)
    ensures outcome.NotActuated? && RangesAgree(rules) ==> outcome.error == Fault
    ensures !outcome.NotGenerated?
    ensures BetweenAny(actuator.tcAPI.driver, old(actuator.tcAPI.filters), actuator.tcAPI.history,
                       |old(actuator.tcAPI.history)|, rules)
    ensures old(actuator.tcAPI.filters) == [] ==> AllGuarded(actuator.tcAPI.history, |old(actuator.tcAPI.history)|)
    ensures outcome == Applied && !Listable(actuator.tcAPI.driver, rules) &&
            old(WireKeys(actuator.tcAPI.filters)) == SentKeys(actuator.tcAPI.driver, Compile(rules)) ==>
              PassesMiddle(actuator.tcAPI.driver, actuator.tcAPI.history, |old(actuator.tcAPI.history)|, rules, rules)
  {
    ghost var d, was, states := actuator.tcAPI.driver, actuator.tcAPI.filters, actuator.tcAPI.history;
    assert AllFaithful(d, was);
    CompiledArePlaced(rules);
    InstallableIffRangesAgree(d, rules);
    FaithfulIffListable(d, rules);
    var err := actuator.Actuate(objects);
    OnTheWay(d, was, actuator.tcAPI.history, |states|, rules);
    if err != None {
      return NotActuated(err.value);
    }
    InstalledRulesVerdict(d, actuator.tcAPI.filters, rules);
    InstalledAreNamed(d, actuator.tcAPI.filters, rules);
    actuator.tcAPI.GivesAsRead();
    if WireKeys(was) == SentKeys(d, Compile(rules)) && !Listable(d, rules) {
      UnlistedIsUndesired(d, was, Compile(rules));
      RunPassesMiddle(d, was, actuator.tcAPI.history, |states|, rules, rules);
    }
    return Applied;
  }

  lemma InstalledRulesVerdict(d: Driver, installed: seq<Filter>, rules: seq<Rule>)
    requires WireKeys(installed) == SentKeys(d, Compile(rules))
    ensures forall p, v :: MayGive(installed, p, v) <==> v == SentVerdict(d, rules, p)
    ensures (d.NetlinkDriver? ==> NoZeroPort(rules)) ==>
              forall p, v :: MayGive(installed, p, v) <==> v == RulesVerdict(rules, p)
  {
    InstalledVerdict(d, installed, rules);
    if d.NetlinkDriver? ==> NoZeroPort(rules) {
      forall p { SentVerdictIsRight(d, rules, p); }
    }
  }

  /** What acts like compiled filters has known names only. */
  lemma InstalledAreNamed(d: Driver, installed: seq<Filter>, rules: seq<Rule>)
    requires WireKeys(installed) <= SentKeys(d, Compile(rules))
    ensures AllNamed(installed)
  {
    forall i | 0 <= i < |installed|
      ensures Named(installed[i])
    {
      assert Wire(installed[i]) in WireKeys(installed);
      SentIsNamed(d, installed[i], rules);
    }
  }

  lemma SentIsNamed(d: Driver, f: Filter, rules: seq<Rule>)
    requires Wire(f) in SentKeys(d, Compile(rules))
    ensures Named(f)
  {
    var fs := Compile(rules);
    var k :| 0 <= k < |fs| && Wire(Sent(d, fs[k])) == Wire(f);
    CompiledIsNamed(rules, fs[k]);
    CompiledIsAccepted(d, rules, fs[k]);
    if d.NetlinkDriver? {
      CodedIsNamed(fs[k]);
    }
    NamedByWire(f, Sent(d, fs[k]));
  }

  /** Also on the way, the kernel does with packets what the filters say that the driver reads. */
  lemma KernelGivesBetween(d: Driver, entries: seq<Entry>, state: seq<Filter>, before: seq<Rule>, after: seq<Rule>,
                           p: Packet, v: Verdict)
    requires AllRead(d, entries, state) && Between(d, state, before, after)
    ensures AllPlain(entries) && (KernelMayGive(KernelFilters(entries), p, v) <==> MayGive(state, p, v))
  {
    forall i | 0 <= i < |state|
      ensures Named(state[i])
    {
      assert Wire(state[i]) in WireKeys(state);
      if Wire(state[i]) in SentKeys(d, Compile(before)) {
        SentIsNamed(d, state[i], before);
      } else {
        SentIsNamed(d, state[i], after);
      }
    }
    KernelGivesAsRead(d, entries, state, p, v);
  }

  lemma EmptiedChainIsSilent(device: Device, fs: seq<Filter>)
    requires device.Valid() && device.filters == Select(OutsideChain(0), fs)
    ensures forall p, v :: device.Gives(p, v) <==> v == NoHit
  {
    SelectMember(OutsideChain(0), fs);
    forall i | 0 <= i < |device.filters|
      ensures ChainOf(device.filters[i]) != 0
    {
      assert device.filters[i] in device.filters;
    }
    forall p, v
      ensures device.Gives(p, v) <==> v == NoHit
    {
      OtherChainsAreSilent(device.driver, device.entries, device.filters, p, v);
    }
  }
}
