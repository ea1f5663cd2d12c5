/** TC filters: their attributes, flower keys and actions, and the equality the reconciler compares them with. */
module TcTypes {
  import opened Collections
  import opened Net

  datatype FilterProtocol = ProtoAll | ProtoIPv4 | ProtoIPv6 | Proto8021Q | ProtoOther(name: string)
  datatype VlanEthType = VlanIPv4 | VlanIPv6 | VlanOther(name: string)
  datatype FlowerIPProto = IPProtoTCP | IPProtoUDP | IPProtoOther(name: string)
  datatype FilterKind = KindFlower | KindOther(name: string)
  datatype ControlAction = ActPass | ActDrop | ActOther(name: string)

  datatype Action = GenericAction(control: ControlAction)

  datatype FilterAttrs = FilterAttrs(
    kind: FilterKind, protocol: FilterProtocol, chain: Option<u32>, handle: Option<u32>, priority: Option<u16>)

  datatype FlowerSpec = FlowerSpec(
    vlanEthType: Option<VlanEthType>, ipProto: Option<FlowerIPProto>, dstIP: Option<IPNet>, dstPort: Option<u16>)

  datatype Filter = FlowerFilter(attrs: FilterAttrs, flower: Option<FlowerSpec>, actions: seq<Action>)

  datatype QDiscType = QDiscIngress | QDiscOther(name: string)

  /** What is to be installed on a device. */
  datatype Objects = Objects(qdisc: Option<QDiscType>, filters: seq<Filter>)

  const CHAIN_DEFAULT_CHAIN: u32 := 0

  /** Equality of two optional values where an absent one may stand for `nilVal`. */
  predicate Compare<C(==)>(first: Option<C>, second: Option<C>, nilVal: Option<C>) {
    if first == second then true
    else if first.Some? && second.Some? then first.value == second.value
    else if nilVal.Some? then
      (first.Some? && first.value == nilVal.value) || (second.Some? && second.value == nilVal.value)
    else false
  }

  /** The handle takes no part in the comparison. */
  predicate AttrsEquals(a: FilterAttrs, b: FilterAttrs) {
    a.kind == b.kind
    && a.protocol == b.protocol
    && Compare(a.chain, b.chain, Some(CHAIN_DEFAULT_CHAIN))
    && Compare(a.priority, b.priority, None)
  }

  /** Two ranges are the same when their address texts agree and their mask texts agree. */
  predicate DstIPEquals(a: Option<IPNet>, b: Option<IPNet>) {
    if a.Some? && b.Some? then CanonIP(a.value.ip) == CanonIP(b.value.ip) && a.value.mask == b.value.mask
    else a == b
  }

  predicate SpecEquals(a: Option<FlowerSpec>, b: Option<FlowerSpec>) {
    if a.Some? && b.Some? then
      Compare(a.value.vlanEthType, b.value.vlanEthType, None)
      && Compare(a.value.ipProto, b.value.ipProto, None)
      && DstIPEquals(a.value.dstIP, b.value.dstIP)
      && Compare(a.value.dstPort, b.value.dstPort, None)
    else a == b
  }

  predicate ActionsEqual(a: seq<Action>, b: seq<Action>) {
    |a| == |b| && forall i :: 0 <= i < |a| ==> a[i] == b[i]
  }

  predicate FilterEquals(f: Filter, g: Filter) {
    AttrsEquals(f.attrs, g.attrs) && SpecEquals(f.flower, g.flower) && ActionsEqual(f.actions, g.actions)
  }

  function CanonSpec(s: Option<FlowerSpec>): Option<FlowerSpec> {
    if s.Some? && s.value.dstIP.Some? then
      Some(s.value.(dstIP := Some(s.value.dstIP.value.(ip := CanonIP(s.value.dstIP.value.ip)))))
    else s
  }

  /** The representative of a filter's equality class: no handle, an explicit chain, IPv4 addresses in four bytes. */
  function Canon(f: Filter): Filter {
    FlowerFilter(
      f.attrs.(chain := Some(ChainOf(f)), handle := None),
      CanonSpec(f.flower),
      f.actions)
  }

  function ChainOf(f: Filter): u32 {
    f.attrs.chain.GetOr(CHAIN_DEFAULT_CHAIN)
  }

  function PrefOf(f: Filter): u16 {
    f.attrs.priority.GetOr(0)
  }

  /** `Equals` is equality of canonical forms, hence reflexive, symmetric and transitive. */
  lemma EqualsIsCanonEquality(f: Filter, g: Filter)
    ensures FilterEquals(f, g) <==> Canon(f) == Canon(g)
  {
  }

  /** The equality classes present in a list of filters. */
  function Keys(fs: seq<Filter>): set<Filter> {
    set i | 0 <= i < |fs| :: Canon(fs[i])
  }

  predicate Distinct(fs: seq<Filter>) {
    forall i, j :: 0 <= i < j < |fs| ==> Canon(fs[i]) != Canon(fs[j])
  }

  lemma KeysAppend(a: seq<Filter>, b: seq<Filter>)
    ensures Keys(a + b) == Keys(a) + Keys(b)
  {
    forall x | x in Keys(b)
      ensures x in Keys(a + b)
    {
      var i :| 0 <= i < |b| && x == Canon(b[i]);
      assert (a + b)[|a| + i] == b[i];
    }
    forall x | x in Keys(a)
      ensures x in Keys(a + b)
    {
      var i :| 0 <= i < |a| && x == Canon(a[i]);
      assert (a + b)[i] == a[i];
    }
  }

  lemma KeysStep(fs: seq<Filter>, i: nat)
    requires i < |fs|
    ensures Keys(fs[..i + 1]) == Keys(fs[..i]) + {Canon(fs[i])}
  {
  }

  lemma DistinctPrefix(fs: seq<Filter>, n: nat)
    requires Distinct(fs) && n < |fs|
    ensures Distinct(fs[..n]) && Canon(fs[n]) !in Keys(fs[..n])
  {
    forall i | 0 <= i < n
      ensures Canon(fs[..n][i]) != Canon(fs[n])
    {
      assert fs[..n][i] == fs[i];
    }
  }

  lemma {:induction false} DistinctCardinality(fs: seq<Filter>)
    requires Distinct(fs)
    ensures |Keys(fs)| == |fs|
  {
    if fs != [] {
      var n := |fs| - 1;
      DistinctPrefix(fs, n);
      DistinctCardinality(fs[..n]);
      KeysStep(fs, n);
      assert fs[..n + 1] == fs;
    }
  }

  // ----- names and keys -----

  const NO_KEYS := FlowerSpec(None, None, None, None)

  function SpecOf(f: Filter): FlowerSpec {
    f.flower.GetOr(NO_KEYS)
  }

  /** All names are constants of the types package. */
  predicate Named(f: Filter) {
    && f.attrs.kind == KindFlower && !f.attrs.protocol.ProtoOther?
    && (SpecOf(f).vlanEthType.Some? ==> !SpecOf(f).vlanEthType.value.VlanOther?)
    && (SpecOf(f).ipProto.Some? ==> !SpecOf(f).ipProto.value.IPProtoOther?)
    && forall i :: 0 <= i < |f.actions| ==> !f.actions[i].control.ActOther?
  }

  predicate RangeCanonical(f: Filter) {
    SpecOf(f).dstIP.Some? ==> Canonical(SpecOf(f).dstIP.value)
  }

  // ----- what the kernel keeps of a filter -----

  function WireSpec(s: Option<FlowerSpec>): FlowerSpec {
    if s.None? then NO_KEYS
    else s.value.(dstIP := if s.value.dstIP.Some? then Some(WireNet(s.value.dstIP.value)) else None)
  }

  /** The filter under the preference and the handle that the kernel keeps it at. */
  function Stored(f: Filter, pref: u16, handle: u32): Filter {
    FlowerFilter(
      f.attrs.(chain := Some(ChainOf(f)), handle := Some(handle), priority := Some(pref)),
      Some(WireSpec(f.flower)),
      f.actions)
  }

  /**
   * What is kept equals what was given exactly for filters with that preference, with keys and with a canonical range.
   */
  lemma StoredEquals(f: Filter, pref: u16, handle: u32)
    ensures Canon(Stored(f, pref, handle)) == Canon(f) <==>
            f.attrs.priority == Some(pref) && f.flower.Some? && RangeCanonical(f)
  {
    if f.flower.Some? && f.flower.value.dstIP.Some? {
      WireIsOwnIffCanonical(f.flower.value.dstIP.value);
    }
  }

  lemma WireIsOwnIffCanonical(n: IPNet)
    ensures CanonIP(WireNet(n).ip) == CanonIP(n.ip) && WireNet(n).mask == n.mask <==> Canonical(n)
  {
    WireNetFixed(n);
  }

  /** A preference or handle that the kernel picks when none, or zero, is given. */
  function Chosen(given: Option<int>, picked: int): int {
    if given.Some? && given.value != 0 then given.value else picked
  }
}
