/** What a list of TC filters does to a packet: the lowest preference that matches decides. */
module Classifier {
  import opened Collections
  import opened Net
  import opened TcTypes

  datatype L4Proto = L4TCP | L4UDP | L4SCTP | L4Other

  datatype Payload = IPPayload(dst: Dst, proto: L4Proto, dstPort: u16) | OtherPayload

  /** A frame carrying `tags` 802.1Q tags in front of its payload. */
  datatype Packet = Packet(tags: nat, payload: Payload)

  datatype Verdict = Pass | Drop | NoHit

  /** An IPv4 or IPv6 packet with at most one tag: the traffic that policies are enforced on. */
  predicate IsPolicyTraffic(p: Packet) {
    p.tags <= 1 && p.payload.IPPayload?
  }

  predicate ProtocolMatches(proto: FilterProtocol, p: Packet) {
    match proto
    case ProtoAll => true
    case ProtoIPv4 => p.tags == 0 && p.payload.IPPayload? && p.payload.dst.Dst4?
    case ProtoIPv6 => p.tags == 0 && p.payload.IPPayload? && p.payload.dst.Dst6?
    case Proto8021Q => p.tags > 0
    case ProtoOther(_) => false
  }

  /** The type field behind the first tag; with a second tag it names 802.1Q and so neither IP family. */
  predicate VlanEthTypeMatches(t: VlanEthType, p: Packet) {
    p.tags == 1 && p.payload.IPPayload? &&
    match t
    case VlanIPv4 => p.payload.dst.Dst4?
    case VlanIPv6 => p.payload.dst.Dst6?
    case VlanOther(_) => false
  }

  predicate IPProtoMatches(t: FlowerIPProto, p: Packet) {
    p.payload.IPPayload? &&
    match t
    case IPProtoTCP => p.payload.proto == L4TCP
    case IPProtoUDP => p.payload.proto == L4UDP
    case IPProtoOther(_) => false
  }

  predicate SpecMatches(s: FlowerSpec, p: Packet) {
    && (s.vlanEthType.Some? ==> VlanEthTypeMatches(s.vlanEthType.value, p))
    && (s.ipProto.Some? ==> IPProtoMatches(s.ipProto.value, p))
    && (s.dstIP.Some? ==> p.payload.IPPayload? && Covers(s.dstIP.value, p.payload.dst))
    && (s.dstPort.Some? ==> p.payload.IPPayload? && p.payload.proto != L4Other && p.payload.dstPort == s.dstPort.value)
  }

  /** Packets are classified by the filters of chain 0. */
  predicate Matches(f: Filter, p: Packet) {
    && f.attrs.kind == KindFlower
    && ChainOf(f) == CHAIN_DEFAULT_CHAIN
    && ProtocolMatches(f.attrs.protocol, p)
    && (f.flower.Some? ==> SpecMatches(f.flower.value, p))
  }

  function FilterVerdict(f: Filter): (v: Verdict)
    ensures v != NoHit
  {
    if |f.actions| > 0 && f.actions[0].control == ActDrop then Drop else Pass
  }

  predicate Hit(fs: seq<Filter>, p: Packet) {
    exists i :: 0 <= i < |fs| && Matches(fs[i], p)
  }

  predicate Decides(fs: seq<Filter>, i: int, p: Packet) {
    0 <= i < |fs| && Matches(fs[i], p) &&
    forall j :: 0 <= j < |fs| && Matches(fs[j], p) ==> PrefOf(fs[i]) <= PrefOf(fs[j])
  }

  /** The verdicts that `fs` may give, whatever order the kernel tries filters of equal preference in. */
  ghost predicate MayGive(fs: seq<Filter>, p: Packet, v: Verdict) {
    if v == NoHit then !Hit(fs, p) else exists i :: Decides(fs, i, p) && FilterVerdict(fs[i]) == v
  }

  lemma {:induction false} SomeFilterDecides(fs: seq<Filter>, p: Packet) returns (i: int)
    requires Hit(fs, p)
    ensures Decides(fs, i, p)
  {
    var n := |fs| - 1;
    var init := fs[..n];
    if Hit(init, p) {
      i := SomeFilterDecides(init, p);
      assert forall j :: 0 <= j < n ==> init[j] == fs[j];
      if Matches(fs[n], p) && PrefOf(fs[n]) < PrefOf(fs[i]) {
        i := n;
      }
    } else {
      assert forall j :: 0 <= j < n ==> init[j] == fs[j];
      i := n;
    }
  }

  lemma HitFlatMap<A>(f: A -> seq<Filter>, s: seq<A>, p: Packet)
    ensures Hit(FlatMap(f, s), p) <==> exists i :: 0 <= i < |s| && Hit(f(s[i]), p)
  {
    FlatMapMember(f, s);
    var fs := FlatMap(f, s);
    if Hit(fs, p) {
      var k :| 0 <= k < |fs| && Matches(fs[k], p);
      assert fs[k] in fs;
    }
    if i :| 0 <= i < |s| && Hit(f(s[i]), p) {
      var k :| 0 <= k < |f(s[i])| && Matches(f(s[i])[k], p);
      assert f(s[i])[k] in fs;
    }
  }

  lemma HitAppend(a: seq<Filter>, b: seq<Filter>, p: Packet)
    ensures Hit(a + b, p) <==> Hit(a, p) || Hit(b, p)
  {
    if k :| 0 <= k < |a| && Matches(a[k], p) {
      assert (a + b)[k] == a[k];
    }
    if k :| 0 <= k < |b| && Matches(b[k], p) {
      assert (a + b)[|a| + k] == b[k];
    }
  }

  /** Classification does not see what `Equals` ignores. */
  lemma CanonMatches(f: Filter, p: Packet)
    ensures Matches(Canon(f), p) <==> Matches(f, p)
    ensures PrefOf(Canon(f)) == PrefOf(f) && FilterVerdict(Canon(f)) == FilterVerdict(f)
  {
  }

  /** The packet cannot tell the filters apart. */
  predicate ActsAlike(f: Filter, g: Filter, p: Packet) {
    (Matches(f, p) <==> Matches(g, p)) && PrefOf(f) == PrefOf(g) && FilterVerdict(f) == FilterVerdict(g)
  }

  predicate HasTwin(f: Filter, fs: seq<Filter>, p: Packet) {
    exists k :: 0 <= k < |fs| && ActsAlike(f, fs[k], p)
  }

  /** Every filter of `a` has one in `b` that acts like it. */
  predicate Mirrored(a: seq<Filter>, b: seq<Filter>, p: Packet) {
    forall i {:trigger HasTwin(a[i], b, p)} :: 0 <= i < |a| ==> HasTwin(a[i], b, p)
  }

  lemma DecidesAcross(a: seq<Filter>, b: seq<Filter>, p: Packet, i: int) returns (k: int)
    requires Mirrored(a, b, p) && Mirrored(b, a, p) && Decides(a, i, p)
    ensures Decides(b, k, p) && FilterVerdict(b[k]) == FilterVerdict(a[i])
  {
    assert HasTwin(a[i], b, p);
    k :| 0 <= k < |b| && ActsAlike(a[i], b[k], p);
    forall j | 0 <= j < |b| && Matches(b[j], p)
      ensures PrefOf(b[k]) <= PrefOf(b[j])
    {
      assert HasTwin(b[j], a, p);
      var m :| 0 <= m < |a| && ActsAlike(b[j], a[m], p);
    }
  }

  lemma HitAcross(a: seq<Filter>, b: seq<Filter>, p: Packet)
    requires Mirrored(a, b, p)
    ensures Hit(a, p) ==> Hit(b, p)
  {
    if i :| 0 <= i < |a| && Matches(a[i], p) {
      assert HasTwin(a[i], b, p);
    }
  }

  /** Lists whose filters act alike give the same verdicts. */
  lemma MirroredVerdict(a: seq<Filter>, b: seq<Filter>, p: Packet, v: Verdict)
    requires Mirrored(a, b, p) && Mirrored(b, a, p)
    ensures MayGive(a, p, v) <==> MayGive(b, p, v)
  {
    if v == NoHit {
      HitAcross(a, b, p);
      HitAcross(b, a, p);
    } else {
      if i :| Decides(a, i, p) && FilterVerdict(a[i]) == v {
        var k := DecidesAcross(a, b, p, i);
      }
      if i :| Decides(b, i, p) && FilterVerdict(b[i]) == v {
        var k := DecidesAcross(b, a, p, i);
      }
    }
  }

  lemma KeysMirror(a: seq<Filter>, b: seq<Filter>, p: Packet)
    requires Keys(a) <= Keys(b)
    ensures Mirrored(a, b, p)
  {
    forall i | 0 <= i < |a|
      ensures HasTwin(a[i], b, p)
    {
      assert Canon(a[i]) in Keys(b);
      var k :| 0 <= k < |b| && Canon(b[k]) == Canon(a[i]);
      CanonMatches(a[i], p);
      CanonMatches(b[k], p);
      assert ActsAlike(a[i], b[k], p);
    }
  }

  /** The verdict depends on the set of filters modulo `Equals` only: not on order, duplicates or handles. */
  lemma VerdictDependsOnKeysOnly(a: seq<Filter>, b: seq<Filter>, p: Packet, v: Verdict)
    requires Keys(a) == Keys(b)
    ensures MayGive(a, p, v) <==> MayGive(b, p, v)
  {
    KeysMirror(a, b, p);
    KeysMirror(b, a, p);
    MirroredVerdict(a, b, p, v);
  }
}
