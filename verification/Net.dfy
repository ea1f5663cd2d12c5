/** IP addresses and CIDR ranges, as the source's `net.IP` and `net.IPNet` hold them. */
module Net {
  import opened Collections

  type u16 = x: int | 0 <= x < 0x1_0000
  type u32 = x: int | 0 <= x < 0x1_0000_0000
  type u128 = x: int | 0 <= x < 0x1_0000_0000_0000_0000_0000_0000_0000_0000

  /**
   * A `net.IP`: four bytes or sixteen. A sixteen-byte value may hold an IPv4 address under the prefix ::ffff:0:0/96.
   */
  datatype IP = Bytes4(a4: u32) | Bytes16(a16: u128)

  function To4(ip: IP): Option<u32> {
    match ip
    case Bytes4(a) => Some(a)
    case Bytes16(a) => if a / 0x1_0000_0000 == 0xffff then Some(a % 0x1_0000_0000) else None
  }

  predicate IsIPv4(ip: IP) {
    To4(ip).Some?
  }

  /** One value per printed address: the text of an address does not show how many bytes hold it. */
  function CanonIP(ip: IP): IP {
    if IsIPv4(ip) then Bytes4(To4(ip).value) else ip
  }

  /** A mask of `ones` leading one bits out of `bits`, as CIDR notation produces it. */
  datatype Mask = Mask(ones: nat, bits: nat)

  datatype Range = IPNet(ip: IP, mask: Mask)

  /** CIDR notation fills a mask of sixteen bytes, or one of four bytes for an IPv4 address. */
  predicate FromNotation(r: Range) {
    r.mask.ones <= r.mask.bits && (r.mask.bits == 128 || (r.mask.bits == 32 && IsIPv4(r.ip)))
  }

  /** A `net.IPNet` made from CIDR notation. The IPv4-mapped form keeps a mask of sixteen bytes on an IPv4 address. */
  type IPNet = r: Range | FromNotation(r) witness IPNet(Bytes4(0), Mask(0, 32))

  predicate IsMaskFull(m: Mask) {
    m.ones == m.bits
  }

  function Width(ip: IP): nat {
    if IsIPv4(ip) then 32 else 128
  }

  function Pow2(n: nat): (r: nat)
    ensures r > 0
  {
    if n == 0 then 1 else 2 * Pow2(n - 1)
  }

  /** The prefix length that a range has on the wire: a sixteen-byte mask on an IPv4 address counts from bit 96. */
  function PrefixLen(n: IPNet): nat {
    if IsIPv4(n.ip) && n.mask.bits == 128 then (if n.mask.ones >= 96 then n.mask.ones - 96 else 0) else n.mask.ones
  }

  function HostBits(n: IPNet): nat {
    Width(n.ip) - PrefixLen(n)
  }

  function Address(ip: IP): nat {
    match CanonIP(ip)
    case Bytes4(a) => a
    case Bytes16(a) => a
  }

  /** The destination of a packet. */
  datatype Dst = Dst4(d4: u32) | Dst6(d6: u128)

  /** CIDR membership: same family and same leading bits (section 3.1 of RFC 4632). */
  predicate Covers(n: IPNet, d: Dst) {
    match d
    case Dst4(a) => IsIPv4(n.ip) && a / Pow2(HostBits(n)) == Address(n.ip) / Pow2(HostBits(n))
    case Dst6(a) => !IsIPv4(n.ip) && a / Pow2(HostBits(n)) == Address(n.ip) / Pow2(HostBits(n))
  }

  /** The destination whose address is `ip`. */
  function AsDst(ip: IP): Dst {
    match CanonIP(ip)
    case Bytes4(a) => Dst4(a)
    case Bytes16(a) => Dst6(a)
  }

  lemma CoversOwnAddress(n: IPNet)
    ensures Covers(n, AsDst(n.ip))
  {
  }

  /** The range that holds a single address, as the renderer builds it for a pod's IP. */
  function HostNet(ip: IP): IPNet {
    IPNet(ip, if IsIPv4(ip) then Mask(32, 32) else Mask(128, 128))
  }

  lemma HostNetIsOneAddress(ip: IP, d: Dst)
    ensures Covers(HostNet(ip), d) <==> d == AsDst(ip)
  {
    assert HostBits(HostNet(ip)) == 0;
    assert Pow2(0) == 1;
  }

  /** `a` with its low `bits` bits cleared. */
  function ClearLow(a: nat, bits: nat): (r: nat)
    ensures r <= a
  {
    RemainderBound(a, Pow2(bits));
    a - a % Pow2(bits)
  }

  lemma RemainderBound(a: nat, p: nat)
    requires p > 0
    ensures 0 <= a % p <= a
  {
  }

  lemma RemoveRemainder(a: nat, p: nat)
    requires p > 0
    ensures (a - a % p) % p == 0
    ensures (a - a % p) / p == a / p
  {
    QuotientUnique(a - a % p, a / p, 0, p);
  }

  lemma QuotientUnique(b: int, q: int, r: nat, p: nat)
    requires r < p && b == q * p + r
    ensures b / p == q && b % p == r
  {
    SameQuotient(q, r, b / p, b % p, p);
  }

  lemma SameQuotient(q: int, r: nat, k: int, m: nat, p: nat)
    requires r < p && m < p
    requires q * p + r == k * p + m
    ensures q == k && r == m
  {
    assert (q - k) * p == m - r;
    if q > k {
      Multiple(q - k, p);
    } else if q < k {
      Multiple(k - q, p);
    }
  }

  lemma Multiple(n: nat, p: nat)
    requires n > 0
    ensures n * p >= p
  {
  }

  lemma ClearLowTwice(a: nat, bits: nat)
    ensures ClearLow(ClearLow(a, bits), bits) == ClearLow(a, bits)
    ensures ClearLow(a, bits) / Pow2(bits) == a / Pow2(bits)
  {
    RemoveRemainder(a, Pow2(bits));
  }

  /** Clearing low bits cannot turn an address outside ::ffff:0:0/96 into one inside it. */
  lemma ClearedStaysIPv6(a: nat, bits: nat)
    requires a / 0x1_0000_0000 != 0xffff
    ensures ClearLow(a, bits) / 0x1_0000_0000 != 0xffff
  {
    var c, p := ClearLow(a, bits), Pow2(bits);
    ClearLowTwice(a, bits);
    if bits <= 32 {
      Pow2Values();
      Pow2Splits(bits, 32);
      var q := Pow2(32 - bits);
      DivideTwice(a, p, q);
      DivideTwice(c, p, q);
    } else {
      Pow2Values();
      Pow2Splits(33, bits);
      RemainderOfMultiple(c, Pow2(33), Pow2(bits - 33));
    }
  }

  lemma Pow2Values()
    ensures Pow2(32) == 0x1_0000_0000 && Pow2(33) == 0x2_0000_0000
  {
    assert Pow2(8) == 0x100;
    assert Pow2(16) == 0x1_0000;
    assert Pow2(24) == 0x100_0000;
  }

  lemma {:induction false} Pow2Splits(m: nat, n: nat)
    requires m <= n
    ensures Pow2(n) == Pow2(m) * Pow2(n - m)
  {
    if m < n {
      Pow2Splits(m, n - 1);
      assert Pow2(n) == 2 * (Pow2(m) * Pow2(n - 1 - m)) == Pow2(m) * (2 * Pow2(n - 1 - m));
    }
  }

  lemma DivideTwice(a: nat, p: nat, q: nat)
    requires p > 0 && q > 0
    ensures a / (p * q) == a / p / q
  {
    var r := a % p + p * (a / p % q);
    assert a == (a / p) * p + a % p;
    assert a / p == (a / p / q) * q + a / p % q;
    assert a == (a / p / q) * (p * q) + r;
    Multiple(q, p);
    assert p * (a / p % q) <= p * (q - 1) by {
      Scale(a / p % q, q - 1, p);
    }
    QuotientUnique(a, a / p / q, r, p * q);
  }

  lemma Scale(x: nat, y: nat, p: nat)
    requires x <= y
    ensures p * x <= p * y
  {
  }

  lemma RemainderOfMultiple(c: nat, p: nat, q: nat)
    requires p > 0 && q > 0 && c % (p * q) == 0
    ensures c % p == 0
  {
    var k := c / (p * q);
    assert c == k * (p * q) == (k * q) * p;
    QuotientUnique(c, k * q, 0, p);
  }

  /** A range whose mask has the length of its address family and whose address has no bit outside the mask. */
  predicate Canonical(n: IPNet) {
    n.mask.bits == Width(n.ip) && ClearLow(Address(n.ip), HostBits(n)) == Address(n.ip)
  }

  /** `net.ParseCIDR` on an already scanned address and prefix length: the address is masked and keeps its byte form. */
  function ParseCIDR(ip: IP, ones: nat): Option<IPNet> {
    match ip
    case Bytes4(a) => if ones <= 32 then Some(IPNet(Bytes4(ClearLow(a, 32 - ones)), Mask(ones, 32))) else None
    case Bytes16(a) => if ones <= 128 then Some(IPNet(Bytes16(ClearLow(a, 128 - ones)), Mask(ones, 128))) else None
  }

  /** A parsed range is canonical unless it is the IPv4-mapped text form, such as ::ffff:10.0.0.0/104. */
  lemma ParsedIsCanonical(ip: IP, ones: nat)
    requires ParseCIDR(ip, ones).Some?
    ensures var n := ParseCIDR(ip, ones).value;
            Canonical(n) <==> ip.Bytes4? || !IsIPv4(n.ip)
  {
    match ip
    case Bytes4(a) => ClearLowTwice(a, 32 - ones);
    case Bytes16(a) => ClearLowTwice(a, 128 - ones);
  }

  lemma Pow2Bytes()
    ensures Pow2(16) == 0x1_0000 && Pow2(24) == 0x100_0000
  {
    assert Pow2(8) == 0x100;
  }

  /** A masked range in IPv4-mapped form is read as it stands, and covers the IPv4 addresses with its leading bits. */
  lemma MappedIsParsed(a: u128, ones: nat, x: u32)
    requires a / 0x1_0000_0000 == 0xffff && 96 <= ones <= 128 && a % Pow2(128 - ones) == 0
    requires x / Pow2(128 - ones) == (a % 0x1_0000_0000) / Pow2(128 - ones)
    ensures ParseCIDR(Bytes16(a), ones) == Some(IPNet(Bytes16(a), Mask(ones, 128)))
    ensures !Canonical(IPNet(Bytes16(a), Mask(ones, 128))) && Covers(IPNet(Bytes16(a), Mask(ones, 128)), Dst4(x))
  {
  }

  // ----- ranges in the kernel -----

  /** A range as the kernel keeps it: masked, in the byte form of its family. */
  function WireNet(n: IPNet): IPNet {
    var a := ClearLow(Address(n.ip), HostBits(n));
    IPNet(if IsIPv4(n.ip) then Bytes4(a) else Bytes16(a), Mask(PrefixLen(n), Width(n.ip)))
  }

  lemma WireNetFixed(n: IPNet)
    ensures CanonIP(WireNet(n).ip) == WireNet(n).ip
  {
    if !IsIPv4(n.ip) {
      ClearedStaysIPv6(Address(n.ip), HostBits(n));
    }
  }

  lemma WireNetTwice(n: IPNet)
    ensures WireNet(WireNet(n)) == WireNet(n)
  {
    WireNetFixed(n);
    ClearLowTwice(Address(n.ip), HostBits(n));
  }

  /** Masking changes no membership. */
  lemma WireCovers(n: IPNet, d: Dst)
    ensures Covers(WireNet(n), d) <==> Covers(n, d)
  {
    WireNetFixed(n);
    ClearLowTwice(Address(n.ip), HostBits(n));
  }

  lemma WireNetIsCanonical(n: IPNet)
    ensures Canonical(WireNet(n))
  {
    WireNetFixed(n);
    ClearLowTwice(Address(n.ip), HostBits(n));
  }
}
