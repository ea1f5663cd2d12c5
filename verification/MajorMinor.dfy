/** TC handles and parents: 32-bit numbers printed as two hexadecimal halves. */
module MajorMinor {
  import opened Collections
  import opened Net
  import opened Texts

  const LIMIT_32: nat := 0x1_0000_0000

  /** The upper and the lower sixteen bits, in hexadecimal. */
  function PrintParent(parent: u32): string {
    Format(parent / 0x1_0000, 16) + ":" + Format(parent % 0x1_0000, 16)
  }

  /** Two halves joined, each masked to sixteen bits. */
  function Combine(major: nat, minor: nat): u32 {
    major % 0x1_0000 * 0x1_0000 + minor % 0x1_0000
  }

  function Bit(n: nat, i: nat): nat {
    n / Pow2(i) % 2
  }

  lemma QuotientPlus(k: nat, p: nat, q: nat, low: nat)
    requires p > 0
    ensures (k * (p * q) + low) / p == k * q + low / p
  {
    Regroup(k, p, q);
    Remainder(low, p);
    QuotientUnique(k * (p * q) + low, k * q + low / p, low % p, p);
  }

  lemma Regroup(k: nat, p: nat, q: nat)
    ensures k * (p * q) == k * q * p
  {
  }

  lemma Remainder(a: nat, p: nat)
    requires p > 0
    ensures a == a / p * p + a % p
  {
  }

  lemma Sixteen()
    ensures Pow2(16) == 0x1_0000
  {
    assert Pow2(8) == 0x100;
  }

  lemma Doubled(k: nat, q: nat)
    ensures k * (2 * q) == 2 * (k * q)
  {
  }

  lemma LowParity(k: nat, w: nat, p: nat, q: nat, low: nat)
    requires p > 0 && w == p * (2 * q)
    ensures (k * w + low) / p % 2 == low / p % 2
  {
    QuotientPlus(k, p, 2 * q, low);
    Doubled(k, q);
    EvenPlus(k * q, low / p);
  }

  /** The low sixteen bits of a number are those of its remainder. */
  lemma LowBit(k: nat, low: nat, i: nat)
    requires i < 16
    ensures Bit(k * 0x1_0000 + low, i) == Bit(low, i)
  {
    Sixteen();
    Pow2Splits(i, 16);
    LowParity(k, 0x1_0000, Pow2(i), Pow2(15 - i), low);
  }

  lemma EvenPlus(a: nat, b: nat)
    ensures (2 * a + b) % 2 == b % 2
  {
  }

  /**
   * `Combine` is what masking, shifting and joining does: the lower sixteen bits are those of the minor number, the
   * upper sixteen those of the major number.
   */
  lemma CombineBits(major: u32, minor: u32, i: nat)
    requires i < 32
    ensures Bit(Combine(major, minor), i) == if i < 16 then Bit(minor, i) else Bit(major, i - 16)
  {
    var high, low := major % 0x1_0000, minor % 0x1_0000;
    if i < 16 {
      LowBit(high, low, i);
      LowBit(minor / 0x1_0000, low, i);
    } else {
      Pow2Splits(16, i);
      Sixteen();
      DivideTwice(Combine(major, minor), 0x1_0000, Pow2(i - 16));
      LowBit(major / 0x1_0000, high, i - 16);
    }
  }

  function ParseMajorMinor(mm: string): Option<u32> {
    var parts := Split(mm, ':');
    if |parts| == 1 then ParseUint(parts[0], 16, LIMIT_32)
    else if |parts| == 2 then
      var major := ParseUint(parts[0], 16, LIMIT_32);
      if major.None? then None
      else if |parts[1]| > 0 then
        var minor := ParseUint(parts[1], 16, LIMIT_32);
        if minor.None? then None else Some(Combine(major.value, minor.value))
      else major
    else None
  }

  lemma NoColon(n: nat)
    ensures ':' !in Format(n, 16)
  {
  }

  /** Two printed halves are read as their low sixteen bits; a longer half loses its upper bits without an error. */
  lemma ParseTwoHalves(major: u32, minor: u32)
    ensures ParseMajorMinor(Format(major, 16) + ":" + Format(minor, 16)) == Some(Combine(major, minor))
  {
    NoColon(major);
    NoColon(minor);
    SplitOnce(Format(major, 16), ':', Format(minor, 16));
    UintRoundTrip(major, 16, LIMIT_32);
    UintRoundTrip(minor, 16, LIMIT_32);
  }

  /** A number alone is read as it stands. */
  lemma ParseNumber(n: u32)
    ensures ParseMajorMinor(Format(n, 16)) == Some(n)
  {
    NoColon(n);
    SplitWithout(Format(n, 16), ':');
    UintRoundTrip(n, 16, LIMIT_32);
  }

  /** A number followed by a colon is read as it stands too, and not shifted to the upper half. */
  lemma ParseMajorOnly(n: u32)
    ensures ParseMajorMinor(Format(n, 16) + ":") == Some(n)
  {
    var s := Format(n, 16);
    NoColon(n);
    SplitOnce(s, ':', "");
    assert s + ":" == s + [':'] + "";
    UintRoundTrip(n, 16, LIMIT_32);
  }

  lemma HalvesRejoin(parent: u32)
    ensures Combine(parent / 0x1_0000, parent % 0x1_0000) == parent
  {
  }

  /** Every 32-bit parent is read back from its printed form. */
  lemma ParentRoundTrip(parent: u32)
    ensures ParseMajorMinor(PrintParent(parent)) == Some(parent)
  {
    var major, minor := parent / 0x1_0000, parent % 0x1_0000;
    HalvesRejoin(parent);
    ParseTwoHalves(major, minor);
  }

  /** More than one colon is an error. */
  lemma TooManyParts(s: string)
    requires multiset(s)[':'] > 1
    ensures ParseMajorMinor(s) == None
  {
    SplitCount(s, ':');
  }
}
