/** Texts: unsigned numbers in decimal and hexadecimal, splitting, trimming and letter case. */
module Texts {
  import opened Collections

  predicate IsBase(base: nat) {
    base == 10 || base == 16
  }

  function DigitChar(d: nat): char
    requires d < 16
  {
    "0123456789abcdef"[d]
  }

  function DigitValue(c: char): Option<nat> {
    if '0' <= c <= '9' then Some((c - '0') as nat)
    else if 'a' <= c <= 'f' then Some((c - 'a') as nat + 10)
    else if 'A' <= c <= 'F' then Some((c - 'A') as nat + 10)
    else None
  }

  function Format(n: nat, base: nat): (s: string)
    requires IsBase(base)
    ensures s != []
    decreases n
  {
    if n < base then [DigitChar(n)] else Format(n / base, base) + [DigitChar(n % base)]
  }

  function ParseDigits(s: string, base: nat): Option<nat> {
    if s == [] then Some(0)
    else
      var high := ParseDigits(s[..|s| - 1], base);
      var low := DigitValue(s[|s| - 1]);
      if high.Some? && low.Some? && low.value < base then Some(high.value * base + low.value) else None
  }

  /** The number that a text stands for, unless it is empty, has a character that is no digit, or reaches `limit`. */
  function ParseUint(s: string, base: nat, limit: nat): (r: Option<nat>)
    ensures r.Some? ==> r.value < limit
  {
    if s != [] && ParseDigits(s, base).Some? && ParseDigits(s, base).value < limit then ParseDigits(s, base) else None
  }

  lemma DigitRoundTrip(d: nat)
    requires d < 16
    ensures DigitValue(DigitChar(d)) == Some(d)
  {
  }

  lemma DigitAppended(s: string, high: nat, low: nat, base: nat)
    requires IsBase(base) && low < base && ParseDigits(s, base) == Some(high)
    ensures ParseDigits(s + [DigitChar(low)], base) == Some(high * base + low)
  {
    DigitRoundTrip(low);
    assert (s + [DigitChar(low)])[..|s|] == s;
  }

  lemma {:induction false} FormatParses(n: nat, base: nat)
    requires IsBase(base)
    ensures ParseDigits(Format(n, base), base) == Some(n)
    decreases n
  {
    if n < base {
      DigitRoundTrip(n);
      assert Format(n, base)[..0] == [];
    } else {
      FormatParses(n / base, base);
      DigitAppended(Format(n / base, base), n / base, n % base, base);
    }
  }

  lemma UintRoundTrip(n: nat, base: nat, limit: nat)
    requires IsBase(base) && n < limit
    ensures ParseUint(Format(n, base), base, limit) == Some(n)
  {
    FormatParses(n, base);
  }

  lemma {:induction false} FormatHasDigitsOnly(n: nat, base: nat, c: char)
    requires IsBase(base) && c in Format(n, base)
    ensures DigitValue(c).Some?
    decreases n
  {
    if n < base {
      DigitRoundTrip(n);
    } else if c == DigitChar(n % base) {
      DigitRoundTrip(n % base);
    } else {
      FormatHasDigitsOnly(n / base, base, c);
    }
  }

  // ----- splitting and trimming -----

  /** `strings.Split`: the parts between occurrences of `sep`. */
  function Split(s: string, sep: char): (parts: seq<string>)
    ensures parts != []
  {
    if s == [] then [""]
    else
      var n := |s| - 1;
      var init := Split(s[..n], sep);
      if s[n] == sep then init + [""] else init[..|init| - 1] + [init[|init| - 1] + [s[n]]]
  }

  lemma {:induction false} SplitWithout(s: string, sep: char)
    requires sep !in s
    ensures Split(s, sep) == [s]
  {
    if s != [] {
      var n := |s| - 1;
      SplitWithout(s[..n], sep);
      assert s[..n] + [s[n]] == s;
    }
  }

  lemma {:induction false} SplitOnce(a: string, sep: char, b: string)
    requires sep !in a && sep !in b
    ensures Split(a + [sep] + b, sep) == [a, b]
  {
    var s := a + [sep] + b;
    var n := |s| - 1;
    if b == [] {
      assert s[..n] == a;
      SplitWithout(a, sep);
    } else {
      assert s[..n] == a + [sep] + b[..|b| - 1];
      SplitOnce(a, sep, b[..|b| - 1]);
      assert b == b[..|b| - 1] + [b[|b| - 1]];
    }
  }

  /** There is one part more than there are separators. */
  lemma {:induction false} SplitCount(s: string, sep: char)
    ensures |Split(s, sep)| == 1 + multiset(s)[sep]
  {
    if s != [] {
      var n := |s| - 1;
      SplitCount(s[..n], sep);
      assert s == s[..n] + [s[n]];
    }
  }

  /** Two parts are what is before and what is behind the only separator. */
  lemma SplitInTwo(s: string, sep: char) returns (a: string, b: string)
    requires |Split(s, sep)| == 2
    ensures s == a + [sep] + b && sep !in a && sep !in b && Split(s, sep) == [a, b]
  {
    SplitCount(s, sep);
    assert sep in multiset(s);
    var k :| 0 <= k < |s| && s[k] == sep;
    a, b := s[..k], s[k + 1..];
    assert s == a + [sep] + b;
    assert multiset(s) == multiset(a) + multiset{sep} + multiset(b);
    assert multiset(a)[sep] == 0 && multiset(b)[sep] == 0;
    SplitOnce(a, sep, b);
  }

  predicate IsSpace(c: char) {
    c in " \t\n\r" || c == 11 as char || c == 12 as char
  }

  /** The text without leading and trailing white space. */
  function Trim(s: string): string {
    if s != [] && IsSpace(s[0]) then Trim(s[1..])
    else if s != [] && IsSpace(s[|s| - 1]) then Trim(s[..|s| - 1])
    else s
  }

  predicate AllSpace(s: string) {
    forall i :: 0 <= i < |s| ==> IsSpace(s[i])
  }

  /** Trimming takes white space away on both sides, and all of it. */
  lemma {:induction false} Trimmed(s: string) returns (left: string, right: string)
    ensures s == left + Trim(s) + right && AllSpace(left) && AllSpace(right)
    ensures Trim(s) != [] ==> !IsSpace(Trim(s)[0]) && !IsSpace(Trim(s)[|Trim(s)| - 1])
  {
    left, right := "", "";
    if s != [] && IsSpace(s[0]) {
      left, right := Trimmed(s[1..]);
      assert s == [s[0]] + s[1..];
      left := [s[0]] + left;
    } else if s != [] && IsSpace(s[|s| - 1]) {
      left, right := Trimmed(s[..|s| - 1]);
      assert s == s[..|s| - 1] + [s[|s| - 1]];
      right := right + [s[|s| - 1]];
    }
  }

  // ----- letter case -----

  function LowerChar(c: char): char {
    if 'A' <= c <= 'Z' then (c as int - 'A' as int + 'a' as int) as char else c
  }

  function Lower(s: string): string {
    seq(|s|, i requires 0 <= i < |s| => LowerChar(s[i]))
  }
}
