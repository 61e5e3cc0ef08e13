/**
 * Python's `str()` of an integer identifier: decimal digits, most significant
 * first, with a leading '-' for a negative number.  The reader for that
 * notation is kept beside it so that the notation is shown to be unambiguous.
 */
module Decimal {
  import opened Outcomes

  predicate IsDigit(c: char) {
    '0' <= c <= '9'
  }

  predicate AllDigits(s: string) {
    forall i :: 0 <= i < |s| ==> IsDigit(s[i])
  }

  function DigitChar(d: nat): (c: char)
    requires d < 10
    ensures IsDigit(c)
  {
    "0123456789"[d]
  }

  function DigitValue(c: char): (d: nat)
    requires IsDigit(c)
    ensures d < 10
  {
    c as int - '0' as int
  }

  /** Decimal notation of a natural number, without leading zeros. */
  function NatToString(n: nat): (s: string)
    ensures |s| > 0 && AllDigits(s)
    ensures n > 0 ==> s[0] != '0'
    ensures n == 0 ==> s == "0"
    decreases n
  {
    if n < 10 then [DigitChar(n)] else NatToString(n / 10) + [DigitChar(n % 10)]
  }

  /** `str(n)` for a Python int. */
  function IntToString(n: int): (s: string)
    ensures |s| > 0
    ensures s[0] == '-' <==> n < 0
    ensures s[0] != '-' ==> IsDigit(s[0])
    ensures n > 0 ==> s[0] != '0'
    ensures n < 0 ==> |s| > 1 && s[1] != '0'
    ensures n == 0 ==> s == "0"
  {
    if n < 0 then "-" + NatToString(-n) else NatToString(n)
  }

  /** The value of a string of digits read as a decimal number. */
  function DigitsValue(s: string): nat
    requires AllDigits(s)
  {
    if s == [] then 0 else DigitsValue(s[..|s| - 1]) * 10 + DigitValue(s[|s| - 1])
  }

  /** Length of the longest prefix of `s` made of digits. */
  function DigitRun(s: string): (k: nat)
    ensures k <= |s|
    ensures forall i :: 0 <= i < k ==> IsDigit(s[i])
    ensures k < |s| ==> !IsDigit(s[k])
  {
    if s == [] || !IsDigit(s[0]) then 0 else 1 + DigitRun(s[1..])
  }

  /** Reads the longest run of digits at the head of `s`; at least one digit is needed. */
  function ParseNat(s: string): (r: Option<(nat, string)>)
    ensures r.Some? ==> |r.value.1| < |s|
  {
    var k := DigitRun(s);
    if k == 0 then None else Some((DigitsValue(s[..k]), s[k..]))
  }

  /** Reads an optional '-' followed by a run of digits at the head of `s`. */
  function ParseInt(s: string): (r: Option<(int, string)>)
    ensures r.Some? ==> |r.value.1| < |s|
  {
    var negative := |s| > 0 && s[0] == '-';
    var digits := ParseNat(if negative then s[1..] else s);
    if digits.None? then None
    else
      var magnitude: int := digits.value.0;
      Some((if negative then 0 - magnitude else magnitude, digits.value.1))
  }

  lemma {:induction false} DigitsValueOfNatToString(n: nat)
    ensures DigitsValue(NatToString(n)) == n
    decreases n
  {
    var s := NatToString(n);
    if n < 10 {
      assert s[..|s| - 1] == [];
    } else {
      assert s[..|s| - 1] == NatToString(n / 10);
      DigitsValueOfNatToString(n / 10);
    }
  }

  lemma {:induction false} DigitRunOfDigits(d: string, rest: string)
    requires AllDigits(d)
    requires rest == [] || !IsDigit(rest[0])
    ensures DigitRun(d + rest) == |d|
    decreases |d|
  {
    if d != [] {
      assert (d + rest)[1..] == d[1..] + rest;
      DigitRunOfDigits(d[1..], rest);
    }
  }

  /** Reading back `str(n)` gives `n`, leaving whatever followed it untouched. */
  lemma {:induction false} ParseNatRoundTrip(n: nat, rest: string)
    requires rest == [] || !IsDigit(rest[0])
    ensures ParseNat(NatToString(n) + rest) == Some((n, rest))
  {
    var d := NatToString(n);
    DigitRunOfDigits(d, rest);
    assert (d + rest)[..|d|] == d;
    assert (d + rest)[|d|..] == rest;
    DigitsValueOfNatToString(n);
  }

  /** `str()` of an int is read back as the same int. */
  lemma ParseIntRoundTrip(n: int, rest: string)
    requires rest == [] || !IsDigit(rest[0])
    ensures ParseInt(IntToString(n) + rest) == Some((n, rest))
  {
    if n < 0 {
      ParseNegativeRoundTrip(n, rest);
    } else {
      ParseNonNegativeRoundTrip(n, rest);
    }
  }

  lemma ParseNegativeRoundTrip(n: int, rest: string)
    requires n < 0
    requires rest == [] || !IsDigit(rest[0])
    ensures ParseInt(IntToString(n) + rest) == Some((n, rest))
  {
    var k: nat := -n;
    var d := NatToString(k);
    assert IntToString(n) == "-" + d;
    assert IntToString(n) + rest == "-" + (d + rest);
    ParseNatRoundTrip(k, rest);
    ParseIntMinus(d + rest);
  }

  /** After a '-' the reader reads a natural number and negates it. */
  lemma ParseIntMinus(t: string)
    ensures ParseInt("-" + t) ==
      if ParseNat(t).None? then None else Some((0 - ParseNat(t).value.0, ParseNat(t).value.1))
  {
    assert ("-" + t)[0] == '-';
    assert ("-" + t)[1..] == t;
  }

  lemma ParseNonNegativeRoundTrip(n: nat, rest: string)
    requires rest == [] || !IsDigit(rest[0])
    ensures ParseInt(IntToString(n) + rest) == Some((n, rest))
  {
    var d := NatToString(n);
    var s := d + rest;
    assert IntToString(n) + rest == s;
    assert s[0] == d[0] && IsDigit(d[0]);
    ParseNatRoundTrip(n, rest);
  }

  /** Distinct ids print differently. */
  lemma IntToStringInjective(n: int, k: int)
    requires IntToString(n) == IntToString(k)
    ensures n == k
  {
    ParseIntRoundTrip(n, []);
    ParseIntRoundTrip(k, []);
    assert IntToString(n) + [] == IntToString(n);
    assert IntToString(k) + [] == IntToString(k);
  }
}
