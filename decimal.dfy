/**
 * Decimal text of integers as Rust's standard library writes and reads it:
 * `Display` (and `itoa`) for integers, and `str::parse` (`from_str_radix`
 * with radix 10) for unsigned and signed integer types.
 */
module Decimal {
  import opened Wrappers

  predicate IsDigit(c: char) {
    '0' <= c <= '9'
  }

  function DigitValue(c: char): nat
    requires IsDigit(c)
  {
    (c as int) - ('0' as int)
  }

  function DigitChar(d: nat): char
    requires d < 10
  {
    (('0' as int) + d) as char
  }

  predicate AllDigits(s: string) {
    forall i :: 0 <= i < |s| ==> IsDigit(s[i])
  }

  /** The value of a run of decimal digits, most significant first. */
  function DigitsValue(s: string): nat
    requires AllDigits(s)
  {
    if s == [] then 0 else DigitsValue(s[..|s| - 1]) * 10 + DigitValue(s[|s| - 1])
  }

  /** `Display` of a non-negative integer: shortest decimal digits, no sign. */
  function NatToString(n: nat): string
  {
    if n < 10 then [DigitChar(n)] else NatToString(n / 10) + [DigitChar(n % 10)]
  }

  /** `Display` of a signed integer: a `-` in front of negative values. */
  function IntToString(i: int): string
  {
    if i < 0 then "-" + NatToString(-i) else NatToString(i)
  }

  /**
   * `str::parse` into an unsigned type whose largest value is `max`: the
   * empty string and a lone sign fail, one leading `+` is skipped, a `-` is
   * not a digit, every other character must be a digit, and a value above
   * `max` overflows.
   */
  function ParseUnsigned(s: string, max: nat): (r: Option<nat>)
    ensures r.Some? ==> r.value <= max
  {
    if |s| == 0 then None
    else if (s[0] == '+' || s[0] == '-') && |s| == 1 then None
    else
      var digits := if s[0] == '+' then s[1..] else s;
      if AllDigits(digits) && DigitsValue(digits) <= max then Some(DigitsValue(digits)) else None
  }

  /**
   * `str::parse` into a signed type with range `min..=max`: as for unsigned
   * types, except that one leading `-` negates the value.
   */
  function ParseSigned(s: string, min: int, max: int): (r: Option<int>)
    ensures r.Some? ==> min <= r.value <= max
  {
    if |s| == 0 then None
    else if (s[0] == '+' || s[0] == '-') && |s| == 1 then None
    else
      var digits := if s[0] == '+' || s[0] == '-' then s[1..] else s;
      if !AllDigits(digits) then None
      else
        var v: int := if s[0] == '-' then -(DigitsValue(digits) as int) else DigitsValue(digits);
        if min <= v <= max then Some(v) else None
  }

  /** The decimal text of `n` is a non-empty run of digits worth `n`. */
  lemma {:induction false} NatToStringDigits(n: nat)
    ensures |NatToString(n)| >= 1
    ensures AllDigits(NatToString(n))
    ensures DigitsValue(NatToString(n)) == n
  {
    if n >= 10 {
      NatToStringDigits(n / 10);
      var s := NatToString(n);
      assert s[..|s| - 1] == NatToString(n / 10);
    }
  }

  /** The decimal text is canonical: no leading zero unless it is `0` itself. */
  lemma {:induction false} NatToStringNoLeadingZero(n: nat)
    ensures |NatToString(n)| > 1 ==> NatToString(n)[0] != '0'
    ensures NatToString(n)[0] == '0' ==> n == 0
  {
    if n >= 10 {
      NatToStringNoLeadingZero(n / 10);
      NatToStringDigits(n / 10);
    }
  }

  /** Parsing the decimal text of an in-range value gives that value back. */
  lemma ParseUnsignedRoundTrip(n: nat, max: nat)
    requires n <= max
    ensures ParseUnsigned(NatToString(n), max) == Some(n)
  {
    NatToStringDigits(n);
  }

  /** Parsing the text of a value above `max` overflows. */
  lemma ParseUnsignedOverflow(n: nat, max: nat)
    requires n > max
    ensures ParseUnsigned(NatToString(n), max) == None
  {
    NatToStringDigits(n);
  }

  /** The decimal text of a non-negative value starts with a digit. */
  lemma NatToStringNoSign(n: nat)
    ensures IsDigit(NatToString(n)[0])
  {
    NatToStringDigits(n);
  }

  /** Parsing the decimal text of a signed value in range gives it back. */
  lemma ParseSignedRoundTrip(i: int, min: int, max: int)
    requires min <= i <= max
    ensures ParseSigned(IntToString(i), min, max) == Some(i)
  {
    if i < 0 {
      var n: nat := -i;
      NatToStringDigits(n);
      var s := "-" + NatToString(n);
      assert IntToString(i) == s;
      assert s[0] == '-' && s[1..] == NatToString(n) && |s| > 1;
      assert -(DigitsValue(s[1..]) as int) == i;
    } else {
      NatToStringDigits(i);
      NatToStringNoSign(i);
      var s := NatToString(i);
      assert s[0] != '+' && s[0] != '-';
    }
  }

  /** An unsigned parse fails on every string that contains a `-`. */
  lemma ParseUnsignedRejectsDash(s: string, max: nat)
    requires '-' in s
    ensures ParseUnsigned(s, max) == None
  {
    var k :| 0 <= k < |s| && s[k] == '-';
    if |s| > 1 {
      var digits := if s[0] == '+' then s[1..] else s;
      var j := if s[0] == '+' then k - 1 else k;
      assert digits[j] == '-';
    }
  }

  /** One leading `0` does not change the parsed value: parsing is not injective. */
  lemma {:induction false} LeadingZeroIgnored(s: string)
    requires AllDigits(s)
    ensures AllDigits("0" + s) && DigitsValue("0" + s) == DigitsValue(s)
  {
    if s != [] {
      LeadingZeroIgnored(s[..|s| - 1]);
      assert ("0" + s)[..|s|] == "0" + s[..|s| - 1];
    }
  }
}
