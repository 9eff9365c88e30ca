/**
  Decimal integers: Rust's `from_str` for the integer types the codecs parse
  (`u16`, `usize`, `i8`) and their `Display`. `usize` is taken to be 64 bits wide.
 */
module Decimal {
  import opened Base
  import opened Text

  const U16_MAX: nat := 0xFFFF
  const USIZE_MAX: nat := 0xFFFF_FFFF_FFFF_FFFF
  const I8_MIN: int := -128
  const I8_MAX: int := 127

  /** Rust's `i8`. */
  type I8 = i: int | -128 <= i <= 127

  predicate AllDigits(s: string) {
    forall i :: 0 <= i < |s| ==> IsAsciiDigit(s[i])
  }

  function DigitValue(c: char): nat
    requires IsAsciiDigit(c)
  {
    (c as int) - ('0' as int)
  }

  function DigitChar(d: nat): (c: char)
    requires d < 10
    ensures IsAsciiDigit(c) && DigitValue(c) == d
  {
    (('0' as int) + d) as char
  }

  /** The value of a run of decimal digits, most significant first (leading zeros allowed). */
  function DigitsValue(s: string): nat
    requires AllDigits(s)
    decreases |s|
  {
    if |s| == 0 then 0 else DigitsValue(s[..|s| - 1]) * 10 + DigitValue(s[|s| - 1])
  }

  /** `Display` of a non-negative integer: no sign, no leading zero. */
  function NatToString(n: nat): (r: string)
    ensures |r| >= 1 && AllDigits(r)
    decreases n
  {
    (if n < 10 then "" else NatToString(n / 10)) + [DigitChar(n % 10)]
  }

  /** `Display` of a signed integer. */
  function IntToString(i: int): (r: string)
    ensures |r| >= 1
  {
    if i < 0 then "-" + NatToString(-i) else NatToString(i)
  }

  lemma {:induction false} NatToStringValue(n: nat)
    ensures DigitsValue(NatToString(n)) == n
    decreases n
  {
    var prefix := if n < 10 then "" else NatToString(n / 10);
    var r := prefix + [DigitChar(n % 10)];
    assert r == NatToString(n);
    assert r[..|r| - 1] == prefix;
    assert DigitsValue(r) == DigitsValue(prefix) * 10 + n % 10;
    if n >= 10 {
      NatToStringValue(n / 10);
      assert DigitsValue(prefix) == n / 10;
    }
  }

  /** Rust's `from_str` for an unsigned type whose largest value is `max`: an optional '+', then digits. */
  function ParseUnsigned(s: string, max: nat): (r: Option<nat>)
    ensures r.Some? ==> r.value <= max
  {
    var body := if |s| > 0 && s[0] == '+' then s[1..] else s;
    if |body| > 0 && AllDigits(body) && DigitsValue(body) <= max then Some(DigitsValue(body)) else None
  }

  /** Rust's `from_str` for a signed type with range `min..=max`: an optional '+' or '-', then digits. */
  function ParseSigned(s: string, min: int, max: int): (r: Option<int>)
    ensures r.Some? ==> min <= r.value <= max
  {
    var negative := |s| > 0 && s[0] == '-';
    var body := if |s| > 0 && (s[0] == '-' || s[0] == '+') then s[1..] else s;
    if |body| > 0 && AllDigits(body) then
      var v := if negative then -(DigitsValue(body) as int) else DigitsValue(body);
      if min <= v <= max then Some(v) else None
    else None
  }

  function ParseU16(s: string): Option<nat> {
    ParseUnsigned(s, U16_MAX)
  }

  function ParseUsize(s: string): Option<nat> {
    ParseUnsigned(s, USIZE_MAX)
  }

  function ParseI8(s: string): Option<int> {
    ParseSigned(s, I8_MIN, I8_MAX)
  }

  /** Parsing fails on the empty text and on text holding a character that is neither a digit nor a leading sign. */
  lemma ParseUnsignedRejects(s: string, max: nat)
    requires |s| == 0 || (exists i :: 1 <= i < |s| && !IsAsciiDigit(s[i])) || (!IsAsciiDigit(s[0]) && s[0] != '+')
    ensures ParseUnsigned(s, max) == None
  {
    if |s| > 0 && s[0] == '+' {
      var i :| 1 <= i < |s| && !IsAsciiDigit(s[i]);
      assert s[1..][i - 1] == s[i];
    }
  }

  /** `Display` then `from_str` gives every value in range back. */
  lemma ParseUnsignedOfNatToString(n: nat, max: nat)
    requires n <= max
    ensures ParseUnsigned(NatToString(n), max) == Some(n)
  {
    NatToStringValue(n);
  }

  lemma ParseSignedOfIntToString(i: int, min: int, max: int)
    requires min <= i <= max
    ensures ParseSigned(IntToString(i), min, max) == Some(i)
  {
    if i < 0 {
      ParseSignedOfNegative(i, min, max);
    } else {
      ParseSignedOfNonNegative(i, min, max);
    }
  }

  lemma ParseSignedOfNegative(i: int, min: int, max: int)
    requires min <= i <= max && i < 0
    ensures ParseSigned(IntToString(i), min, max) == Some(i)
  {
    var n: nat := -i;
    var body := NatToString(n);
    NatToStringValue(n);
    assert IntToString(i) == "-" + body;
    assert -(DigitsValue(body) as int) == i;
    SignedBody(IntToString(i), body, true, min, max);
  }

  lemma ParseSignedOfNonNegative(i: int, min: int, max: int)
    requires min <= i <= max && i >= 0
    ensures ParseSigned(IntToString(i), min, max) == Some(i)
  {
    var t := IntToString(i);
    var body := NatToString(i);
    NatToStringValue(i);
    assert t == body;
    SignedBody(t, body, false, min, max);
  }

  lemma SignedBody(t: string, body: string, negative: bool, min: int, max: int)
    requires |body| > 0 && AllDigits(body)
    requires negative ==> t == "-" + body
    requires !negative ==> t == body
    requires min <= (if negative then -(DigitsValue(body) as int) else DigitsValue(body)) <= max
    ensures ParseSigned(t, min, max) == Some(if negative then -(DigitsValue(body) as int) else DigitsValue(body))
  {
    if negative {
      assert t[0] == '-' && t[1..] == body;
    } else {
      assert t[0] != '-' && t[0] != '+';
    }
  }

  /** A digit run parses to its value when it is in range; an empty run never parses. */
  lemma ParseUnsignedOfDigits(s: string, max: nat)
    requires AllDigits(s)
    ensures ParseUnsigned(s, max) == if |s| > 0 && DigitsValue(s) <= max then Some(DigitsValue(s)) else None
  {
  }

  lemma ParseSignedOfDigits(s: string, min: int, max: int)
    requires AllDigits(s) && min <= 0
    ensures ParseSigned(s, min, max) == if |s| > 0 && DigitsValue(s) <= max then Some(DigitsValue(s) as int) else None
  {
  }

  /** A run of digits holds no other character. */
  lemma NotInDigits(s: string, c: char)
    requires AllDigits(s) && !IsAsciiDigit(c)
    ensures c !in s
  {
  }

  /** A digit starting an unsigned parse: `Display` of a natural number starts with a digit. */
  lemma NatToStringShape(n: nat)
    ensures IsAsciiDigit(NatToString(n)[0]) && IsWord(NatToString(n)) && Trimmed(NatToString(n)) && NoNewline(NatToString(n))
  {
    var t := NatToString(n);
    assert forall i :: 0 <= i < |t| ==> IsAsciiDigit(t[i]);
    NotInDigits(t, '\n');
  }
}
