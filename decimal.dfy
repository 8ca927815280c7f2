/**
 * Decimal numerals: how Python renders an int inside an f-string (`f"{n}"`)
 * and how `int(...)` reads a plain string of digits.
 */
module Decimal {
  import opened Wrappers

  predicate IsDigit(c: char) {
    '0' <= c <= '9'
  }

  /** A non-empty string of decimal digits (leading zeros allowed, as `int("007")` does). */
  predicate IsNumeral(s: string) {
    |s| > 0 && forall i :: 0 <= i < |s| ==> IsDigit(s[i])
  }

  function DigitChar(d: nat): (c: char)
    requires d < 10
    ensures IsDigit(c)
  {
    (48 + d) as char
  }

  function DigitValue(c: char): (d: nat)
    requires IsDigit(c)
    ensures d < 10 && DigitChar(d) == c
  {
    c as int - 48
  }

  /** The value of a string of digits, read most significant digit first. */
  function NumeralValue(s: string): nat
    requires forall i :: 0 <= i < |s| ==> IsDigit(s[i])
  {
    if |s| == 0 then 0 else 10 * NumeralValue(s[..|s| - 1]) + DigitValue(s[|s| - 1])
  }

  /** The decimal rendering of a natural number, without sign or padding. */
  function NatToString(n: nat): (s: string)
    ensures IsNumeral(s)
    ensures ' ' !in s
    ensures s[0] == '0' ==> n == 0
  {
    if n < 10 then [DigitChar(n)] else NatToString(n / 10) + [DigitChar(n % 10)]
  }

  /** The decimal rendering of an integer, with a leading '-' when it is negative. */
  function IntToString(i: int): (s: string)
    ensures |s| > 0 && ' ' !in s
    ensures i < 0 <==> s[0] == '-'
  {
    if i < 0 then "-" + NatToString(-i) else NatToString(i)
  }

  /** Reading a rendered number gives the number back. */
  lemma {:induction false} NumeralRoundTrip(n: nat)
    ensures NumeralValue(NatToString(n)) == n
  {
    if n >= 10 {
      var s := NatToString(n);
      assert s[..|s| - 1] == NatToString(n / 10);
      NumeralRoundTrip(n / 10);
    }
  }

  /** Reads an optional '-' followed by digits, the form `IntToString` writes. */
  function ReadInt(s: string): (r: Option<int>)
    ensures r.Some? <==> IsNumeral(s) || (|s| > 0 && s[0] == '-' && IsNumeral(s[1..]))
  {
    if |s| > 0 && s[0] == '-' && IsNumeral(s[1..]) then Some(0 - NumeralValue(s[1..]))
    else if IsNumeral(s) then Some(NumeralValue(s))
    else None
  }

  /** Reading a rendered integer back, sign and digits, gives the integer. */
  lemma IntRoundTrip(i: int)
    ensures ReadInt(IntToString(i)) == Some(i)
  {
    var s := IntToString(i);
    if i < 0 {
      assert s[1..] == NatToString(-i);
      NumeralRoundTrip(-i);
    } else {
      NumeralRoundTrip(i);
    }
  }
}
