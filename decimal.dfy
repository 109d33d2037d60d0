/**
 * Go's `%d` verb for integers: an optional '-' followed by the decimal digits
 * of the magnitude, most significant first, with no leading zeros.
 */
module Decimal {
  import opened Wrappers

  predicate IsDigit(c: char) {
    '0' <= c <= '9'
  }

  function DigitValue(c: char): (d: nat)
    requires IsDigit(c)
    ensures d < 10
  {
    (c as int) - ('0' as int)
  }

  function DigitChar(d: nat): (c: char)
    requires d < 10
    ensures IsDigit(c) && DigitValue(c) == d
  {
    ('0' as int + d) as char
  }

  /** The digits of `n` without sign or leading zeros ("0" for zero). */
  function NatDigits(n: nat): (s: string)
    ensures 0 < |s|
    ensures forall i :: 0 <= i < |s| ==> IsDigit(s[i])
    ensures |s| > 1 ==> s[0] != '0'
  {
    if n < 10 then [DigitChar(n)] else NatDigits(n / 10) + [DigitChar(n % 10)]
  }

  /** What `fmt.Sprintf("%d", n)` produces. */
  function FormatInt(n: int): (s: string)
    ensures 0 < |s|
  {
    if n < 0 then "-" + NatDigits(-n) else NatDigits(n)
  }

  /** Reads back a non-empty run of digits, the inverse of NatDigits. */
  function DigitsValue(s: string): (n: Option<nat>)
    ensures |s| == 0 ==> n == None
  {
    if |s| == 0 then None
    else if !IsDigit(s[|s| - 1]) then None
    else if |s| == 1 then Some(DigitValue(s[0]))
    else match DigitsValue(s[..|s| - 1])
      case None => None
      case Some(high) => Some(high * 10 + DigitValue(s[|s| - 1]))
  }

  /** Reads back what FormatInt writes: an optional '-' and a run of digits. */
  function ParseInt(s: string): Option<int> {
    if 0 < |s| && s[0] == '-' then
      match DigitsValue(s[1..])
      case None => None
      case Some(m) => Some(0 - m)
    else
      match DigitsValue(s)
      case None => None
      case Some(m) => Some(m)
  }

  lemma {:induction false} NatDigitsRoundTrip(n: nat)
    ensures DigitsValue(NatDigits(n)) == Some(n)
  {
    if n >= 10 {
      NatDigitsRoundTrip(n / 10);
      var s := NatDigits(n);
      assert s[..|s| - 1] == NatDigits(n / 10);
    }
  }

  /** Printing a number with `%d` loses nothing: it can be read back exactly. */
  lemma FormatIntRoundTrip(n: int)
    ensures ParseInt(FormatInt(n)) == Some(n)
  {
    if n < 0 {
      NegativeRoundTrip(n);
    } else {
      NatDigitsRoundTrip(n);
    }
  }

  lemma NegativeRoundTrip(n: int)
    requires n < 0
    ensures ParseInt("-" + NatDigits(-n)) == Some(n)
  {
    NatDigitsRoundTrip(-n);
    assert ("-" + NatDigits(-n))[1..] == NatDigits(-n);
  }

  /** The text of a number never contains a character that could end a line or a label. */
  lemma FormatIntCharacters(n: int, i: int)
    requires 0 <= i < |FormatInt(n)|
    ensures IsDigit(FormatInt(n)[i]) || (i == 0 && n < 0 && FormatInt(n)[i] == '-')
  {
  }
}
