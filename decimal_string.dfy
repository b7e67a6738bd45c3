/**
 * Decimal rendering of integers as string interpolation writes them (an
 * optional `-` and the digits, no leading zeros), its inverse, and the
 * `-?\d+` pattern of the file-name regexes over ASCII digits.
 */
module DecimalString {
  import opened Wrappers

  predicate IsDigit(c: char)
  {
    '0' <= c <= '9'
  }

  predicate AllDigits(s: string)
  {
    forall i :: 0 <= i < |s| ==> IsDigit(s[i])
  }

  /** `-?\d+`: an optional minus sign followed by at least one digit. */
  predicate IsSignedDecimal(s: string)
  {
    || (|s| >= 1 && AllDigits(s))
    || (|s| >= 2 && s[0] == '-' && AllDigits(s[1..]))
  }

  function DigitChar(d: int): (c: char)
    requires 0 <= d < 10
    ensures IsDigit(c) && DigitValue(c) == d
  {
    ('0' as int + d) as char
  }

  function DigitValue(c: char): int
    requires IsDigit(c)
  {
    c as int - '0' as int
  }

  function NatToString(n: nat): (s: string)
    ensures |s| >= 1 && AllDigits(s)
    ensures |s| > 1 ==> s[0] != '0'
  {
    if n < 10 then [DigitChar(n)] else NatToString(n / 10) + [DigitChar(n % 10)]
  }

  /** `$"{n}"` for an `int`. */
  function IntToString(n: int): (s: string)
    ensures IsSignedDecimal(s)
    ensures (n < 0) <==> s[0] == '-'
  {
    if n < 0 then
      var d := NatToString(-n);
      assert ("-" + d)[1..] == d;
      "-" + d
    else NatToString(n)
  }

  function ParseNat(s: string): nat
    requires AllDigits(s)
  {
    if s == [] then 0 else ParseNat(s[..|s| - 1]) * 10 + DigitValue(s[|s| - 1])
  }

  /** The value a `-?\d+` match denotes. */
  function ParseInt(s: string): (r: Option<int>)
    ensures r.Some? <==> IsSignedDecimal(s)
  {
    if |s| >= 1 && AllDigits(s) then Some(ParseNat(s))
    else if |s| >= 2 && s[0] == '-' && AllDigits(s[1..]) then
      var v := -(ParseNat(s[1..]) as int);
      Some(v)
    else None
  }

  lemma {:induction false} NatRoundTrip(n: nat)
    ensures ParseNat(NatToString(n)) == n
  {
    if n >= 10 {
      var s := NatToString(n);
      assert s[..|s| - 1] == NatToString(n / 10);
      NatRoundTrip(n / 10);
    }
  }

  /** Reading the rendering back gives the number: no two integers share a name. */
  lemma IntRoundTrip(n: int)
    ensures ParseInt(IntToString(n)) == Some(n)
  {
    if n < 0 {
      NatRoundTrip(-n);
      assert IntToString(n)[1..] == NatToString(-n);
    } else {
      NatRoundTrip(n);
    }
  }

  lemma IntToStringIsInjective(m: int, n: int)
    ensures IntToString(m) == IntToString(n) ==> m == n
  {
    IntRoundTrip(m);
    IntRoundTrip(n);
  }

  /** No character of a signed decimal is a `.`, so a `.` separates matches unambiguously. */
  lemma SignedDecimalHasNoDot(s: string, i: int)
    requires IsSignedDecimal(s) && 0 <= i < |s|
    ensures s[i] != '.'
  {
    if !(|s| >= 1 && AllDigits(s)) {
      if i > 0 {
        assert s[1..][i - 1] == s[i];
      }
    }
  }
}
