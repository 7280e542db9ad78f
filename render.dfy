/** The two `sprintf` conversions the configuration rows use: `%i` for the
    integer settings and `%0.2f` for the range, the latter on a value kept
    in hundredths. Each rendering has a parser as its partner. */
module Render {

  /** The character of a digit value. */
  function DigitChar(d: int): (c: char)
    requires 0 <= d <= 9
    ensures '0' <= c <= '9'
  {
    ('0' as int + d) as char
  }

  predicate AllDigits(s: string) {
    forall i | 0 <= i < |s| :: '0' <= s[i] <= '9'
  }

  function Pow10(k: nat): (p: nat)
    ensures p >= 1
  {
    if k == 0 then 1 else 10 * Pow10(k - 1)
  }

  /** Decimal digits of `n`, most significant first, without leading zeros. */
  function NatToDecimal(n: nat): (s: string)
    ensures 1 <= |s|
    ensures AllDigits(s)
    ensures s[0] == '0' ==> n == 0
    decreases n
  {
    if n < 10 then [DigitChar(n)] else NatToDecimal(n / 10) + [DigitChar(n % 10)]
  }

  /** The value of a string of decimal digits (the parser partner of NatToDecimal). */
  function DecimalValue(s: string): nat
    requires AllDigits(s)
  {
    if s == [] then 0 else 10 * DecimalValue(s[..|s| - 1]) + (s[|s| - 1] as int - '0' as int)
  }

  /** `%i` of an `int`. */
  function IntToDecimal(n: int): (s: string)
    ensures 1 <= |s|
    ensures n >= 0 ==> AllDigits(s)
    ensures n < 0 ==> s[0] == '-' && AllDigits(s[1..])
  {
    if n < 0 then "-" + NatToDecimal(-n) else NatToDecimal(n)
  }

  /** The value of an optionally signed decimal (the parser partner of IntToDecimal). */
  function SignedValue(s: string): int
    requires 1 <= |s|
    requires AllDigits(s) || (s[0] == '-' && AllDigits(s[1..]))
  {
    if s[0] == '-' then -(DecimalValue(s[1..]) as int) else DecimalValue(s)
  }

  /** `%0.2f` of `hundredths / 100`: integer part, '.', exactly two fraction digits. */
  function FixedPoint2(hundredths: nat): (s: string)
    ensures |s| >= 4 && s[|s| - 3] == '.'
    ensures AllDigits(s[..|s| - 3]) && AllDigits(s[|s| - 2..])
  {
    NatToDecimal(hundredths / 100) + "." + [DigitChar(hundredths / 10 % 10), DigitChar(hundredths % 10)]
  }

  /** Parsing a rendered natural number gives it back. */
  lemma {:induction false} DecimalRoundTrip(n: nat)
    ensures DecimalValue(NatToDecimal(n)) == n
    decreases n
  {
    if n >= 10 {
      var s := NatToDecimal(n);
      assert s[..|s| - 1] == NatToDecimal(n / 10);
      DecimalRoundTrip(n / 10);
    }
  }

  /** Parsing a rendered `%i` gives the integer back. */
  lemma IntRoundTrip(n: int)
    ensures SignedValue(IntToDecimal(n)) == n
  {
    if n < 0 {
      var s := IntToDecimal(n);
      assert s[1..] == NatToDecimal(-n);
      DecimalRoundTrip(-n);
    } else {
      DecimalRoundTrip(n);
      assert IntToDecimal(n)[0] != '-';
    }
  }

  /** A number below 10^k renders in at most k digits. */
  lemma {:induction false} DecimalLength(n: nat, k: nat)
    requires 1 <= k && n < Pow10(k)
    ensures |NatToDecimal(n)| <= k
    decreases k
  {
    if n >= 10 {
      assert Pow10(1) == 10;
      assert k >= 2;
      DecimalLength(n / 10, k - 1);
    }
  }

  /** A number at or above 10^(k-1) renders in at least k digits. */
  lemma {:induction false} DecimalLengthAtLeast(n: nat, k: nat)
    requires 1 <= k && Pow10(k - 1) <= n
    ensures |NatToDecimal(n)| >= k
    decreases k
  {
    if k > 1 {
      assert n / 10 >= Pow10(k - 2);
      DecimalLengthAtLeast(n / 10, k - 1);
    }
  }

  /** The `%0.2f` text of a hundredths value reads back as the same value. */
  lemma FixedPointRoundTrip(hundredths: nat)
    ensures var s := FixedPoint2(hundredths);
      100 * DecimalValue(s[..|s| - 3]) + 10 * (s[|s| - 2] as int - '0' as int) + (s[|s| - 1] as int - '0' as int)
        == hundredths
  {
    var s := FixedPoint2(hundredths);
    assert s[..|s| - 3] == NatToDecimal(hundredths / 100);
    DecimalRoundTrip(hundredths / 100);
  }
}
