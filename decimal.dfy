/**
 * Decimal text of an integer: an optional '-' and the digits, no leading
 * zeros. A JavaScript template literal `${n}` writes an integer-valued number
 * this way while its magnitude stays below 2^53, which covers the stakes
 * (10 to 5000) and base entries (10 to 1000) it renders here. Exponent
 * notation (from 10^21 on) and the rounding of larger doubles are not
 * modelled.
 */
module Decimal {

  predicate IsDigit(c: char) {
    '0' <= c <= '9'
  }

  function DigitChar(d: int): (c: char)
    requires 0 <= d < 10
    ensures IsDigit(c) && c as int - '0' as int == d
  {
    (d + '0' as int) as char
  }

  /** The digits of `n`, most significant first. */
  function NatToString(n: nat): (s: string)
    ensures |s| >= 1
    ensures forall i | 0 <= i < |s| :: IsDigit(s[i])
    decreases n
  {
    if n < 10 then [DigitChar(n)] else NatToString(n / 10) + [DigitChar(n % 10)]
  }

  function IntToString(n: int): string {
    if n < 0 then "-" + NatToString(-n) else NatToString(n)
  }

  /** Reads a string of digits back as a number. */
  function ParseDigits(s: string): nat
    requires forall i | 0 <= i < |s| :: IsDigit(s[i])
    decreases |s|
  {
    if s == [] then 0
    else
      var last := s[|s| - 1];
      assert IsDigit(last);
      ParseDigits(s[..|s| - 1]) * 10 + (last as int - '0' as int)
  }

  lemma {:induction false} ParseDigitsOfNatToString(n: nat)
    ensures ParseDigits(NatToString(n)) == n
    decreases n
  {
    if n >= 10 {
      var s := NatToString(n);
      assert s[..|s| - 1] == NatToString(n / 10);
      ParseDigitsOfNatToString(n / 10);
    }
  }

  /** A negative number's text starts with '-', any other number's with a digit. */
  lemma SignOfText(n: int)
    ensures |IntToString(n)| >= 1
    ensures n < 0 <==> IntToString(n)[0] == '-'
  {
    if n >= 0 {
      assert IsDigit(NatToString(n)[0]);
    }
  }

  /** Different integers are written differently. */
  lemma IntToStringInjective(a: int, b: int)
    requires IntToString(a) == IntToString(b)
    ensures a == b
  {
    SignOfText(a);
    SignOfText(b);
    var t := IntToString(a);
    if a < 0 {
      assert b < 0;
      assert NatToString(-a) == t[1..] == NatToString(-b);
      ParseDigitsOfNatToString(-a);
      ParseDigitsOfNatToString(-b);
    } else {
      assert b >= 0;
      ParseDigitsOfNatToString(a);
      ParseDigitsOfNatToString(b);
    }
  }
}
