/**
 * Printing and reading back integers in base 10, as JavaScript's
 * Number.prototype.toString does for an integral number below 2^53 in
 * magnitude: an optional '-' followed by digits, without leading zeros.
 */
module Decimal {
  import opened Wrappers

  predicate IsDigit(c: char) { '0' <= c <= '9' }

  predicate IsDigits(s: string) { forall i :: 0 <= i < |s| ==> IsDigit(s[i]) }

  /** A non-empty digit string with no superfluous leading zero. */
  predicate IsNatLiteral(s: string) {
    |s| >= 1 && IsDigits(s) && (s[0] == '0' ==> |s| == 1)
  }

  /** The canonical form of an integer: "0", "17", "-3"; never "-0" or "007". */
  predicate IsIntegerLiteral(s: string) {
    IsNatLiteral(s) || (|s| >= 2 && s[0] == '-' && IsNatLiteral(s[1..]) && s[1] != '0')
  }

  function DigitChar(d: nat): (c: char)
    requires d < 10
    ensures IsDigit(c) && (c as int) - ('0' as int) == d
  {
    (('0' as int) + d) as char
  }

  /** The value of a digit string, most significant digit first. */
  function DigitsValue(s: string): nat
    requires IsDigits(s)
  {
    if s == [] then 0
    else 10 * DigitsValue(s[..|s| - 1]) + ((s[|s| - 1] as int) - ('0' as int))
  }

  /** The digits of n, most significant first. */
  function NatToDecimal(n: nat): (s: string)
    ensures IsNatLiteral(s)
    ensures n == 0 <==> s == "0"
  {
    if n < 10 then [DigitChar(n)] else NatToDecimal(n / 10) + [DigitChar(n % 10)]
  }

  /** The canonical decimal form of n. */
  function IntToDecimal(n: int): (s: string)
    ensures IsIntegerLiteral(s)
    ensures (n < 0) <==> s[0] == '-'
  {
    if n < 0 then "-" + NatToDecimal(-n) else NatToDecimal(n)
  }

  /**
   * Reads back an optionally signed digit string with no superfluous
   * leading zero ("-0" is accepted and reads as 0). Anything else is None.
   */
  function ParseInteger(s: string): Option<int> {
    if IsNatLiteral(s) then Some(DigitsValue(s))
    else if |s| >= 2 && s[0] == '-' && IsNatLiteral(s[1..]) then Some(-(DigitsValue(s[1..]) as int))
    else None
  }

  lemma {:induction false} NatToDecimalValue(n: nat)
    ensures DigitsValue(NatToDecimal(n)) == n
  {
    var s := NatToDecimal(n);
    if n >= 10 {
      NatToDecimalValue(n / 10);
      assert s[..|s| - 1] == NatToDecimal(n / 10);
    }
  }

  /** Reading back what was printed gives the number: the printer loses nothing. */
  lemma IntToDecimalRoundTrip(n: int)
    ensures ParseInteger(IntToDecimal(n)) == Some(n)
  {
    if n < 0 {
      NatToDecimalValue(-n);
      assert IntToDecimal(n)[1..] == NatToDecimal(-n);
    } else {
      NatToDecimalValue(n);
    }
  }

  /** Printing is injective: different integers never print alike. */
  lemma IntToDecimalInjective(m: int, n: int)
    requires IntToDecimal(m) == IntToDecimal(n)
    ensures m == n
  {
    IntToDecimalRoundTrip(m);
    IntToDecimalRoundTrip(n);
  }

  lemma {:induction false} LeadingNonZeroPositive(s: string)
    requires IsDigits(s) && |s| >= 1 && s[0] != '0'
    ensures DigitsValue(s) >= 1
  {
    if |s| >= 2 {
      LeadingNonZeroPositive(s[..|s| - 1]);
    }
  }

  lemma {:induction false} NatLiteralReprint(s: string)
    requires IsNatLiteral(s)
    ensures NatToDecimal(DigitsValue(s)) == s
  {
    if |s| >= 2 {
      var t := s[..|s| - 1];
      LeadingNonZeroPositive(t);
      NatLiteralReprint(t);
      var c := s[|s| - 1];
      var d := (c as int) - ('0' as int);
      var n := DigitsValue(s);
      assert n == 10 * DigitsValue(t) + d && 0 <= d < 10;
      assert n >= 10 && n / 10 == DigitsValue(t) && n % 10 == d;
      assert DigitChar(d) == c;
      assert NatToDecimal(n) == NatToDecimal(n / 10) + [DigitChar(n % 10)];
      assert s == t + [c];
    }
  }

  /**
   * Every canonical literal is what the printer makes of its value, so the
   * canonical literals are exactly the printer's outputs.
   */
  lemma IntegerLiteralReprint(s: string)
    requires IsIntegerLiteral(s)
    ensures ParseInteger(s).Some? && IntToDecimal(ParseInteger(s).value) == s
  {
    if IsNatLiteral(s) {
      NatLiteralReprint(s);
    } else {
      var t := s[1..];
      NatLiteralReprint(t);
      LeadingNonZeroPositive(t);
      assert s == "-" + t;
    }
  }

  /** A canonical literal of value 0 is "0": in particular "-0" is not canonical. */
  lemma ZeroLiteral(s: string)
    requires IsIntegerLiteral(s) && ParseInteger(s) == Some(0)
    ensures s == "0"
  {
    IntegerLiteralReprint(s);
  }
}
