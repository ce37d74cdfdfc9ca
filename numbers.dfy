/**
 * The part of JavaScript's number semantics the converters rely on, over
 * exact reals: a possibly missing or NaN reading, Math.round
 * (section 21.3.2.28 of ECMA-262) and Number.prototype.toFixed with zero
 * fraction digits (section 21.1.3.3 of ECMA-262).
 */
module Numbers {
  import opened Wrappers
  import opened Decimal

  /**
   * A numeric field as the converters receive it: absent (null or
   * undefined), NaN, or a finite number.
   */
  datatype Reading = Missing | NaN | Val(r: real)

  /** The placeholder the optional converters return for an unusable reading. */
  const NotAvailable: string := "N/A"

  /** The test `x == null || isNaN(x)` guarding the optional converters. */
  predicate IsNullOrNaN(x: Reading) { x.Missing? || x.NaN? }

  /** n is the integer nearest to x, a tie going to the larger one. */
  predicate RoundsHalfUp(x: real, n: int) {
    n as real - 0.5 <= x < n as real + 0.5
  }

  /** n is the integer nearest to x, a tie going away from zero. */
  predicate RoundsHalfAwayFromZero(x: real, n: int) {
    if x >= 0.0 then RoundsHalfUp(x, n) else n as real - 0.5 < x <= n as real + 0.5
  }

  function Floor(x: real): (n: int)
    ensures n as real <= x < n as real + 1.0
  {
    x.Floor
  }

  /** Math.round: the nearest integer, ties toward +infinity. */
  function MathRound(x: real): (n: int)
    ensures RoundsHalfUp(x, n)
  {
    Floor(x + 0.5)
  }

  /** At most one integer rounds from x, so RoundsHalfUp pins down MathRound. */
  lemma RoundsHalfUpUnique(x: real, n: int)
    requires RoundsHalfUp(x, n)
    ensures MathRound(x) == n
  {
  }

  lemma MathRoundMonotone(x: real, y: real)
    requires x <= y
    ensures MathRound(x) <= MathRound(y)
  {
  }

  /** Moving the argument by a whole number moves Math.round by as much. */
  lemma MathRoundShift(x: real, k: int)
    ensures MathRound(x + k as real) == MathRound(x) + k
  {
  }

  /**
   * toFixed(0) on a finite number below 10^21 in magnitude: the sign is
   * printed first for x < 0 (so (-0.4).toFixed(0) is "-0"), then the
   * integer nearest to |x|, the larger one on a tie.
   */
  function ToFixed0(x: real): (s: string)
    ensures ParseInteger(s).Some? && RoundsHalfAwayFromZero(x, ParseInteger(s).value)
    ensures x >= 0.0 ==> IsNatLiteral(s)
    ensures x < 0.0 ==> |s| >= 2 && s[0] == '-' && IsNatLiteral(s[1..])
    ensures '.' !in s
  {
    if x < 0.0 then
      var n := Floor(-x + 0.5);
      assert n >= 0;
      var s := "-" + NatToDecimal(n);
      assert s[1..] == NatToDecimal(n);
      NatToDecimalValue(n);
      s
    else
      var n := Floor(x + 0.5);
      NatToDecimalValue(n);
      NatToDecimal(n)
  }

  /** The value toFixed(0) prints: the nearest integer, ties away from zero. */
  function FixedValue(x: real): (n: int)
    ensures RoundsHalfAwayFromZero(x, n)
  {
    if x < 0.0 then -MathRound(-x) else MathRound(x)
  }

  /** What toFixed(0) prints reads back as FixedValue. */
  lemma ToFixed0Value(x: real)
    ensures ParseInteger(ToFixed0(x)) == Some(FixedValue(x))
  {
  }

  lemma FixedValueMonotone(x: real, y: real)
    requires x <= y
    ensures FixedValue(x) <= FixedValue(y)
  {
  }

  /** How a number and its unit suffix split again. */
  lemma SuffixedParts(digits: string, suffix: string)
    requires |digits| >= 1
    ensures var s := digits + suffix;
      s[..|digits|] == digits && s[|digits|..] == suffix && s[1..|digits|] == digits[1..] && s[0] == digits[0]
  {
  }
}
