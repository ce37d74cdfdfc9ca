/** convertWindSpeed: a wind speed in metres per second shown in whole km/h. */
module WindSpeed {
  import opened Wrappers
  import opened Decimal
  import opened Numbers

  /** Kilometres per hour in one metre per second. */
  const KmhPerMps: real := 3.6

  const KmhSuffix: string := " km/h"

  /**
   * The speed times 3.6, formatted by toFixed(0), followed by " km/h".
   * There is no guard: toFixed on NaN prints "NaN". The parameter is typed
   * `number`, so a missing value is the caller's to replace beforehand.
   */
  function ConvertWindSpeed(speed: Reading): (s: string)
    requires !speed.Missing?
    ensures |s| > |KmhSuffix| && s[|s| - |KmhSuffix|..] == KmhSuffix && s != NotAvailable
    ensures speed.NaN? ==> s == "NaN km/h"
    ensures speed.Val? ==>
      '.' !in s && ParseInteger(s[..|s| - |KmhSuffix|]) == Some(FixedValue(speed.r * KmhPerMps))
    ensures speed.Val? && speed.r >= 0.0 ==> IsNatLiteral(s[..|s| - |KmhSuffix|])
    ensures speed.Val? && speed.r < 0.0 ==>
      s[0] == '-' && IsNatLiteral(s[1..|s| - |KmhSuffix|])
  {
    match speed
    case NaN =>
      "NaN" + KmhSuffix
    case Val(v) =>
      var digits := ToFixed0(v * KmhPerMps);
      ToFixed0Value(v * KmhPerMps);
      SuffixedParts(digits, KmhSuffix);
      digits + KmhSuffix
  }

  /** The whole-km/h value shown for v metres per second. */
  function KmhShown(v: real): (n: int)
    ensures RoundsHalfAwayFromZero(v * KmhPerMps, n)
    ensures v >= 0.0 ==> n >= 0 && RoundsHalfUp(v * KmhPerMps, n)
  {
    var s := ConvertWindSpeed(Val(v));
    ParseInteger(s[..|s| - |KmhSuffix|]).value
  }

  /** A stronger wind never shows a lower speed. */
  lemma KmhMonotone(v1: real, v2: real)
    requires v1 <= v2
    ensures KmhShown(v1) <= KmhShown(v2)
  {
  }

  /**
   * A negative speed that rounds to zero shows "-0 km/h", since toFixed
   * prints the sign before the rounded magnitude.
   */
  lemma NegativeZeroKmh(v: real)
    requires -5.0 / 36.0 < v < 0.0
    ensures ConvertWindSpeed(Val(v)) == "-0 km/h"
  {
    var s := ConvertWindSpeed(Val(v));
    var digits := s[1..|s| - |KmhSuffix|];
    assert ParseInteger(s[..|s| - |KmhSuffix|]) == Some(0);
    assert s[..|s| - |KmhSuffix|] == "-" + digits;
    assert ParseInteger(digits) == Some(0);
    ZeroLiteral(digits);
    assert s == s[..|s| - |KmhSuffix|] + KmhSuffix;
  }

  lemma WindSpeedExamples()
    ensures ConvertWindSpeed(Val(10.0)) == "36 km/h"
    ensures ConvertWindSpeed(Val(0.0)) == "0 km/h"
    ensures ConvertWindSpeed(NaN) == "NaN km/h"
  {
    assert Floor(10.0 * KmhPerMps + 0.5) == 36;
    assert NatToDecimal(36) == NatToDecimal(3) + ['6'];
    assert Floor(0.0 * KmhPerMps + 0.5) == 0;
  }
}
