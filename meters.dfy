/** metersToKilometers: a visibility in metres shown as whole kilometres. */
module MetersToKilometers {
  import opened Wrappers
  import opened Decimal
  import opened Numbers

  const KmSuffix: string := " km"

  /**
   * "N/A" for a missing or NaN reading; otherwise the reading divided by
   * 1000, formatted by toFixed(0), followed by " km".
   */
  function MetersToKilometers(visibility: Reading): (s: string)
    ensures IsNullOrNaN(visibility) <==> s == NotAvailable
    ensures visibility.Val? ==>
      |s| > |KmSuffix| && s[|s| - |KmSuffix|..] == KmSuffix && '.' !in s &&
      ParseInteger(s[..|s| - |KmSuffix|]) == Some(FixedValue(visibility.r / 1000.0))
    ensures visibility.Val? && visibility.r >= 0.0 ==> IsNatLiteral(s[..|s| - |KmSuffix|])
    ensures visibility.Val? && visibility.r < 0.0 ==>
      s[0] == '-' && IsNatLiteral(s[1..|s| - |KmSuffix|])
  {
    if IsNullOrNaN(visibility) then NotAvailable
    else
      var digits := ToFixed0(visibility.r / 1000.0);
      ToFixed0Value(visibility.r / 1000.0);
      SuffixedParts(digits, KmSuffix);
      digits + KmSuffix
  }

  /** The whole-kilometre value shown for m metres. */
  function KilometersShown(m: real): (n: int)
    ensures RoundsHalfAwayFromZero(m / 1000.0, n)
    ensures m >= 0.0 ==> n >= 0 && RoundsHalfUp(m / 1000.0, n)
  {
    var s := MetersToKilometers(Val(m));
    ParseInteger(s[..|s| - |KmSuffix|]).value
  }

  /** A longer visibility never shows fewer kilometres. */
  lemma KilometersMonotone(m1: real, m2: real)
    requires m1 <= m2
    ensures KilometersShown(m1) <= KilometersShown(m2)
  {
  }

  /**
   * A negative visibility that rounds to zero shows "-0 km", since toFixed
   * prints the sign before the rounded magnitude.
   */
  lemma NegativeZeroKilometers(m: real)
    requires -500.0 < m < 0.0
    ensures MetersToKilometers(Val(m)) == "-0 km"
  {
    var s := MetersToKilometers(Val(m));
    var digits := s[1..|s| - |KmSuffix|];
    assert ParseInteger(s[..|s| - |KmSuffix|]) == Some(0);
    assert s[..|s| - |KmSuffix|] == "-" + digits;
    assert ParseInteger(digits) == Some(0);
    ZeroLiteral(digits);
    assert s == s[..|s| - |KmSuffix|] + KmSuffix;
  }

  lemma KilometersExamples()
    ensures MetersToKilometers(Val(10000.0)) == "10 km"
    ensures MetersToKilometers(Val(500.0)) == "1 km"
    ensures MetersToKilometers(Val(499.0)) == "0 km"
    ensures MetersToKilometers(Val(-400.0)) == "-0 km"
    ensures MetersToKilometers(Missing) == "N/A"
  {
    assert Floor(10000.0 / 1000.0 + 0.5) == 10;
    assert NatToDecimal(10) == NatToDecimal(1) + ['0'];
    assert Floor(500.0 / 1000.0 + 0.5) == 1;
    assert Floor(499.0 / 1000.0 + 0.5) == 0;
    assert Floor(400.0 / 1000.0 + 0.5) == 0;
  }
}
