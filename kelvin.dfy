/** convertKelvinToCelsius: a temperature in kelvin shown as whole degrees Celsius. */
module KelvinToCelsius {
  import opened Decimal
  import opened Numbers

  /** The offset between the kelvin and Celsius scales. */
  const CelsiusOffset: real := 273.15

  /**
   * "N/A" for a missing or NaN reading; otherwise Math.round of the Celsius
   * value, printed by Number.prototype.toString. Math.round of a value in
   * [-0.5, 0) is -0, which toString prints as "0", so printing the integer
   * canonically is exact.
   */
  function ConvertKelvinToCelsius(kelvin: Reading): (s: string)
    ensures IsNullOrNaN(kelvin) <==> s == NotAvailable
    ensures kelvin.Val? ==> IsIntegerLiteral(s) && '.' !in s
    ensures kelvin.Val? ==> ParseInteger(s).Some? && RoundsHalfUp(kelvin.r - CelsiusOffset, ParseInteger(s).value)
  {
    if IsNullOrNaN(kelvin) then NotAvailable
    else
      var n := MathRound(kelvin.r - CelsiusOffset);
      IntToDecimalRoundTrip(n);
      IntToDecimal(n)
  }

  /** The whole-degree value shown for k kelvin. */
  function CelsiusShown(k: real): (n: int)
    ensures RoundsHalfUp(k - CelsiusOffset, n)
    ensures ConvertKelvinToCelsius(Val(k)) == IntToDecimal(n)
  {
    var s := ConvertKelvinToCelsius(Val(k));
    IntegerLiteralReprint(s);
    ParseInteger(s).value
  }

  /** A value within half a degree below zero Celsius shows as "0", never "-0". */
  lemma NegativeZeroShowsZero(k: real)
    requires -0.5 <= k - CelsiusOffset < 0.0
    ensures ConvertKelvinToCelsius(Val(k)) == "0"
  {
  }

  /** A warmer reading never shows a lower temperature. */
  lemma CelsiusMonotone(k1: real, k2: real)
    requires k1 <= k2
    ensures CelsiusShown(k1) <= CelsiusShown(k2)
  {
  }

  /** One kelvin more shows exactly one degree more. */
  lemma CelsiusStep(k: real)
    ensures CelsiusShown(k + 1.0) == CelsiusShown(k) + 1
  {
  }

  /** The freezing point, and the default page.tsx shows before data arrive. */
  lemma KelvinExamples()
    ensures ConvertKelvinToCelsius(Val(273.15)) == "0"
    ensures ConvertKelvinToCelsius(Val(288.85)) == "16"
    ensures ConvertKelvinToCelsius(Missing) == "N/A"
    ensures ConvertKelvinToCelsius(NaN) == "N/A"
  {
    RoundsHalfUpUnique(288.85 - CelsiusOffset, 16);
    RoundsHalfUpUnique(288.85 - CelsiusOffset, CelsiusShown(288.85));
    assert NatToDecimal(16) == NatToDecimal(1) + ['6'];
    RoundsHalfUpUnique(273.15 - CelsiusOffset, 0);
    RoundsHalfUpUnique(273.15 - CelsiusOffset, CelsiusShown(273.15));
  }
}
