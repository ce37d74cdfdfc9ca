# Weather display unit helpers, modelled in Dafny

The weather-forecast application formats temperatures, visibility and wind
speed, and picks the day or night icon, through four small helpers in
`src/utils`:

- `convertKelvinToCelsius` turns a temperature in kelvin into whole degrees
  Celsius, or `"N/A"` when the reading is missing or NaN;
- `metersToKilometers` turns a visibility in metres into whole kilometres
  with a `" km"` suffix, or `"N/A"`;
- `convertWindSpeed` turns metres per second into whole km/h with a
  `" km/h"` suffix, with no missing-value guard;
- `getDayOrNightIcon` rewrites the last character of a weather icon code to
  `'d'` when the local hour lies in `[6, 18)` and to `'n'` otherwise.

The model computes over exact reals. A numeric field is a `Reading`:
`Missing` (null or undefined), `NaN`, or `Val(r)` for a finite number.
`Math.round` (section 21.3.2.28 of ECMA-262) is `Floor(x + 1/2)`.
`Number.prototype.toFixed(0)` (section 21.1.3.3 of ECMA-262) prints a `'-'`
for a negative argument and then the integer nearest to its magnitude, the
larger one on a tie. Integers are printed by a verified base-10 printer
(`Decimal.IntToDecimal`) with a parser beside it, and each converter's
contract says what its output reads back as.

Modules: `Wrappers` (Option), `Decimal` (printing and parsing integers),
`Numbers` (readings, `Math.round`, `toFixed(0)`), one module per helper:
`KelvinToCelsius`, `MetersToKilometers`, `WindSpeed`, `DayNightIcon`.

Behaviour worth knowing at the edges:

- Temperature ties go toward +infinity, as `Math.round` does, not to even.
- An empty icon code comes back unchanged, because `/.$/` has nothing to
  match; it is not rejected.
- Negative inputs are modelled, not excluded. `toFixed(0)` prints `"-0"`
  for values in `(-0.5, 0)`, so every visibility in `(-500, 0)` metres shows
  `"-0 km"` and every wind speed in `(-5/36, 0)` m/s shows `"-0 km/h"`.
  `Math.round` gives negative zero in `[-0.5, 0)`, but `toString` prints it
  as `"0"`, so the temperature never shows `"-0"`.

## Model

| member | source | states |
|---|---|---|
| `Decimal.NatToDecimal` | src/utils/convertKelvinToCelsius.tsx:3 | the digits of a natural number form a non-empty digit string without a leading zero, and they are `"0"` exactly for 0 |
| `Decimal.IntToDecimal` | src/utils/convertKelvinToCelsius.tsx:3 | `toString` of an integer is a canonical literal (optional `'-'`, digits, no leading zero, never `"-0"`), starting with `'-'` exactly for negative numbers |
| `Decimal.IntToDecimalRoundTrip` | src/utils/convertKelvinToCelsius.tsx:3 | reading a printed integer back gives that integer |
| `Decimal.IntToDecimalInjective` | src/utils/convertKelvinToCelsius.tsx:3 | two different integers never print alike |
| `Decimal.IntegerLiteralReprint` | src/utils/convertKelvinToCelsius.tsx:3 | every canonical literal is the print of its own value, so the canonical literals are exactly the printer's outputs |
| `Decimal.ZeroLiteral` | src/utils/convertKelvinToCelsius.tsx:3 | the only canonical literal of value 0 is `"0"` |
| `Numbers.MathRound` | src/utils/convertKelvinToCelsius.tsx:3 | `Math.round(x)` is an integer n with n - 1/2 <= x < n + 1/2: the nearest integer, a tie going up |
| `Numbers.RoundsHalfUpUnique` | src/utils/convertKelvinToCelsius.tsx:3 | any integer that rounds half up from x is `Math.round(x)` |
| `Numbers.MathRoundMonotone` | src/utils/convertKelvinToCelsius.tsx:3 | `Math.round` never decreases as its argument grows |
| `Numbers.MathRoundShift` | src/utils/convertKelvinToCelsius.tsx:3 | `Math.round(x + k)` is `Math.round(x) + k` for a whole k |
| `Numbers.ToFixed0` | src/utils/metersToKilometers.ts:8 | `toFixed(0)` prints digits, with a leading `'-'` exactly for negative arguments and no decimal point, that read back as the nearest integer, a tie going away from zero |
| `Numbers.FixedValue` | src/utils/convertWindSpeed.ts:3 | the value `toFixed(0)` rounds to is the nearest integer, a tie going away from zero |
| `Numbers.ToFixed0Value` | src/utils/convertWindSpeed.ts:3 | what `toFixed(0)` prints reads back as that value |
| `Numbers.FixedValueMonotone` | src/utils/metersToKilometers.ts:7-8 | the value `toFixed(0)` prints never decreases as its argument grows, across the sign change too |
| `KelvinToCelsius.ConvertKelvinToCelsius` | src/utils/convertKelvinToCelsius.tsx:1-4 | the output is `"N/A"` exactly for a missing or NaN reading; otherwise it is a canonical integer literal, without a decimal point or unit, whose value is the Celsius reading rounded half up |
| `KelvinToCelsius.CelsiusShown` | src/utils/convertKelvinToCelsius.tsx:3 | the degrees shown for k kelvin are the nearest integer to k - 273.15, a tie going up, and the output is their canonical print |
| `KelvinToCelsius.NegativeZeroShowsZero` | src/utils/convertKelvinToCelsius.tsx:3 | a Celsius value in [-0.5, 0), where `Math.round` gives negative zero, is shown as `"0"` |
| `KelvinToCelsius.CelsiusMonotone` | src/utils/convertKelvinToCelsius.tsx:3 | a higher kelvin reading never shows fewer degrees |
| `KelvinToCelsius.CelsiusStep` | src/utils/convertKelvinToCelsius.tsx:3 | one kelvin more shows exactly one degree more |
| `KelvinToCelsius.KelvinExamples` | src/utils/convertKelvinToCelsius.tsx:2-3 | 273.15 K shows `"0"`; 288.85 K, the default of src/app/page.tsx:56, shows `"16"`; missing and NaN show `"N/A"` |
| `MetersToKilometers.MetersToKilometers` | src/utils/metersToKilometers.ts:1-9 | the output is `"N/A"` exactly for a missing or NaN reading; otherwise it is a number without a decimal point followed by exactly `" km"`, reading back as metres / 1000 rounded by `toFixed(0)`: a plain digit string for a non-negative reading, and `'-'` followed by a digit string for a negative one |
| `MetersToKilometers.NegativeZeroKilometers` | src/utils/metersToKilometers.ts:7-8 | every reading in (-500, 0) metres shows `"-0 km"` |
| `MetersToKilometers.KilometersShown` | src/utils/metersToKilometers.ts:7-8 | the kilometres shown are metres / 1000 rounded half away from zero, and for a non-negative reading the nearest integer, a tie going up |
| `MetersToKilometers.KilometersMonotone` | src/utils/metersToKilometers.ts:7-8 | a longer visibility never shows fewer kilometres |
| `MetersToKilometers.KilometersExamples` | src/utils/metersToKilometers.ts:3-8 | 10000 shows `"10 km"`, 500 `"1 km"`, 499 `"0 km"`, -400 `"-0 km"`, missing `"N/A"` |
| `WindSpeed.ConvertWindSpeed` | src/utils/convertWindSpeed.ts:1-4 | every number gives a string ending in `" km/h"` and never `"N/A"`: NaN gives `"NaN km/h"`, a finite speed a number without a decimal point reading back as speed * 3.6 rounded by `toFixed(0)`: a plain digit string for a non-negative speed, and `'-'` followed by a digit string for a negative one |
| `WindSpeed.NegativeZeroKmh` | src/utils/convertWindSpeed.ts:2-3 | every speed in (-5/36, 0) m/s shows `"-0 km/h"` |
| `WindSpeed.KmhShown` | src/utils/convertWindSpeed.ts:2-3 | the km/h shown are speed * 3.6 rounded half away from zero, and for a non-negative speed the nearest integer, a tie going up |
| `WindSpeed.KmhMonotone` | src/utils/convertWindSpeed.ts:2-3 | a stronger wind never shows a lower speed |
| `WindSpeed.WindSpeedExamples` | src/utils/convertWindSpeed.ts:2-3 | 10 m/s shows `"36 km/h"`, 0 shows `"0 km/h"`, NaN shows `"NaN km/h"` |
| `DayNightIcon.ReplaceLast` | src/utils/getDayOrNightIcon.ts:10-11 | `replace(/.$/, c)` keeps the length and every character but the last, which becomes c; an empty string or one ending in a line terminator is unchanged |
| `DayNightIcon.GetDayOrNightIcon` | src/utils/getDayOrNightIcon.ts:1-12 | the length and all characters but the last are kept; the last becomes `'d'` in the day window and `'n'` otherwise; an empty code is returned unchanged |
| `DayNightIcon.DayWindow` | src/utils/getDayOrNightIcon.ts:5-7 | daytime holds exactly for hours in [6, 18): 6 and 17 are day, 5 and 18 night, and an unparseable time (NaN hour) is night |
| `DayNightIcon.IconShape` | src/utils/getDayOrNightIcon.ts:9-11 | for a non-empty code the result is the code without its last character followed by `'d'` or `'n'` |
| `DayNightIcon.IgnoresVariant` | src/utils/getDayOrNightIcon.ts:10-11 | codes that differ only in their last character give the same result |
| `DayNightIcon.Idempotent` | src/utils/getDayOrNightIcon.ts:10-11 | selecting the variant again for the same hour changes nothing |
| `DayNightIcon.IconExamples` | src/utils/getDayOrNightIcon.ts:7-11 | `"10n"` at 6 gives `"10d"`, `"10d"` at 5 gives `"10n"`, `"01d"` at 17 stays `"01d"`, `"01d"` at 18 or at NaN gives `"01n"`, `""` stays `""` |

## Left out

- Per-day forecast selection: the code has no such selection; the "7 days" section of src/app/page.tsx:86-89 is only a heading, so there is nothing to model.
- src/components/Navbar.tsx, src/app/page.tsx, src/app/layout.tsx, src/components/WeatherDetails.tsx, src/components/ForecastWeatherDetail.tsx: HTTP requests, geolocation, timers, React state and rendering, and date-fns `format`/`parseISO` (the day name, date and time shown at src/app/page.tsx:49-50 and :75): I/O, UI and foreign library calls. The suggestion label built at src/components/Navbar.tsx:36 depends on the shape of the HTTP response.
- IEEE-754 doubles: `kelvin - 273.15`, `m / 1000` and `v * 3.6` are computed exactly, so a result that doubles would land just off a .5 tie can round differently in the application.
- Infinity: a `Reading` is finite or NaN; the application prints `Infinity` or `-Infinity` where the number would be (`"Infinity"`, `"-Infinity km"`, `"Infinity km/h"`).
- Numbers.ToFixed0: for a magnitude of 10^21 or more `toFixed` prints the exponent form of `Number.prototype.toString`; the model prints all the digits.
- Decimal.IntToDecimal: an integral double of magnitude 2^53 or more prints, under `toString`, the shortest digits that read back to the same double, padded with zeros (and the exponent form from 10^21); the model prints the exact digits. Temperatures that large do not arise.
- Date parsing: `new Date(s).getHours()` depends on the host time zone and on how the engine parses `"YYYY-MM-DD HH:MM:SS"`; the hour is a parameter (`None` for the NaN of an unparseable date).
- WindSpeed.ConvertWindSpeed: the parameter is typed `number`, so a missing reading is excluded by `requires`; at run time `undefined` would print `"NaN km/h"` and `null` `"0 km/h"`.
- DayNightIcon.ReplaceLast: the regular-expression `.` matches one UTF-16 code unit; the model replaces one Unicode scalar value, which differs for a code ending in a character outside the Basic Multilingual Plane.
