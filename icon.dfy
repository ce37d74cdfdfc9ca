/**
 * getDayOrNightIcon: an icon code whose last character says whether the
 * condition is drawn for day ('d') or night ('n').
 */
module DayNightIcon {
  import opened Wrappers

  const DayStart: int := 6
  const NightStart: int := 18

  /**
   * The hour of the forecast's local time, as Date.getHours gives it; None
   * stands for NaN, the result for a string Date cannot parse.
   */
  type Hour = Option<int>

  /** `hours >= 6 && hours < 18`; both comparisons are false for NaN. */
  predicate IsDayTime(hours: Hour) {
    hours.Some? && DayStart <= hours.value < NightStart
  }

  /** The characters the regular-expression `.` does not match. */
  predicate IsLineTerminator(c: char) {
    c == '\n' || c == '\r' || c == '\U{2028}' || c == '\U{2029}'
  }

  /**
   * `s.replace(/.$/, [c])`: the last character becomes c. An empty string,
   * or one ending in a line terminator, has no match and comes back as is.
   */
  function ReplaceLast(s: string, c: char): (r: string)
    ensures |r| == |s|
    ensures forall i :: 0 <= i < |s| - 1 ==> r[i] == s[i]
    ensures |s| > 0 && !IsLineTerminator(s[|s| - 1]) ==> r[|s| - 1] == c
    ensures |s| == 0 || IsLineTerminator(s[|s| - 1]) ==> r == s
  {
    if |s| == 0 || IsLineTerminator(s[|s| - 1]) then s else s[..|s| - 1] + [c]
  }

  function GetDayOrNightIcon(iconName: string, hours: Hour): (r: string)
    ensures |r| == |iconName|
    ensures forall i :: 0 <= i < |iconName| - 1 ==> r[i] == iconName[i]
    ensures |iconName| > 0 && !IsLineTerminator(iconName[|iconName| - 1]) ==>
      r[|r| - 1] == (if IsDayTime(hours) then 'd' else 'n')
    ensures |iconName| == 0 || IsLineTerminator(iconName[|iconName| - 1]) ==> r == iconName
  {
    if IsDayTime(hours) then ReplaceLast(iconName, 'd') else ReplaceLast(iconName, 'n')
  }

  /** The day window is [6, 18): 6 and 17 are day, 5 and 18 are night, NaN is night. */
  lemma DayWindow(h: int)
    ensures IsDayTime(Some(h)) <==> 6 <= h < 18
    ensures IsDayTime(Some(6)) && IsDayTime(Some(17))
    ensures !IsDayTime(Some(5)) && !IsDayTime(Some(18)) && !IsDayTime(None)
  {
  }

  /** For a code with a replaceable last character the result is its prefix plus the variant. */
  lemma IconShape(iconName: string, hours: Hour)
    requires |iconName| > 0 && !IsLineTerminator(iconName[|iconName| - 1])
    ensures GetDayOrNightIcon(iconName, hours)
      == iconName[..|iconName| - 1] + [if IsDayTime(hours) then 'd' else 'n']
  {
  }

  /** The result does not depend on the original variant character. */
  lemma IgnoresVariant(a: string, b: string, hours: Hour)
    requires |a| == |b| > 0 && a[..|a| - 1] == b[..|b| - 1]
    requires !IsLineTerminator(a[|a| - 1]) && !IsLineTerminator(b[|b| - 1])
    ensures GetDayOrNightIcon(a, hours) == GetDayOrNightIcon(b, hours)
  {
  }

  /** Selecting the variant again for the same hour changes nothing. */
  lemma Idempotent(iconName: string, hours: Hour)
    ensures GetDayOrNightIcon(GetDayOrNightIcon(iconName, hours), hours)
      == GetDayOrNightIcon(iconName, hours)
  {
  }

  lemma IconExamples()
    ensures GetDayOrNightIcon("10n", Some(6)) == "10d"
    ensures GetDayOrNightIcon("10d", Some(5)) == "10n"
    ensures GetDayOrNightIcon("01d", Some(17)) == "01d"
    ensures GetDayOrNightIcon("01d", Some(18)) == "01n"
    ensures GetDayOrNightIcon("01d", None) == "01n"
    ensures GetDayOrNightIcon("", Some(12)) == ""
  {
  }
}
