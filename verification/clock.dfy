/** The 12-hour time check: `datetime.strptime(s, '%I:%M %p')` succeeds.
    In the C locale that call matches `s` in full against
    `(1[0-2]|0[1-9]|[1-9]):([0-5]\d|\d)\s+(am|pm)`, ignoring case; any
    mismatch or unconsumed text is a `ValueError`. */
module Clock {
  import opened Text

  /** `%I`: an hour 1-12, with or without a leading zero. */
  predicate IsHour12(h: string) {
    || (|h| == 2 && h[0] == '1' && '0' <= h[1] <= '2')
    || (|h| == 2 && h[0] == '0' && '1' <= h[1] <= '9')
    || (|h| == 1 && '1' <= h[0] <= '9')
  }

  /** `%M`: a minute 0-59, with or without a leading zero. */
  predicate IsMinute(m: string) {
    || (|m| == 2 && '0' <= m[0] <= '5' && IsDigit(m[1]))
    || (|m| == 1 && IsDigit(m[0]))
  }

  /** `%p` in the C locale, matched ignoring case. */
  predicate IsMeridiem(p: string) {
    |p| == 2 && (p[0] == 'a' || p[0] == 'A' || p[0] == 'p' || p[0] == 'P') && (p[1] == 'm' || p[1] == 'M')
  }

  /** The space of the format matches `\s+`; the meridiem must end the string. */
  predicate SpacesThenMeridiem(s: string) {
    |s| >= 3 && AllSpace(s[..|s| - 2]) && IsMeridiem(s[|s| - 2..])
  }

  /** The minute field ends before the first non-digit: a one-digit minute
      followed by a digit could never be followed by the required space. */
  predicate MinuteThenRest(s: string) {
    var m := if 1 < |s| && IsDigit(s[1]) then 2 else 1;
    m <= |s| && IsMinute(s[..m]) && SpacesThenMeridiem(s[m..])
  }

  /** `is_valid_time`: the hour field ends at the colon, which must be the
      second or third character. */
  predicate IsValidTime(s: string) {
    var h := if 1 < |s| && s[1] == ':' then 1 else 2;
    h < |s| && s[h] == ':' && IsHour12(s[..h]) && MinuteThenRest(s[h + 1..])
  }

  /** The strings the SCHEDULE pattern captures as a time:
      `[0-9]{2}:[0-9]{2} [AP]M`. */
  predicate IsClockShape(t: string) {
    && |t| == 8
    && IsDigit(t[0]) && IsDigit(t[1]) && t[2] == ':' && IsDigit(t[3]) && IsDigit(t[4])
    && t[5] == ' ' && (t[6] == 'A' || t[6] == 'P') && t[7] == 'M'
  }

  function Hour(t: string): nat
    requires IsClockShape(t)
  {
    10 * DigitValue(t[0]) + DigitValue(t[1])
  }

  function Minute(t: string): nat
    requires IsClockShape(t)
  {
    10 * DigitValue(t[3]) + DigitValue(t[4])
  }

  /** On the strings the SCHEDULE pattern lets through, the time is valid
      exactly when the hour is 01-12 and the minute 00-59. */
  lemma ShapedTimeValid(t: string)
    requires IsClockShape(t)
    ensures IsValidTime(t) <==> 1 <= Hour(t) <= 12 && Minute(t) <= 59
  {
    var rest := t[3..];
    assert rest[..2] == t[3..5];
    assert rest[2..] == t[5..];
    assert t[5..][..1] == [' '];
    assert t[5..][1..] == t[6..];
    assert t[..2] == [t[0], t[1]];
  }
}
