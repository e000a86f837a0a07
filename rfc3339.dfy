/** The timestamp that opens an OpenID response nonce (section 10.1 of OpenID
    Authentication 2.0): an RFC 3339 section 5.6 date-time restricted to UTC
    with no fractional seconds, `YYYY-MM-DDTHH:MM:SSZ`, exactly 20 characters.
    For a 20-character input, Go's `time.Parse(time.RFC3339, _)` accepts
    precisely these strings, with month, day, hour, minute and second in range
    (the day checked against the month and leap years). */
module Rfc3339 {
  import opened Wrappers

  /** A calendar date and time of day in UTC. */
  datatype DateTime = DateTime(year: nat, month: nat, day: nat, hour: nat, minute: nat, second: nat)

  const TimestampLength := 20

  predicate IsLeapYear(y: nat) {
    y % 4 == 0 && (y % 100 != 0 || y % 400 == 0)
  }

  /** Go's `daysIn`: the number of days of `month` (1 to 12) in `year`. */
  function DaysIn(month: nat, year: nat): nat {
    if month == 2 then (if IsLeapYear(year) then 29 else 28)
    else if month == 4 || month == 6 || month == 9 || month == 11 then 30
    else 31
  }

  /** The date-times the layout can express and `time.Parse` accepts. */
  predicate Valid(t: DateTime) {
    && t.year <= 9999
    && 1 <= t.month <= 12
    && 1 <= t.day <= DaysIn(t.month, t.year)
    && t.hour < 24
    && t.minute < 60
    && t.second < 60
  }

  predicate IsDigit(c: char) {
    '0' <= c <= '9'
  }

  function DigitValue(c: char): nat
    requires IsDigit(c)
  {
    c as int - '0' as int
  }

  function DigitChar(n: nat): char
    requires n < 10
  {
    ('0' as int + n) as char
  }

  /** The number written by the two digits `s[i]`, `s[i + 1]`. */
  function Two(s: string, i: nat): nat
    requires i + 2 <= |s| && IsDigit(s[i]) && IsDigit(s[i + 1])
  {
    10 * DigitValue(s[i]) + DigitValue(s[i + 1])
  }

  /** The number written by the four digits `s[i..i + 4]`. */
  function Four(s: string, i: nat): nat
    requires i + 4 <= |s| && forall k :: i <= k < i + 4 ==> IsDigit(s[k])
  {
    100 * Two(s, i) + Two(s, i + 2)
  }

  /** The positions that hold digits in `YYYY-MM-DDTHH:MM:SSZ`. */
  predicate DigitPosition(k: int) {
    0 <= k < 19 && k != 4 && k != 7 && k != 10 && k != 13 && k != 16
  }

  /** `s` has the shape `DDDD-DD-DDTDD:DD:DDZ`. */
  predicate WellShaped(s: string) {
    && |s| == TimestampLength
    && s[4] == '-' && s[7] == '-' && s[10] == 'T'
    && s[13] == ':' && s[16] == ':' && s[19] == 'Z'
    && forall k :: 0 <= k < 19 && DigitPosition(k) ==> IsDigit(s[k])
  }

  /** The fields of a well-shaped timestamp, before range checks. */
  function Fields(s: string): DateTime
    requires WellShaped(s)
  {
    assert DigitPosition(0) && DigitPosition(1) && DigitPosition(2) && DigitPosition(3);
    assert DigitPosition(5) && DigitPosition(6) && DigitPosition(8) && DigitPosition(9);
    assert DigitPosition(11) && DigitPosition(12) && DigitPosition(14) && DigitPosition(15);
    assert DigitPosition(17) && DigitPosition(18);
    DateTime(Four(s, 0), Two(s, 5), Two(s, 8), Two(s, 11), Two(s, 14), Two(s, 17))
  }

  /** `time.Parse(time.RFC3339, s)` on a 20-character `s`. */
  function Parse(s: string): (r: Option<DateTime>)
    ensures r.Some? ==> |s| == TimestampLength && s[19] == 'Z' && Valid(r.value)
  {
    if WellShaped(s) && Valid(Fields(s)) then Some(Fields(s)) else None
  }

  /** The two digits of `n`, zero-padded. */
  function Pad2(n: nat): (s: string)
    requires n < 100
  {
    [DigitChar(n / 10), DigitChar(n % 10)]
  }

  /** `t.Format(time.RFC3339)` for a UTC time. */
  function Format(t: DateTime): (s: string)
    requires Valid(t)
    ensures WellShaped(s)
  {
    Pad2(t.year / 100) + Pad2(t.year % 100) + "-" + Pad2(t.month) + "-" + Pad2(t.day) + "T"
      + Pad2(t.hour) + ":" + Pad2(t.minute) + ":" + Pad2(t.second) + "Z"
  }

  /** Formatting a valid date-time and parsing the text gives it back. */
  lemma ParseFormat(t: DateTime)
    requires Valid(t)
    ensures Parse(Format(t)) == Some(t)
  {
    var s := Format(t);
    assert Two(s, 0) == t.year / 100 && Two(s, 2) == t.year % 100;
    assert Fields(s) == t;
  }

  /** Every accepted timestamp is the canonical text of what it parses to:
      `Parse` is one-to-one on the strings it accepts. */
  lemma FormatParse(s: string)
    requires Parse(s).Some?
    ensures Format(Parse(s).value) == s
  {
    var t := Parse(s).value;
    assert t.year / 100 == Two(s, 0) && t.year % 100 == Two(s, 2);
    forall i | 0 <= i && i + 2 <= |s| && IsDigit(s[i]) && IsDigit(s[i + 1])
      ensures Pad2(Two(s, i)) == s[i..i + 2]
    {
      PadTwo(s, i);
    }
    assert s == s[0..2] + s[2..4] + "-" + s[5..7] + "-" + s[8..10] + "T" + s[11..13] + ":" + s[14..16] + ":" + s[17..19] + "Z";
  }

  lemma PadTwo(s: string, i: nat)
    requires i + 2 <= |s| && IsDigit(s[i]) && IsDigit(s[i + 1])
    ensures Pad2(Two(s, i)) == s[i..i + 2]
  {
  }

  /** The number of days of `year`. */
  function YearLength(year: nat): nat {
    if IsLeapYear(year) then 366 else 365
  }

  /** Days from 0000-01-01 to the first day of `year` in the proleptic
      Gregorian calendar: 365 a year plus one for each leap year before it
      (years 0, 4, 8, ..., except centuries not divisible by 400). */
  function DaysBeforeYear(year: nat): nat {
    365 * year + (year + 3) / 4 - (year + 99) / 100 + (year + 399) / 400
  }

  /** Days from the first of January to the first of `month` (1 to 13). */
  function DaysBeforeMonth(month: nat, year: nat): nat
    requires 1 <= month <= 13
  {
    if month == 1 then 0 else DaysBeforeMonth(month - 1, year) + DaysIn(month - 1, year)
  }

  /** Days since 1970-01-01 of a date. */
  function DaysSinceEpoch(year: nat, month: nat, day: nat): int
    requires 1 <= month <= 12
  {
    DaysBeforeYear(year) + DaysBeforeMonth(month, year) + day - 1 - DaysBeforeYear(1970)
  }

  const NanosPerSecond := 1_000_000_000
  const SecondsPerDay := 86400

  /** The instant of `t`, in nanoseconds since the Unix epoch. */
  function UnixNanos(t: DateTime): int
    requires Valid(t)
  {
    (DaysSinceEpoch(t.year, t.month, t.day) * SecondsPerDay + t.hour * 3600 + t.minute * 60 + t.second) * NanosPerSecond
  }

  /** The date-time one second after `t`. */
  function NextSecond(t: DateTime): DateTime
    requires Valid(t)
  {
    if t.second < 59 then t.(second := t.second + 1)
    else if t.minute < 59 then t.(minute := t.minute + 1, second := 0)
    else if t.hour < 23 then t.(hour := t.hour + 1, minute := 0, second := 0)
    else if t.day < DaysIn(t.month, t.year) then DateTime(t.year, t.month, t.day + 1, 0, 0, 0)
    else if t.month < 12 then DateTime(t.year, t.month + 1, 1, 0, 0, 0)
    else DateTime(t.year + 1, 1, 1, 0, 0, 0)
  }

  /** A year's months add up to the year. */
  lemma MonthsFillYear(year: nat)
    ensures DaysBeforeMonth(13, year) == YearLength(year)
  {
    var feb := DaysIn(2, year);
    assert DaysBeforeMonth(2, year) == 31;
    assert DaysBeforeMonth(3, year) == 31 + feb;
    assert DaysBeforeMonth(4, year) == 62 + feb;
    assert DaysBeforeMonth(5, year) == 92 + feb;
    assert DaysBeforeMonth(6, year) == 123 + feb;
    assert DaysBeforeMonth(7, year) == 153 + feb;
    assert DaysBeforeMonth(8, year) == 184 + feb;
    assert DaysBeforeMonth(9, year) == 215 + feb;
    assert DaysBeforeMonth(10, year) == 245 + feb;
    assert DaysBeforeMonth(11, year) == 276 + feb;
    assert DaysBeforeMonth(12, year) == 306 + feb;
  }

  /** Each leap-year term of `DaysBeforeYear` grows by one exactly at the
      multiples of its period: 4, 100 and 400. */
  lemma StepFour(year: nat)
    ensures (year + 4) / 4 == (year + 3) / 4 + (if year % 4 == 0 then 1 else 0)
  {
    var q := year / 4;
    assert year == 4 * q + year % 4;
  }

  lemma StepHundred(year: nat)
    ensures (year + 100) / 100 == (year + 99) / 100 + (if year % 100 == 0 then 1 else 0)
  {
    var q := year / 100;
    assert year == 100 * q + year % 100;
  }

  lemma StepFourHundred(year: nat)
    ensures (year + 400) / 400 == (year + 399) / 400 + (if year % 400 == 0 then 1 else 0)
  {
    var q := year / 400;
    assert year == 400 * q + year % 400;
  }

  /** The first day of a year follows the last day of the one before. */
  lemma YearStep(year: nat)
    ensures DaysBeforeYear(year + 1) == DaysBeforeYear(year) + YearLength(year)
  {
    StepFour(year);
    StepHundred(year);
    StepFourHundred(year);
    PeriodsNest(year);
    var four := if year % 4 == 0 then 1 else 0;
    var hundred := if year % 100 == 0 then 1 else 0;
    var fourHundred := if year % 400 == 0 then 1 else 0;
    assert DaysBeforeYear(year + 1) == DaysBeforeYear(year) + 365 + four - hundred + fourHundred;
  }

  /** A multiple of 400 is a multiple of 100, which is a multiple of 4. */
  lemma PeriodsNest(year: nat)
    ensures year % 400 == 0 ==> year % 100 == 0
    ensures year % 100 == 0 ==> year % 4 == 0
  {
    if year % 400 == 0 {
      assert year == 100 * (4 * (year / 400));
    }
    if year % 100 == 0 {
      assert year == 4 * (25 * (year / 100));
    }
  }

  /** The day of the year of a valid date is within the year. */
  lemma {:induction false} DayWithinYear(month: nat, day: nat, year: nat)
    requires 1 <= month <= 12 && 1 <= day <= DaysIn(month, year)
    ensures DaysBeforeMonth(month, year) + day <= YearLength(year)
  {
    MonthsFillYear(year);
    MonthsGrow(month + 1, 13, year);
  }

  /** Later months start later. */
  lemma {:induction false} MonthsGrow(m1: nat, m2: nat, year: nat)
    requires 1 <= m1 <= m2 <= 13
    ensures DaysBeforeMonth(m1, year) <= DaysBeforeMonth(m2, year)
    decreases m2 - m1
  {
    if m1 < m2 {
      MonthsGrow(m1, m2 - 1, year);
    }
  }

  /** Later years start later, by at least 365 days a year. */
  lemma {:induction false} YearsGrow(y1: nat, y2: nat)
    requires y1 <= y2
    ensures DaysBeforeYear(y1) + 365 * (y2 - y1) <= DaysBeforeYear(y2)
    decreases y2 - y1
  {
    if y1 < y2 {
      YearsGrow(y1, y2 - 1);
      YearStep(y2 - 1);
    }
  }

  /** Time moves on by exactly one second at every step, across minute,
      hour, day, month and year boundaries, leap days included: ages computed
      by subtracting instants are true durations. */
  lemma NextSecondIsOneSecond(t: DateTime)
    requires Valid(t) && t.year < 9999
    ensures Valid(NextSecond(t))
    ensures UnixNanos(NextSecond(t)) == UnixNanos(t) + NanosPerSecond
  {
    if t.second == 59 && t.minute == 59 && t.hour == 23 && t.day == DaysIn(t.month, t.year) {
      if t.month == 12 {
        MonthsFillYear(t.year);
        YearStep(t.year);
      }
    }
  }

  /** Lexicographic order of the fields. */
  predicate Before(a: DateTime, b: DateTime) {
    || a.year < b.year
    || (a.year == b.year && a.month < b.month)
    || (a.year == b.year && a.month == b.month && a.day < b.day)
    || (a.year == b.year && a.month == b.month && a.day == b.day && a.hour < b.hour)
    || (a.year == b.year && a.month == b.month && a.day == b.day && a.hour == b.hour && a.minute < b.minute)
    || (a.year == b.year && a.month == b.month && a.day == b.day && a.hour == b.hour && a.minute == b.minute
        && a.second < b.second)
  }

  /** A valid date-time written earlier denotes an earlier instant, so the
      age of a nonce is positive exactly when its timestamp is in the past. */
  lemma EarlierIsSmaller(a: DateTime, b: DateTime)
    requires Valid(a) && Valid(b) && Before(a, b)
    ensures UnixNanos(a) < UnixNanos(b)
  {
    var da := DaysSinceEpoch(a.year, a.month, a.day);
    var db := DaysSinceEpoch(b.year, b.month, b.day);
    if a.year < b.year {
      DayWithinYear(a.month, a.day, a.year);
      YearsGrow(a.year + 1, b.year);
      YearStep(a.year);
      assert da < db;
    } else if a.month < b.month {
      MonthsGrow(a.month + 1, b.month, a.year);
      assert da < db;
    }
  }
}
