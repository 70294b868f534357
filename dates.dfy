/**
 * Go's `time.Parse("2006-01-02", v)`: the calendar-date layout used for the
 * `expires_at` field of an enrollment token, and the instant it denotes.
 * Instants are nanoseconds since 1970-01-01T00:00:00Z, the resolution of
 * Go's `time.Time`.
 */
module Dates {
  import opened Wrappers
  import Strconv

  datatype Date = Date(year: int, month: int, day: int)

  const NanosPerDay: int := 86_400_000_000_000

  /** Leap years of the proleptic Gregorian calendar. */
  predicate IsLeap(y: int) {
    y % 4 == 0 && (y % 100 != 0 || y % 400 == 0)
  }

  /** Days before the first of each month in a common year, and the year's length last (Go's daysBefore). */
  const DaysBefore: seq<int> := [0, 31, 59, 90, 120, 151, 181, 212, 243, 273, 304, 334, 365]

  /** Go's daysIn: February has 29 days in a leap year. */
  function DaysInMonth(m: int, y: int): (n: int)
    requires 1 <= m <= 12
    ensures 28 <= n <= 31
  {
    if m == 2 && IsLeap(y) then 29 else DaysBefore[m] - DaysBefore[m - 1]
  }

  function DaysInYear(y: int): int {
    if IsLeap(y) then 366 else 365
  }

  /** A date the layout can denote: a four-digit year, a month 1-12, a day within that month. */
  predicate IsValid(d: Date) {
    0 <= d.year <= 9999 && 1 <= d.month <= 12 && 1 <= d.day <= DaysInMonth(d.month, d.year)
  }

  /** The string has the shape DDDD-DD-DD. */
  predicate HasDateShape(s: string) {
    |s| == 10 && Strconv.AllDigits(s[..4]) && s[4] == '-' &&
    Strconv.AllDigits(s[5..7]) && s[7] == '-' && Strconv.AllDigits(s[8..])
  }

  /**
   * time.Parse with the layout "2006-01-02": exactly four year digits, two
   * month digits and two day digits separated by '-', no text after them, the
   * month in 1-12 and the day within that month of that year. None stands for
   * the error Go returns.
   */
  function ParseDate(s: string): (r: Option<Date>)
    ensures r.Some? ==> IsValid(r.value) && HasDateShape(s)
  {
    if HasDateShape(s) then
      DigitsBound(s[..4]);
      var d := Date(Strconv.DigitsValue(s[..4]), Strconv.DigitsValue(s[5..7]), Strconv.DigitsValue(s[8..]));
      if 1 <= d.month <= 12 && 1 <= d.day <= DaysInMonth(d.month, d.year) then Some(d) else None
    else None
  }

  /** A digit character. */
  function DigitChar(n: int): (c: char)
    requires 0 <= n < 10
    ensures Strconv.IsDigit(c) && Strconv.DigitValue(c) == n
  {
    ('0' as int + n) as char
  }

  function Power10(k: nat): (p: nat)
    ensures p > 0
  {
    if k == 0 then 1 else 10 * Power10(k - 1)
  }

  lemma {:induction false} DigitsBound(s: string)
    requires Strconv.AllDigits(s)
    ensures Strconv.DigitsValue(s) < Power10(|s|)
  {
    if s != [] {
      DigitsBound(s[..|s| - 1]);
    }
  }

  /** Zero-padded decimal with exactly `width` digits. */
  function Pad(n: nat, width: nat): (s: string)
    requires n < Power10(width)
    ensures |s| == width && Strconv.AllDigits(s)
    ensures Strconv.DigitsValue(s) == n
  {
    if width == 0 then []
    else
      var s := Pad(n / 10, width - 1) + [DigitChar(n % 10)];
      assert s[..|s| - 1] == Pad(n / 10, width - 1);
      s
  }

  /** The layout "2006-01-02" applied to a date (time.Format). */
  function FormatDate(d: Date): string
    requires IsValid(d)
  {
    assert Power10(2) == 100 && Power10(4) == 10000;
    Pad(d.year, 4) + "-" + Pad(d.month, 2) + "-" + Pad(d.day, 2)
  }

  /** Formatting a valid date and parsing it back gives the date. */
  lemma ParseFormatDate(d: Date)
    requires IsValid(d)
    ensures ParseDate(FormatDate(d)) == Some(d)
  {
    var s := FormatDate(d);
    assert s[..4] == Pad(d.year, 4);
    assert s[5..7] == Pad(d.month, 2);
    assert s[8..] == Pad(d.day, 2);
  }

  /** Days from 0000-01-01 to the first day of year y. */
  function DaysBeforeYear(y: nat): nat {
    if y == 0 then 0 else DaysBeforeYear(y - 1) + DaysInYear(y - 1)
  }

  /** Days from the first of January to the first day of month m of year y. */
  function DaysBeforeMonth(m: int, y: int): nat
    requires 1 <= m <= 12
  {
    DaysBefore[m - 1] + (if IsLeap(y) && m > 2 then 1 else 0)
  }

  /** Days from 0000-01-01 to d. */
  function DayNumber(d: Date): int
    requires IsValid(d)
  {
    DaysBeforeYear(d.year) + DaysBeforeMonth(d.month, d.year) + d.day - 1
  }

  /** The instant time.Parse returns: midnight UTC at the start of d. */
  function StartOfDay(d: Date): int
    requires IsValid(d)
  {
    (DayNumber(d) - DayNumber(Date(1970, 1, 1))) * NanosPerDay
  }

  /** Calendar order on dates. */
  predicate Before(a: Date, b: Date) {
    a.year < b.year || (a.year == b.year && (a.month < b.month || (a.month == b.month && a.day < b.day)))
  }

  lemma DaysBeforeMonthBound(m: int, y: int)
    requires 1 <= m <= 12
    ensures DaysBeforeMonth(m, y) + DaysInMonth(m, y) <= DaysInYear(y)
  {
  }

  lemma DaysBeforeMonthMonotone(m1: int, m2: int, y: int)
    requires 1 <= m1 < m2 <= 12
    ensures DaysBeforeMonth(m1, y) + DaysInMonth(m1, y) <= DaysBeforeMonth(m2, y)
  {
  }

  lemma {:induction false} DaysBeforeYearMonotone(y1: nat, y2: nat)
    requires y1 < y2
    ensures DaysBeforeYear(y1) + DaysInYear(y1) <= DaysBeforeYear(y2)
    decreases y2 - y1
  {
    if y1 + 1 < y2 {
      DaysBeforeYearMonotone(y1 + 1, y2);
    }
  }

  /** A strictly earlier calendar date starts at a strictly earlier instant. */
  lemma StartOfDayMonotone(a: Date, b: Date)
    requires IsValid(a) && IsValid(b) && Before(a, b)
    ensures StartOfDay(a) < StartOfDay(b)
  {
    if a.year < b.year {
      DaysBeforeMonthBound(a.month, a.year);
      DaysBeforeYearMonotone(a.year, b.year);
    } else if a.month < b.month {
      DaysBeforeMonthMonotone(a.month, b.month, a.year);
    }
    assert DayNumber(a) < DayNumber(b);
  }
}
