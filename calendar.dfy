/**
 * Calendar dates as the program sees them: a date key `YYYY-MM-DD` (the date part of
 * `toISOString()`), a month key `YYYY-MM`, whole-day differences between two date keys
 * parsed at midnight, and the day of the year counted from 31 December of the year before.
 * The clock itself is never read: every operation takes today's date as a parameter.
 */
module Calendar {
  import opened Wrappers
  import opened Text

  /** A Gregorian date; `month` is 1..12 here (JavaScript's `getMonth()` is this minus one). */
  datatype Date = Date(year: int, month: int, day: int)

  const MS_PER_DAY: nat := 1000 * 3600 * 24

  predicate IsLeapYear(y: int) { y % 4 == 0 && (y % 100 != 0 || y % 400 == 0) }

  function DaysInMonth(y: int, m: int): int
  {
    if m == 2 then (if IsLeapYear(y) then 29 else 28)
    else if m == 4 || m == 6 || m == 9 || m == 11 then 30
    else 31
  }

  function DaysInYear(y: int): int { if IsLeapYear(y) then 366 else 365 }

  /** Days of year `y` that lie before the first of month `m` (13 stands for the year's end). */
  function DaysBeforeMonth(y: int, m: int): int
  {
    var k := if m < 1 then 1 else if m > 13 then 13 else m;
    [0, 31, 59, 90, 120, 151, 181, 212, 243, 273, 304, 334, 365][k - 1]
      + (if k > 2 && IsLeapYear(y) then 1 else 0)
  }

  /** Days from 1 January of year 0 to 1 January of year `y`. */
  function DaysBeforeYear(y: int): int
    decreases y
  {
    if y <= 0 then 0 else DaysBeforeYear(y - 1) + DaysInYear(y - 1)
  }

  /** A real calendar date from year 1 on. */
  predicate ValidDate(d: Date)
  {
    1 <= d.year && 1 <= d.month <= 12 && 1 <= d.day <= DaysInMonth(d.year, d.month)
  }

  /** A valid date whose year has four digits, so that `toISOString()` renders it as `YYYY-...`. */
  predicate KeyDate(d: Date) { ValidDate(d) && d.year <= 9999 }

  /** Days since 1 January of year 0: the date's midnight `getTime()` divided by one day. */
  function DayNumber(d: Date): int
  {
    DaysBeforeYear(d.year) + DaysBeforeMonth(d.year, d.month) + d.day - 1
  }

  /** Lexicographic order on (year, month, day). */
  predicate Before(a: Date, b: Date)
  {
    a.year < b.year || (a.year == b.year && (a.month < b.month || (a.month == b.month && a.day < b.day)))
  }

  function NextDay(d: Date): Date
  {
    if d.day < DaysInMonth(d.year, d.month) then Date(d.year, d.month, d.day + 1)
    else if d.month < 12 then Date(d.year, d.month + 1, 1)
    else Date(d.year + 1, 1, 1)
  }

  lemma DaysBeforeNextMonth(y: int, m: int)
    requires 1 <= m <= 12
    ensures DaysBeforeMonth(y, m + 1) == DaysBeforeMonth(y, m) + DaysInMonth(y, m)
    ensures DaysBeforeMonth(y, 13) == DaysInYear(y)
  {
  }

  lemma {:induction false} DaysBeforeYearGrows(a: int, b: int)
    requires 0 <= a < b
    ensures DaysBeforeYear(a) + DaysInYear(a) <= DaysBeforeYear(b)
    decreases b
  {
    if a < b - 1 {
      DaysBeforeYearGrows(a, b - 1);
    }
  }

  /** A valid date's day number lies inside its own year. */
  lemma DayNumberInYear(d: Date)
    requires ValidDate(d)
    ensures DaysBeforeYear(d.year) <= DayNumber(d) < DaysBeforeYear(d.year) + DaysInYear(d.year)
  {
    DaysBeforeNextMonth(d.year, d.month);
    assert DaysBeforeMonth(d.year, d.month + 1) <= DaysBeforeMonth(d.year, 13);
  }

  /** Day numbers order valid dates exactly as the calendar does. */
  lemma DayNumberOrder(a: Date, b: Date)
    requires ValidDate(a) && ValidDate(b)
    ensures Before(a, b) <==> DayNumber(a) < DayNumber(b)
    ensures a == b <==> DayNumber(a) == DayNumber(b)
  {
    if a.year != b.year {
      var lo, hi := if a.year < b.year then a else b, if a.year < b.year then b else a;
      DayNumberInYear(lo);
      DayNumberInYear(hi);
      DaysBeforeYearGrows(lo.year, hi.year);
    } else if a.month != b.month {
      var lo, hi := if a.month < b.month then a else b, if a.month < b.month then b else a;
      DaysBeforeNextMonth(lo.year, lo.month);
      assert DaysBeforeMonth(lo.year, lo.month + 1) <= DaysBeforeMonth(lo.year, hi.month);
    }
  }

  /** The next calendar day is a valid date exactly one day number later. */
  lemma NextDayNumber(d: Date)
    requires ValidDate(d)
    ensures ValidDate(NextDay(d))
    ensures DayNumber(NextDay(d)) == DayNumber(d) + 1
  {
    if d.day == DaysInMonth(d.year, d.month) {
      DaysBeforeNextMonth(d.year, d.month);
    }
  }

  /**
   * `Math.floor((new Date(today) - new Date(last)) / 86400000)`: whole days between two
   * date keys, both parsed as midnight. A key that does not denote a date parses to NaN,
   * which is `None` here (NaN fails both `=== 1` and `> 1`).
   */
  function DaysDiff(last: Date, today: Date): (r: Option<int>)
    requires ValidDate(today)
    ensures r.Some? <==> ValidDate(last)
  {
    if ValidDate(last) then Some((DayNumber(today) * MS_PER_DAY - DayNumber(last) * MS_PER_DAY) / MS_PER_DAY)
    else None
  }

  /** The millisecond difference is a whole number of days, so the floor loses nothing. */
  lemma DaysDiffValue(last: Date, today: Date)
    requires ValidDate(today) && ValidDate(last)
    ensures DaysDiff(last, today) == Some(DayNumber(today) - DayNumber(last))
  {
    var k := DayNumber(today) - DayNumber(last);
    assert DayNumber(today) * MS_PER_DAY - DayNumber(last) * MS_PER_DAY == k * MS_PER_DAY;
  }

  /** A gap of exactly one day means that today is the calendar day after the last one. */
  lemma DaysDiffOneIffNextDay(last: Date, today: Date)
    requires ValidDate(today) && ValidDate(last)
    ensures DaysDiff(last, today) == Some(1) <==> today == NextDay(last)
  {
    DaysDiffValue(last, today);
    NextDayNumber(last);
    DayNumberOrder(today, NextDay(last));
  }

  /** A gap of more than one day means that today is after the day after the last one. */
  lemma DaysDiffAboveOneIffLater(last: Date, today: Date)
    requires ValidDate(today) && ValidDate(last)
    ensures (DaysDiff(last, today).Some? && DaysDiff(last, today).value > 1) <==> Before(NextDay(last), today)
  {
    DaysDiffValue(last, today);
    NextDayNumber(last);
    DayNumberOrder(NextDay(last), today);
  }

  /** `toISOString().split('T')[0]`: the `YYYY-MM-DD` key of a date. */
  function DateKey(d: Date): string
    requires KeyDate(d)
  {
    Padded(d.year, 4) + "-" + Pad2(d.month) + "-" + Pad2(d.day)
  }

  /** `toISOString().substring(0, 7)`: the `YYYY-MM` key of a date's month. */
  function MonthKey(d: Date): (k: string)
    requires KeyDate(d)
    ensures |k| == 7
  {
    DateKeyLayout(d);
    DateKey(d)[..7]
  }

  lemma DateKeyLayout(d: Date)
    requires KeyDate(d)
    ensures |DateKey(d)| == 10
    ensures DateKey(d)[..4] == Padded(d.year, 4) && DateKey(d)[4] == '-'
    ensures DateKey(d)[5..7] == Pad2(d.month) && DateKey(d)[7] == '-'
    ensures DateKey(d)[8..] == Pad2(d.day)
    ensures DateKey(d)[..7] == Padded(d.year, 4) + "-" + Pad2(d.month)
  {
    KeyFieldLengths(d);
    KeyLayout(Padded(d.year, 4), Pad2(d.month), Pad2(d.day));
  }

  lemma KeyFieldLengths(d: Date)
    requires KeyDate(d)
    ensures |Padded(d.year, 4)| == 4 && |Pad2(d.month)| == 2 && |Pad2(d.day)| == 2
  {
    assert Pow10(2) == 100;
    assert Pow10(4) == 10000;
    PaddedLength(d.year, 4);
    PaddedLength(d.month, 2);
    PaddedLength(d.day, 2);
  }

  lemma KeyLayout(y: string, m: string, dd: string)
    requires |y| == 4 && |m| == 2 && |dd| == 2
    ensures var k := y + "-" + m + "-" + dd;
      && |k| == 10 && k[..4] == y && k[4] == '-' && k[5..7] == m && k[7] == '-'
      && k[8..] == dd && k[..7] == y + "-" + m
  {
  }

  /** Two dates share a date key exactly when they are the same date. */
  lemma DateKeyInjective(a: Date, b: Date)
    requires KeyDate(a) && KeyDate(b)
    ensures DateKey(a) == DateKey(b) <==> a == b
  {
    if DateKey(a) == DateKey(b) {
      DateKeyLayout(a);
      DateKeyLayout(b);
      PaddedInjective(a.year, b.year, 4);
      PaddedInjective(a.month, b.month, 2);
      PaddedInjective(a.day, b.day, 2);
    }
  }

  /** Two dates share a month key exactly when they fall in the same month of the same year. */
  lemma MonthKeySameMonth(a: Date, b: Date)
    requires KeyDate(a) && KeyDate(b)
    ensures MonthKey(a) == MonthKey(b) <==> a.year == b.year && a.month == b.month
  {
    MonthKeyFields(a);
    MonthKeyFields(b);
    if MonthKey(a) == MonthKey(b) {
      PaddedInjective(a.year, b.year, 4);
      PaddedInjective(a.month, b.month, 2);
    }
  }

  lemma MonthKeyFields(d: Date)
    requires KeyDate(d)
    ensures MonthKey(d) == Padded(d.year, 4) + "-" + Pad2(d.month)
    ensures MonthKey(d)[..4] == Padded(d.year, 4) && MonthKey(d)[5..] == Pad2(d.month)
  {
    DateKeyLayout(d);
    KeyFieldLengths(d);
    MonthLayout(Padded(d.year, 4), Pad2(d.month));
  }

  lemma MonthLayout(y: string, m: string)
    requires |y| == 4 && |m| == 2
    ensures (y + "-" + m)[..4] == y && (y + "-" + m)[5..] == m
  {
  }

  /**
   * `getDayOfYear`: the whole days between `new Date(year, 0, 0)` (midnight starting
   * 31 December of the year before) and the current instant, `msOfDay` milliseconds
   * after today's midnight.
   */
  function DayOfYear(d: Date, msOfDay: nat): int
    requires ValidDate(d) && msOfDay < MS_PER_DAY
  {
    var start := DayNumber(Date(d.year - 1, 12, 31)) * MS_PER_DAY;
    var now := DayNumber(d) * MS_PER_DAY + msOfDay;
    (now - start) / MS_PER_DAY
  }

  /** The day of the year is 1-based: 1 January gives 1 and 31 December gives 365 or 366. */
  lemma DayOfYearValue(d: Date, msOfDay: nat)
    requires ValidDate(d) && msOfDay < MS_PER_DAY
    ensures DayOfYear(d, msOfDay) == DaysBeforeMonth(d.year, d.month) + d.day
    ensures 1 <= DayOfYear(d, msOfDay) <= DaysInYear(d.year)
    ensures d.month == 1 && d.day == 1 ==> DayOfYear(d, msOfDay) == 1
  {
    var k := DaysBeforeMonth(d.year, d.month) + d.day;
    assert DayNumber(Date(d.year - 1, 12, 31)) == DaysBeforeYear(d.year) - 1;
    assert DayNumber(d) - DayNumber(Date(d.year - 1, 12, 31)) == k;
    var now := DayNumber(d) * MS_PER_DAY + msOfDay;
    var start := DayNumber(Date(d.year - 1, 12, 31)) * MS_PER_DAY;
    assert now - start == k * MS_PER_DAY + msOfDay;
    DayNumberInYear(d);
  }
}
