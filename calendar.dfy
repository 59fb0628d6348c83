/**
 * Calendar arithmetic on local time.  A timestamp is a count of local
 * wall-clock milliseconds since 1970-01-01T00:00 (the server's zone is
 * applied before the model sees it); a day is a count of days since
 * 1970-01-01.  Month keys ("yyyy-MM") are year/month pairs; their string
 * rendering and the order of those strings are related to the pairs below.
 */
module Calendar {
  import opened Strings

  const MillisPerSecond := 1000
  const MillisPerMinute := 60000
  const MillisPerHour := 3600000
  const MillisPerDay := 86400000

  /** The local date of a timestamp (`toLocalDate()`), as a day number. */
  function DayOf(ts: int): int
  {
    ts / MillisPerDay
  }

  /** The local hour of a timestamp (`Calendar.HOUR_OF_DAY`, SQL `HOUR`). */
  function HourOf(ts: int): (h: int)
    ensures 0 <= h < 24
  {
    (ts % MillisPerDay) / MillisPerHour
  }

  /** Later instants fall on the same day or a later one. */
  lemma DayOfMonotone(a: int, b: int)
    requires a <= b
    ensures DayOf(a) <= DayOf(b)
  {
  }

  /** `Calendar.DAY_OF_WEEK - 1`: 0 is Sunday, 6 is Saturday.  Day 0 (1970-01-01) was a Thursday. */
  function WeekdayFromSunday(day: int): (w: int)
    ensures 0 <= w < 7
    ensures w == (day + 4) % 7
  {
    (day + 4) % 7
  }

  /** `DayOfWeek.getValue()`: 1 is Monday, 7 is Sunday. */
  function IsoWeekday(day: int): (w: int)
    ensures 1 <= w <= 7
    ensures w % 7 == WeekdayFromSunday(day)
  {
    (day + 3) % 7 + 1
  }

  /** `date.minusDays(date.getDayOfWeek().getValue() - 1)`: the Monday that starts the date's week. */
  function WeekStart(day: int): (monday: int)
    ensures IsoWeekday(monday) == 1
    ensures day - 6 <= monday <= day
  {
    day - (IsoWeekday(day) - 1)
  }

  /** Every day of a Monday-to-Sunday week has that Monday as its week start. */
  lemma WeekStartOfWeek(monday: int, day: int)
    requires IsoWeekday(monday) == 1
    requires monday <= day <= monday + 6
    ensures WeekStart(day) == monday
  {
  }

  /** Proleptic Gregorian date to day number. */
  function DaysFromCivil(year: int, month: int, dayOfMonth: int): int
  {
    var y := if month <= 2 then year - 1 else year;
    var era := y / 400;
    var yoe := y - era * 400;
    var mp := if month > 2 then month - 3 else month + 9;
    var doy := (153 * mp + 2) / 5 + dayOfMonth - 1;
    var doe := yoe * 365 + yoe / 4 - yoe / 100 + doy;
    era * 146097 + doe - 719468
  }

  datatype Date = Date(year: int, month: int, dayOfMonth: int)

  /** Day number to proleptic Gregorian date. */
  function CivilFromDays(day: int): Date
  {
    var z := day + 719468;
    var era := z / 146097;
    var doe := z - era * 146097;
    var yoe := (doe - doe / 1460 + doe / 36524 - doe / 146096) / 365;
    var doy := doe - (365 * yoe + yoe / 4 - yoe / 100);
    var mp := (5 * doy + 2) / 153;
    var d := doy - (153 * mp + 2) / 5 + 1;
    var m := if mp < 10 then mp + 3 else mp - 9;
    Date(yoe + era * 400 + (if m <= 2 then 1 else 0), m, d)
  }

  /** A worked week: Wednesday 2024-03-13 belongs to the week of Monday 2024-03-11. */
  lemma WeekStartExample()
    ensures DaysFromCivil(2024, 3, 13) == 19795
    ensures DaysFromCivil(2024, 3, 11) == 19793
    ensures IsoWeekday(19795) == 3
    ensures WeekStart(19795) == 19793
  {
    assert 2024 / 400 == 5;
    assert (153 * 0 + 2) / 5 == 0;
    assert 24 / 4 == 6 && 24 / 100 == 0;
    assert (19795 + 3) % 7 == 2;
  }

  /** Reading 2024-03-13 back from its day number. */
  lemma CivilFromDaysExample()
    ensures CivilFromDays(19795) == Date(2024, 3, 13)
  {
    var z := 19795 + 719468;
    assert z / 146097 == 5;
    var doe := z - 5 * 146097;
    assert doe == 8778;
    assert doe / 1460 == 6 && doe / 36524 == 0 && doe / 146096 == 0;
    assert (doe - 6) / 365 == 24;
    assert 24 / 4 == 6 && 24 / 100 == 0;
    var doy := doe - (365 * 24 + 6);
    assert doy == 12;
    assert (5 * 12 + 2) / 153 == 0;
    assert (153 * 0 + 2) / 5 == 0;
  }

  /** Length of a month of the proleptic Gregorian calendar. */
  function DaysInMonth(year: int, month: int): int
  {
    if month == 2 then (if (year % 4 == 0 && year % 100 != 0) || year % 400 == 0 then 29 else 28)
    else if month == 4 || month == 6 || month == 9 || month == 11 then 30
    else 31
  }

  /** `LocalDate.minusMonths(n)`: the same day of the month n months earlier, clamped to that month's length. */
  function MinusMonths(day: int, n: int): int
  {
    var d := CivilFromDays(day);
    var index := d.year * 12 + (d.month - 1) - n;
    var y := index / 12;
    var m := index % 12 + 1;
    DaysFromCivil(y, m, if d.dayOfMonth > DaysInMonth(y, m) then DaysInMonth(y, m) else d.dayOfMonth)
  }

  datatype YearMonth = YearMonth(year: int, month: int)

  /** The "yyyy-MM" key of a day, before rendering. */
  function MonthOf(day: int): YearMonth
  {
    var d := CivilFromDays(day);
    YearMonth(d.year, d.month)
  }

  /** Months counted from year 0: consecutive months have consecutive indices. */
  function MonthIndex(ym: YearMonth): int
  {
    ym.year * 12 + ym.month - 1
  }

  /** A month whose "yyyy-MM" rendering has exactly four year digits. */
  predicate ValidYearMonth(ym: YearMonth)
  {
    0 <= ym.year <= 9999 && 1 <= ym.month <= 12
  }

  /** `DateTimeFormatter.ofPattern("yyyy-MM")`. */
  function FormatYearMonth(ym: YearMonth): (s: string)
    requires ValidYearMonth(ym)
    ensures |s| == 7 && s[4] == '-'
    ensures forall i :: 0 <= i < 7 && i != 4 ==> IsDigit(s[i])
  {
    PadDigits(ym.year, 4) + "-" + PadDigits(ym.month, 2)
  }

  /** The year and month can be read back from the rendering. */
  lemma FormatYearMonthParts(ym: YearMonth)
    requires ValidYearMonth(ym)
    ensures DigitsValue(FormatYearMonth(ym)[0..4]) == ym.year
    ensures DigitsValue(FormatYearMonth(ym)[5..7]) == ym.month
  {
    var s := FormatYearMonth(ym);
    assert s[0..4] == PadDigits(ym.year, 4);
    assert s[5..7] == PadDigits(ym.month, 2);
    PadDigitsValue(ym.year, 4);
    PadDigitsValue(ym.month, 2);
  }

  /** String order of "yyyy-MM" keys is chronological order: what `sorted()` and `compareTo` on the keys compute. */
  lemma {:induction false} FormatYearMonthOrder(a: YearMonth, b: YearMonth)
    requires ValidYearMonth(a) && ValidYearMonth(b)
    ensures StrLess(FormatYearMonth(a), FormatYearMonth(b)) <==> MonthIndex(a) < MonthIndex(b)
  {
    var ya, yb := PadDigits(a.year, 4), PadDigits(b.year, 4);
    var ma, mb := PadDigits(a.month, 2), PadDigits(b.month, 2);
    assert FormatYearMonth(a) == ya + ("-" + ma);
    assert FormatYearMonth(b) == yb + ("-" + mb);
    StrLessConcat(ya, "-" + ma, yb, "-" + mb);
    StrLessConcat("-", ma, "-", mb);
    StrLessIrreflexive("-");
    if a.year < b.year {
      PadDigitsOrder(a.year, b.year, 4);
    } else if b.year < a.year {
      PadDigitsOrder(b.year, a.year, 4);
      StrLessAsymmetric(yb, ya);
    } else {
      StrLessIrreflexive(ya);
    }
    if a.month < b.month {
      PadDigitsOrder(a.month, b.month, 2);
    } else if b.month < a.month {
      PadDigitsOrder(b.month, a.month, 2);
      StrLessAsymmetric(mb, ma);
    } else {
      StrLessIrreflexive(ma);
    }
  }

  /** Distinct months have distinct keys. */
  lemma FormatYearMonthInjective(a: YearMonth, b: YearMonth)
    requires ValidYearMonth(a) && ValidYearMonth(b)
    ensures FormatYearMonth(a) == FormatYearMonth(b) <==> a == b
  {
    FormatYearMonthParts(a);
    FormatYearMonthParts(b);
  }
}
