/** Civil-date arithmetic in the proleptic Gregorian calendar, in UTC: what
    time.Date computes for midnight of a date, and the facts about it the
    leap-second records depend on. Instants are whole seconds since
    1970-01-01T00:00:00Z. */
module Calendar {

  const SecondsPerDay := 86400

  predicate IsLeap(y: int) {
    y % 4 == 0 && (y % 100 != 0 || y % 400 == 0)
  }

  function DaysIn(y: int, m: int): (n: int)
    requires 1 <= m <= 12
    ensures 28 <= n <= 31
  {
    if m == 2 then (if IsLeap(y) then 29 else 28)
    else if m == 4 || m == 6 || m == 9 || m == 11 then 30
    else 31
  }

  datatype CivilDate = CivilDate(year: int, month: int, day: int)

  /** A date that exists in the calendar. */
  predicate Valid(d: CivilDate) {
    1 <= d.month <= 12 && 1 <= d.day <= DaysIn(d.year, d.month)
  }

  /** Days from the 1st of March of year 0 to the 1st of March of year `y0`:
      counting years from March puts the leap day at the end of the year. */
  function MarchYearStart(y0: int): int {
    var era, yoe := y0 / 400, y0 % 400;
    146097 * era + 365 * yoe + yoe / 4 - yoe / 100
  }

  /** Days from 1970-01-01 to y-m-d; `d` may run past the end of the month. */
  function DaysFromCivil(y: int, m: int, d: int): int
    requires 1 <= m <= 12
  {
    var y0 := if m <= 2 then y - 1 else y;
    var mp := if m > 2 then m - 3 else m + 9;
    MarchYearStart(y0) + (153 * mp + 2) / 5 + d - 1 - 719468
  }

  /** The instant hh:mm:ss UTC on date `d`. */
  function Seconds(d: CivilDate, hh: int, mm: int, ss: int): int
    requires 1 <= d.month <= 12
  {
    DaysFromCivil(d.year, d.month, d.day) * SecondsPerDay + hh * 3600 + mm * 60 + ss
  }

  /** time.Date(y, time.Month(m), d, 0, 0, 0, 0, time.UTC) in seconds. Neither
      month nor day is range-checked: month - 1 is carried into the year by
      floor division (month 0 is December of the year before, month 13 January
      of the year after), and the day is added as a count of days from the
      first of that month. */
  function DateMidnight(y: int, m: int, d: int): int {
    var y', m' := y + (m - 1) / 12, (m - 1) % 12 + 1;
    (DaysFromCivil(y', m', 1) + d - 1) * SecondsPerDay
  }

  /** The day before `d`. */
  function PreviousDay(d: CivilDate): CivilDate
    requires Valid(d)
  {
    if d.day > 1 then CivilDate(d.year, d.month, d.day - 1)
    else if d.month > 1 then CivilDate(d.year, d.month - 1, DaysIn(d.year, d.month - 1))
    else CivilDate(d.year - 1, 12, 31)
  }

  // ---------------------------------------------------------------------------
  // DaysFromCivil follows the calendar
  // ---------------------------------------------------------------------------

  /** 1970-01-01 is day 0. */
  lemma UnixEpoch()
    ensures DaysFromCivil(1970, 1, 1) == 0
  {
  }

  /** Euclidean division by one of the calendar's divisors is determined by
      quotient and remainder. */
  lemma DivModUnique(a: int, k: int, q: int, r: int)
    requires k == 4 || k == 12 || k == 100 || k == 400
    requires a == k * q + r && 0 <= r < k
    ensures a / k == q && a % k == r
  {
  }

  /** Within an era of 400 years, counting on by one year. */
  lemma YearOfEraStep(yoe: int)
    requires 0 <= yoe < 399
    ensures (yoe + 1) / 4 - yoe / 4 == if (yoe + 1) % 4 == 0 then 1 else 0
    ensures (yoe + 1) / 100 - yoe / 100 == if (yoe + 1) % 100 == 0 then 1 else 0
  {
    DivModUnique(yoe, 4, yoe / 4, yoe % 4);
    DivModUnique(yoe, 100, yoe / 100, yoe % 100);
    if yoe % 4 == 3 {
      DivModUnique(yoe + 1, 4, yoe / 4 + 1, 0);
    } else {
      DivModUnique(yoe + 1, 4, yoe / 4, yoe % 4 + 1);
    }
    if yoe % 100 == 99 {
      DivModUnique(yoe + 1, 100, yoe / 100 + 1, 0);
    } else {
      DivModUnique(yoe + 1, 100, yoe / 100, yoe % 100 + 1);
    }
  }

  /** A March-to-February year has 366 days exactly when the February in it
      has a leap day. */
  lemma MarchYearLength(y0: int)
    ensures MarchYearStart(y0 + 1) - MarchYearStart(y0) == if IsLeap(y0 + 1) then 366 else 365
  {
    var era, yoe := y0 / 400, y0 % 400;
    DivModUnique(y0, 400, era, yoe);
    var x := yoe + 1;
    if x < 400 {
      DivModUnique(y0 + 1, 400, era, x);
      DivModUnique(y0 + 1, 4, 100 * era + x / 4, x % 4);
      DivModUnique(y0 + 1, 100, 4 * era + x / 100, x % 100);
      YearOfEraStep(yoe);
    } else {
      DivModUnique(y0 + 1, 400, era + 1, 0);
      DivModUnique(y0 + 1, 4, 100 * (era + 1), 0);
    }
  }

  /** The first of month m comes DaysIn(m - 1) days after the first of m - 1. */
  lemma MonthStart(y: int, m: int)
    requires 2 <= m <= 12
    ensures DaysFromCivil(y, m, 1) == DaysFromCivil(y, m - 1, 1) + DaysIn(y, m - 1)
  {
    if m == 3 {
      MarchYearLength(y - 1);
    }
  }

  /** New Year's Day comes 31 days after the first of December. */
  lemma NewYear(y: int)
    ensures DaysFromCivil(y, 1, 1) == DaysFromCivil(y - 1, 12, 1) + 31
  {
  }

  /** Consecutive days of one month are one day apart. */
  lemma NextDayOfMonth(y: int, m: int, d: int)
    requires 1 <= m <= 12
    ensures DaysFromCivil(y, m, d + 1) == DaysFromCivil(y, m, d) + 1
  {
  }

  // ---------------------------------------------------------------------------
  // time.Date normalisation and the one-second correction
  // ---------------------------------------------------------------------------

  /** On an existing date, DateMidnight is midnight of that date. */
  lemma DateMidnightOfValid(d: CivilDate)
    requires Valid(d)
    ensures DateMidnight(d.year, d.month, d.day) == Seconds(d, 0, 0, 0)
  {
  }

  /** Within a year, the month needs no carrying. */
  lemma MonthInYear(y: int, m: int, d: int)
    requires 1 <= m <= 12
    ensures DateMidnight(y, m, d) == (DaysFromCivil(y, m, 1) + d - 1) * SecondsPerDay
  {
    DivModUnique(m - 1, 12, 0, m - 1);
  }

  lemma MonthOverflow(y: int, m: int)
    requires 1 <= m < 12
    ensures DateMidnight(y, m, DaysIn(y, m) + 1) == DateMidnight(y, m + 1, 1)
  {
    var n := DaysIn(y, m);
    MonthStart(y, m + 1);
    assert DaysFromCivil(y, m, 1) + n == DaysFromCivil(y, m + 1, 1);
    MonthInYear(y, m, n + 1);
    MonthInYear(y, m + 1, 1);
  }

  lemma YearOverflow(y: int)
    ensures DateMidnight(y, 12, 32) == DateMidnight(y + 1, 1, 1)
  {
    MonthInYear(y, 12, 32);
    MonthInYear(y + 1, 1, 1);
    NewYear(y + 1);
  }

  /** The day after the last day of a month is the first of the next month
      (of January of the next year after December). */
  lemma DayOverflowRollsOver(y: int, m: int)
    requires 1 <= m <= 12
    ensures DateMidnight(y, m, DaysIn(y, m) + 1) ==
              if m < 12 then DateMidnight(y, m + 1, 1) else DateMidnight(y + 1, 1, 1)
  {
    if m < 12 {
      MonthOverflow(y, m);
    } else {
      YearOverflow(y);
    }
  }

  /** Month 13 is January of the next year and month 0 December of the
      previous one. */
  lemma MonthCarry(y: int, m: int, d: int)
    ensures DateMidnight(y, m + 12, d) == DateMidnight(y + 1, m, d)
    ensures DateMidnight(y, 0, d) == DateMidnight(y - 1, 12, d)
  {
    DivModUnique(m - 1, 12, (m - 1) / 12, (m - 1) % 12);
    DivModUnique(m + 11, 12, (m - 1) / 12 + 1, (m - 1) % 12);
    DivModUnique(-1, 12, -1, 11);
    DivModUnique(11, 12, 0, 11);
  }

  /** The day before the first of a month other than January. */
  lemma DayBeforeMonthStart(y: int, m: int)
    requires 2 <= m <= 12
    ensures DaysFromCivil(y, m - 1, DaysIn(y, m - 1)) + 1 == DaysFromCivil(y, m, 1)
  {
    MonthStart(y, m);
    NextDayOfMonth(y, m - 1, DaysIn(y, m - 1));
  }

  /** PreviousDay is an existing date exactly one day earlier. */
  lemma DayBefore(d: CivilDate)
    requires Valid(d)
    ensures Valid(PreviousDay(d))
    ensures DaysFromCivil(PreviousDay(d).year, PreviousDay(d).month, PreviousDay(d).day) + 1 ==
              DaysFromCivil(d.year, d.month, d.day)
  {
    if d.day > 1 {
      NextDayOfMonth(d.year, d.month, d.day - 1);
    } else if d.month > 1 {
      DayBeforeMonthStart(d.year, d.month);
    } else {
      NewYear(d.year);
    }
  }

  /** Midnight of a date minus one second is 23:59:59 of the day before, also
      across month and year boundaries. */
  lemma MidnightMinusOneSecond(d: CivilDate)
    requires Valid(d)
    ensures Valid(PreviousDay(d))
    ensures DateMidnight(d.year, d.month, d.day) - 1 == Seconds(PreviousDay(d), 23, 59, 59)
  {
    DateMidnightOfValid(d);
    DayBefore(d);
  }
}
