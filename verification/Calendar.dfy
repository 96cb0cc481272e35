/**
 UTC calendar arithmetic as section 21.4.1 of ECMA-262 defines it, on day numbers counted from
 1 January 1970 (which may be negative) and on whole minutes counted from the same instant.
 Months run from 0 to 11.
 */
module Calendar {
  import opened Arithmetic

  const MINUTES_PER_DAY := 1440

  predicate IsLeap(year: int) {
    year % 4 == 0 && (year % 100 != 0 || year % 400 == 0)
  }

  /** The day number of 1 January. Division is floor division. */
  function DayFromYear(year: int): int {
    365 * (year - 1970) + (year - 1969) / 4 - (year - 1901) / 100 + (year - 1601) / 400
  }

  lemma ShiftMod(x: int, k: int, n: int)
    requires k > 0
    ensures (x - k * n) % k == x % k
  {
    DivModUnique(x - k * n, k, x / k - n, x % k);
  }

  lemma YearLength(year: int)
    ensures DayFromYear(year + 1) == DayFromYear(year) + (if IsLeap(year) then 366 else 365)
  {
    FloorStep(year - 1969, 4);
    FloorStep(year - 1901, 100);
    FloorStep(year - 1601, 400);
    ShiftMod(year, 4, 492);
    ShiftMod(year, 100, 19);
    ShiftMod(year, 400, 4);
    if year % 400 == 0 {
      DivModUnique(year, 100, 4 * (year / 400), 0);
    }
    if year % 100 == 0 {
      DivModUnique(year, 4, 25 * (year / 100), 0);
    }
  }

  /** The year whose days include day `d`, searched for from a guess. */
  function YearFrom(d: int, guess: int): (year: int)
    ensures DayFromYear(year) <= d < DayFromYear(year + 1)
    decreases if d < DayFromYear(guess) then DayFromYear(guess) - d else d - DayFromYear(guess),
              if d < DayFromYear(guess) then 1 else 0
  {
    hide DayFromYear, IsLeap;
    YearLength(guess);
    YearLength(guess - 1);
    if d < DayFromYear(guess - 1) then YearFrom(d, guess - 1)
    else if d < DayFromYear(guess) then guess - 1
    else if d < DayFromYear(guess + 1) then guess
    else YearFrom(d, guess + 1)
  }

  function YearOfDay(d: int): (year: int)
    ensures DayFromYear(year) <= d < DayFromYear(year + 1)
  {
    YearFrom(d, 1970)
  }

  lemma {:induction false} YearsIncrease(y: int, z: int)
    requires y <= z
    ensures DayFromYear(y) + 365 * (z - y) <= DayFromYear(z)
    decreases z - y
  {
    if y >= z {
    } else {
      YearLength(y);
      YearsIncrease(y + 1, z);
    }
  }

  /** Days of the year before the first of a month; month 12 is the whole year. */
  function DaysBefore(month: int, leap: bool): int
    requires 0 <= month <= 12
  {
    [0, 31, 59, 90, 120, 151, 181, 212, 243, 273, 304, 334, 365][month] + if leap && month >= 2 then 1 else 0
  }

  function MonthOfYearDay(n: int, leap: bool): (month: int)
    requires 0 <= n < DaysBefore(12, leap)
    ensures 0 <= month < 12 && DaysBefore(month, leap) <= n < DaysBefore(month + 1, leap)
  {
    if n < DaysBefore(1, leap) then 0
    else if n < DaysBefore(2, leap) then 1
    else if n < DaysBefore(3, leap) then 2
    else if n < DaysBefore(4, leap) then 3
    else if n < DaysBefore(5, leap) then 4
    else if n < DaysBefore(6, leap) then 5
    else if n < DaysBefore(7, leap) then 6
    else if n < DaysBefore(8, leap) then 7
    else if n < DaysBefore(9, leap) then 8
    else if n < DaysBefore(10, leap) then 9
    else if n < DaysBefore(11, leap) then 10
    else 11
  }

  function MonthOfDay(d: int): (month: int)
    ensures 0 <= month < 12
  {
    var year := YearOfDay(d);
    YearLength(year);
    MonthOfYearDay(d - DayFromYear(year), IsLeap(year))
  }

  /** The day of the month, from 1. */
  function DateOfDay(d: int): int {
    d - DayFromYear(YearOfDay(d)) - DaysBefore(MonthOfDay(d), IsLeap(YearOfDay(d))) + 1
  }

  /** 0 is Sunday; day 0 was a Thursday. */
  function WeekDay(d: int): (w: int)
    ensures 0 <= w < 7
  {
    (d + 4) % 7
  }

  /** MakeDay: months beyond 11 carry into the year, dates beyond the month's end run on. */
  function MakeDay(year: int, month: int, date: int): int {
    var y := year + month / 12;
    DayFromYear(y) + DaysBefore(month % 12, IsLeap(y)) + date - 1
  }

  /** The number of days in a month. */
  function MonthLength(year: int, month: int): int
    requires 0 <= month < 12
  {
    if month == 1 then (if IsLeap(year) then 29 else 28)
    else if month in {3, 5, 8, 10} then 30
    else 31
  }

  lemma MonthAddsUp(year: int, month: int)
    requires 0 <= month < 12
    ensures DaysBefore(month + 1, IsLeap(year)) == DaysBefore(month, IsLeap(year)) + MonthLength(year, month)
  {
    hide IsLeap;
  }

  lemma YearDays(leap: bool)
    ensures DaysBefore(0, leap) == 0 && DaysBefore(12, leap) == if leap then 366 else 365
  {
  }

  /** The first day of the following month is one month length later. */
  lemma NextMonthStart(year: int, month: int)
    requires 0 <= month < 12
    ensures MakeDay(year, month + 1, 1) == MakeDay(year, month, 1) + MonthLength(year, month)
  {
    hide DayFromYear, IsLeap, DaysBefore;
    YearLength(year);
    MonthAddsUp(year, month);
    YearDays(IsLeap(year));
    DivModUnique(month, 12, 0, month);
    if month < 11 {
      DivModUnique(month + 1, 12, 0, month + 1);
    } else {
      DivModUnique(month + 1, 12, 1, 0);
      YearDays(IsLeap(year + 1));
    }
  }

  /** Day numbers and civil dates are in bijection: from a day number and back. */
  lemma DayToCivilToDay(d: int)
    ensures MakeDay(YearOfDay(d), MonthOfDay(d), DateOfDay(d)) == d
    ensures 1 <= DateOfDay(d) <= MonthLength(YearOfDay(d), MonthOfDay(d))
  {
    hide DayFromYear, IsLeap, YearOfDay;
    var year, month := YearOfDay(d), MonthOfDay(d);
    YearLength(year);
    assert month / 12 == 0 && month % 12 == month;
  }

  lemma YearOfDayIs(d: int, year: int)
    requires DayFromYear(year) <= d < DayFromYear(year + 1)
    ensures YearOfDay(d) == year
  {
    hide DayFromYear, YearFrom;
    var y := YearOfDay(d);
    if y < year {
      YearsIncrease(y + 1, year);
    } else if year < y {
      YearsIncrease(year + 1, y);
    }
  }

  lemma MonthsOrdered(n: int, n': int, leap: bool, m: int, k: int)
    requires 0 <= m < 12 && 0 <= k < 12 && n <= n'
    requires DaysBefore(m, leap) <= n < DaysBefore(m + 1, leap)
    requires DaysBefore(k, leap) <= n' < DaysBefore(k + 1, leap)
    ensures m <= k
  {
  }

  /** From a civil date and back. */
  lemma CivilToDayToCivil(year: int, month: int, date: int)
    requires 0 <= month < 12 && 1 <= date <= MonthLength(year, month)
    ensures var d := MakeDay(year, month, date);
            YearOfDay(d) == year && MonthOfDay(d) == month && DateOfDay(d) == date
  {
    hide DayFromYear, IsLeap;
    var d := MakeDay(year, month, date);
    YearLength(year);
    assert month / 12 == 0 && month % 12 == month;
    MonthAddsUp(year, month);
    assert DayFromYear(year) <= d < DayFromYear(year + 1);
    YearOfDayIs(d, year);
    MonthsOrdered(d - DayFromYear(year), d - DayFromYear(year), IsLeap(year), month, MonthOfDay(d));
    MonthsOrdered(d - DayFromYear(year), d - DayFromYear(year), IsLeap(year), MonthOfDay(d), month);
  }

  /** A month is the half-open interval of days between its own start and the next month's. */
  lemma DaysOfMonth(d: int, year: int, month: int)
    requires 0 <= month < 12
    ensures YearOfDay(d) == year && MonthOfDay(d) == month <==>
            MakeDay(year, month, 1) <= d < MakeDay(year, month + 1, 1)
  {
    hide DayFromYear, IsLeap, YearOfDay, MonthOfDay, MonthLength, DaysBefore;
    NextMonthStart(year, month);
    if MakeDay(year, month, 1) <= d < MakeDay(year, month + 1, 1) {
      CivilToDayToCivil(year, month, d - MakeDay(year, month, 1) + 1);
    }
    DayToCivilToDay(d);
  }

  // What fixes the calendar.

  /** Day 0 is 1 January 1970, a Thursday, and weekdays follow one another. */
  lemma Epoch(d: int)
    ensures YearOfDay(0) == 1970 && MonthOfDay(0) == 0 && DateOfDay(0) == 1 && WeekDay(0) == 4
    ensures WeekDay(d + 1) == if WeekDay(d) == 6 then 0 else WeekDay(d) + 1
  {
    assert DayFromYear(1970) == 0 && DayFromYear(1971) == 365;
    YearOfDayIs(0, 1970);
    var w := WeekDay(d);
    DivModUnique(d + 4, 7, (d + 4) / 7, w);
    if w == 6 {
      DivModUnique(d + 5, 7, (d + 4) / 7 + 1, 0);
    } else {
      DivModUnique(d + 5, 7, (d + 4) / 7, w + 1);
    }
    hide DayFromYear;
  }

  /** The length of each month. */
  lemma MonthLengths(year: int, month: int)
    requires 0 <= month < 12
    ensures var february := if year % 400 == 0 || (year % 4 == 0 && year % 100 != 0) then 29 else 28;
            MonthLength(year, month) == [31, february, 31, 30, 31, 30, 31, 31, 30, 31, 30, 31][month]
  {
    if year % 400 == 0 {
      DivModUnique(year, 4, 100 * (year / 400), 0);
    }
  }

  // Whole minutes.

  function Day(t: int): int {
    t / MINUTES_PER_DAY
  }

  function Year(t: int): int {
    YearOfDay(Day(t))
  }

  /** getUTCMonth, from 0. */
  function Month(t: int): (month: int)
    ensures 0 <= month < 12
  {
    MonthOfDay(Day(t))
  }

  /** getUTCDate, from 1. */
  function Date(t: int): int {
    DateOfDay(Day(t))
  }

  function Hour(t: int): (hour: int)
    ensures 0 <= hour < 24
  {
    t % MINUTES_PER_DAY / 60
  }

  function Minute(t: int): (minute: int)
    ensures 0 <= minute < 60
  {
    t % 60
  }

  /** Every minute is a day, an hour and a minute on the clock. */
  lemma Clock(t: int)
    ensures t == Day(t) * MINUTES_PER_DAY + Hour(t) * 60 + Minute(t)
    ensures t / 60 == Day(t) * 24 + Hour(t)
    ensures t % MINUTES_PER_DAY == Hour(t) * 60 + Minute(t)
  {
    var d, r := t / MINUTES_PER_DAY, t % MINUTES_PER_DAY;
    DivModUnique(t, 60, 24 * d + r / 60, r % 60);
  }

  /** And these are the only ones. */
  lemma ClockUnique(t: int, day: int, hour: int, minute: int)
    requires t == day * MINUTES_PER_DAY + hour * 60 + minute && 0 <= hour < 24 && 0 <= minute < 60
    ensures Day(t) == day && Hour(t) == hour && Minute(t) == minute && t / 60 == day * 24 + hour
  {
    DivModUnique(t, MINUTES_PER_DAY, day, hour * 60 + minute);
    DivModUnique(hour * 60 + minute, 60, hour, minute);
    DivModUnique(t, 60, 24 * day + hour, minute);
  }

  function SetMonth(t: int, month: int, date: int): int {
    MakeDay(Year(t), month, date) * MINUTES_PER_DAY + t % MINUTES_PER_DAY
  }

  function SetDate(t: int, date: int): int {
    MakeDay(Year(t), Month(t), date) * MINUTES_PER_DAY + t % MINUTES_PER_DAY
  }

  function SetHours(t: int, hour: int, minute: int): int {
    Day(t) * MINUTES_PER_DAY + hour * 60 + minute
  }

  function SetMinutes(t: int, minute: int): int {
    Day(t) * MINUTES_PER_DAY + Hour(t) * 60 + minute
  }

  /** Months counted from year 0. */
  function MonthIndex(t: int): int {
    12 * Year(t) + Month(t)
  }

  /**
   The first of the next month at 00:00 is later, is one month on, and every minute before it is still in this
   month.
   */
  lemma NextMonth(t: int)
    ensures var next := SetHours(SetMonth(t, Month(t) + 1, 1), 0, 0);
            && t < next && Day(t) < Day(next)
            && next % MINUTES_PER_DAY == 0
            && MonthIndex(next) == MonthIndex(t) + 1
            && forall u :: t <= u < next ==> Month(u) == Month(t)
  {
    hide DayFromYear, IsLeap, YearOfDay, MonthOfDay, DaysBefore;
    var d, year, month := Day(t), Year(t), Month(t);
    var end := MakeDay(year, month + 1, 1);
    DaysOfMonth(d, year, month);
    var next := SetHours(SetMonth(t, month + 1, 1), 0, 0);
    Clock(t);
    ClockUnique(SetMonth(t, month + 1, 1), end, Hour(t), Minute(t));
    ClockUnique(next, end, 0, 0);
    forall u | t <= u < next ensures Month(u) == month {
      Clock(u);
      DaysOfMonth(Day(u), year, month);
    }
    hide Day, Hour, Minute;
    var y, m := if month < 11 then year else year + 1, (month + 1) % 12;
    assert MakeDay(y, m, 1) == end;
    NextMonthStart(y, m);
    assert Day(next) == end;
    DaysOfMonth(end, y, m);
  }

  lemma DateAfter(t: int)
    ensures SetDate(t, Date(t) + 1) == (Day(t) + 1) * MINUTES_PER_DAY + t % MINUTES_PER_DAY
  {
    DayToCivilToDay(Day(t));
    hide DayFromYear, IsLeap, YearOfDay, MonthOfDay, DateOfDay, DaysBefore, MonthLength, Day;
  }

  /** The next day at 00:00. */
  lemma NextDay(t: int)
    ensures var next := SetHours(SetDate(t, Date(t) + 1), 0, 0);
            next == (Day(t) + 1) * MINUTES_PER_DAY
  {
    hide SetDate, Date, Day, Hour, Minute;
    DateAfter(t);
    Clock(t);
    ClockUnique(SetDate(t, Date(t) + 1), Day(t) + 1, Hour(t), Minute(t));
  }

  /** The next hour at minute 0. */
  lemma NextHour(t: int)
    ensures var next := SetHours(t, Hour(t) + 1, 0);
            && t < next == (t / 60 + 1) * 60
            && forall u :: t <= u < next ==> Hour(u) == Hour(t) && Day(u) == Day(t)
  {
    hide Day, Hour, Minute;
    Clock(t);
    forall u | t <= u < SetHours(t, Hour(t) + 1, 0) ensures Hour(u) == Hour(t) && Day(u) == Day(t) {
      ClockUnique(u, Day(t), Hour(t), Minute(t) + u - t);
    }
  }

  /** The next hour on the clock. */
  lemma HourStep(t: int)
    ensures t / 60 * 60 <= t <= t / 60 * 60 + 59
    ensures var next := SetHours(t, Hour(t) + 1, 0);
            && next / 60 == t / 60 + 1
            && Minute(next) == 0
            && if Hour(t) < 23 then Day(next) == Day(t) && Hour(next) == Hour(t) + 1
               else Day(next) == Day(t) + 1 && Hour(next) == 0
  {
    hide Day, Hour, Minute;
    Clock(t);
    if Hour(t) < 23 {
      ClockUnique(SetHours(t, Hour(t) + 1, 0), Day(t), Hour(t) + 1, 0);
    } else {
      ClockUnique(SetHours(t, Hour(t) + 1, 0), Day(t) + 1, 0, 0);
    }
  }

  /** One minute later on the clock. */
  lemma MinuteStep(t: int)
    ensures SetMinutes(t, Minute(t) + 1) == t + 1
    ensures t / 60 * 60 <= t <= t / 60 * 60 + 59
    ensures if Minute(t) < 59 then
              Day(t + 1) == Day(t) && (t + 1) / 60 == t / 60 && Hour(t + 1) == Hour(t) && Minute(t + 1) == Minute(t) + 1
            else
              && (t + 1) / 60 == t / 60 + 1
              && Minute(t + 1) == 0
              && if Hour(t) < 23 then Day(t + 1) == Day(t) && Hour(t + 1) == Hour(t) + 1
                 else Day(t + 1) == Day(t) + 1 && Hour(t + 1) == 0
  {
    hide Day, Hour, Minute;
    Clock(t);
    if Minute(t) < 59 {
      ClockUnique(t + 1, Day(t), Hour(t), Minute(t) + 1);
    } else if Hour(t) < 23 {
      ClockUnique(t + 1, Day(t), Hour(t) + 1, 0);
    } else {
      ClockUnique(t + 1, Day(t) + 1, 0, 0);
    }
  }

  lemma SameHour(t: int, u: int)
    requires t / 60 == u / 60
    ensures Day(t) == Day(u) && Hour(t) == Hour(u)
  {
    hide Day, Hour, Minute;
    Clock(t);
    Clock(u);
    ClockUnique(u, Day(t), Hour(t), Minute(u));
  }

  /** Minutes up to the end of a day are in it. */
  lemma SameDay(t: int)
    ensures t < (Day(t) + 1) * MINUTES_PER_DAY
    ensures forall u :: t <= u < (Day(t) + 1) * MINUTES_PER_DAY ==> Day(u) == Day(t)
  {
    forall u | t <= u < (Day(t) + 1) * MINUTES_PER_DAY ensures Day(u) == Day(t) {
      DivModUnique(u, MINUTES_PER_DAY, Day(t), u - Day(t) * MINUTES_PER_DAY);
    }
  }

  lemma {:induction false} MonthIndexMonotone(t: int, u: int)
    requires t <= u
    ensures MonthIndex(t) <= MonthIndex(u)
  {
    hide DayFromYear, IsLeap, YearOfDay;
    var d, e := Day(t), Day(u);
    var y, z := YearOfDay(d), YearOfDay(e);
    if z < y {
      YearsIncrease(z + 1, y);
    }
    if y == z {
      YearLength(y);
      var leap, m, k := IsLeap(y), MonthOfDay(d), MonthOfDay(e);
      MonthsOrdered(d - DayFromYear(y), e - DayFromYear(y), leap, m, k);
    }
  }
}
