/**
 UTC dates as day numbers from 1 January 1970, by the date arithmetic of section 21.4.1 of ECMA-262,
 and the week dates of section 4.1.4 of ISO 8601:2004.
 */
module Calendar {
  import opened MachineInts

  const MS_PER_DAY: int := 86_400_000

  function Day(time: int): int {
    time / MS_PER_DAY
  }

  // ----- years and months -----

  function DayFromYear(y: int): int {
    365 * (y - 1970) + (y - 1969) / 4 - (y - 1901) / 100 + (y - 1601) / 400
  }

  predicate Leap(y: int) {
    y % 4 == 0 && (y % 100 != 0 || y % 400 == 0)
  }

  lemma YearLength(y: int)
    ensures DayFromYear(y + 1) - DayFromYear(y) == if Leap(y) then 366 else 365
  {
    hide DayFromYear;
    FourthYears(y);
    HundredthYears(y);
    FourHundredthYears(y);
    Multiples(y);
    YearParts(y);
  }

  lemma YearParts(y: int)
    ensures DayFromYear(y + 1) - DayFromYear(y) ==
              365 + ((y - 1968) / 4 - (y - 1969) / 4) - ((y - 1900) / 100 - (y - 1901) / 100)
              + ((y - 1600) / 400 - (y - 1601) / 400)
  {
  }

  lemma Multiples(y: int)
    ensures y % 400 == 0 ==> y % 100 == 0
    ensures y % 100 == 0 ==> y % 4 == 0
  {
    if y % 400 == 0 {
      assert y == 400 * (y / 400);
      Hundreds(y / 400);
    }
    if y % 100 == 0 {
      assert y == 100 * (y / 100);
      Fours(y / 100);
    }
  }

  lemma Hundreds(k: int)
    ensures (400 * k) % 100 == 0
  {
  }

  lemma Fours(k: int)
    ensures (100 * k) % 4 == 0
  {
  }

  lemma FourthYears(y: int)
    ensures (y - 1968) / 4 - (y - 1969) / 4 == if y % 4 == 0 then 1 else 0
  {
  }

  lemma HundredthYears(y: int)
    ensures (y - 1900) / 100 - (y - 1901) / 100 == if y % 100 == 0 then 1 else 0
  {
  }

  lemma FourHundredthYears(y: int)
    ensures (y - 1600) / 400 - (y - 1601) / 400 == if y % 400 == 0 then 1 else 0
  {
  }

  lemma YearGap(y: int)
    ensures DayFromYear(y) < DayFromYear(y + 1)
  {
    YearLength(y);
  }

  /** The year of a day, found from any starting guess. */
  function YearFrom(day: int, guess: int): (y: int)
    ensures DayFromYear(y) <= day < DayFromYear(y + 1)
    decreases if DayFromYear(guess) > day then 1 else 0, Abs(day - DayFromYear(guess))
  {
    YearGap(guess - 1);
    YearGap(guess);
    if DayFromYear(guess) > day then YearFrom(day, guess - 1)
    else if DayFromYear(guess + 1) <= day then YearFrom(day, guess + 1)
    else guess
  }

  function Year(day: int): (y: int)
    ensures DayFromYear(y) <= day < DayFromYear(y + 1)
  {
    YearFrom(day, 1970)
  }

  lemma {:induction false} YearStartsGrow(y: int, z: int)
    requires y <= z
    ensures DayFromYear(y) <= DayFromYear(z)
    decreases z - y
  {
    if y < z {
      YearLength(z - 1);
      YearStartsGrow(y, z - 1);
    }
  }

  lemma YearGrows(day: int, later: int)
    requires day <= later
    ensures Year(day) <= Year(later)
  {
    hide DayFromYear;
    if Year(later) < Year(day) {
      YearStartsGrow(Year(later) + 1, Year(day));
      assert false;
    }
  }

  lemma YearUnique(day: int, y: int)
    requires DayFromYear(y) <= day < DayFromYear(y + 1)
    ensures Year(day) == y
  {
    hide DayFromYear;
    if Year(day) < y {
      YearStartsGrow(Year(day) + 1, y);
      assert false;
    } else if y < Year(day) {
      YearStartsGrow(y + 1, Year(day));
      assert false;
    }
  }

  function DayInYear(day: int): (k: nat)
    ensures k < 365 + LeapDay(Year(day))
  {
    YearLength(Year(day));
    day - DayFromYear(Year(day))
  }

  /** The days of a year before month `m`, counted from 0, in a year with leap day `l`. */
  function MonthStart(m: nat, l: nat): nat {
    if m == 0 then 0 else if m == 1 then 31
    else l + (if m == 2 then 59 else if m == 3 then 90 else if m == 4 then 120 else if m == 5 then 151
              else if m == 6 then 181 else if m == 7 then 212 else if m == 8 then 243 else if m == 9 then 273
              else if m == 10 then 304 else 334)
  }

  function LeapDay(y: int): nat {
    if Leap(y) then 1 else 0
  }

  function MonthAt(k: nat, l: nat): (m: nat)
    ensures m < 12 && MonthStart(m, l) <= k
  {
    if k < 31 then 0 else if k < 59 + l then 1 else if k < 90 + l then 2 else if k < 120 + l then 3
    else if k < 151 + l then 4 else if k < 181 + l then 5 else if k < 212 + l then 6 else if k < 243 + l then 7
    else if k < 273 + l then 8 else if k < 304 + l then 9 else if k < 334 + l then 10 else 11
  }

  function Month(day: int): (m: nat)
    ensures m < 12
  {
    MonthAt(DayInYear(day), LeapDay(Year(day)))
  }

  function DayOfMonth(day: int): nat {
    DayInYear(day) - MonthStart(Month(day), LeapDay(Year(day))) + 1
  }

  /** Months counted through the years. */
  function MonthIndex(day: int): int {
    12 * Year(day) + Month(day)
  }

  lemma MonthsGrow(day: int, later: int)
    requires day <= later
    ensures MonthIndex(day) <= MonthIndex(later)
  {
    hide DayFromYear, YearFrom, Year, Leap;
    YearGrows(day, later);
  }

  /** No month has more than 31 days. */
  lemma MonthsPass(day: int)
    ensures MonthIndex(day) < MonthIndex(day + 31)
  {
    hide DayFromYear, YearFrom, Year, Leap;
    YearGrows(day, day + 31);
    if Year(day + 31) == Year(day) {
      assert DayInYear(day + 31) == DayInYear(day) + 31;
      LaterMonth(DayInYear(day), LeapDay(Year(day)));
    }
  }

  lemma LaterMonth(k: nat, l: nat)
    requires l <= 1 && k + 31 < 365 + l
    ensures MonthAt(k, l) < MonthAt(k + 31, l)
  {
  }

  lemma {:induction false} ManyMonthsPass(day: int, later: int, n: nat)
    requires day + 31 * n <= later
    ensures MonthIndex(day) + n <= MonthIndex(later)
    decreases n
  {
    hide MonthIndex;
    if n == 0 {
      MonthsGrow(day, later);
    } else {
      MonthsPass(day);
      ManyMonthsPass(day + 31, later, n - 1);
    }
  }

  datatype DayKey = DayKey(year: int, month: nat, date: nat)
  datatype WeekKey = WeekKey(year: int, week: int)
  datatype MonthKey = MonthKey(year: int, month: nat)

  function DayKeyOf(day: int): DayKey {
    DayKey(Year(day), Month(day), DayOfMonth(day))
  }

  function MonthKeyOf(day: int): MonthKey {
    MonthKey(Year(day), Month(day))
  }

  lemma DayKeyExact(a: int, b: int)
    ensures DayKeyOf(a) == DayKeyOf(b) <==> a == b
  {
    hide DayFromYear, YearFrom, Year, Leap, MonthAt, MonthStart;
  }

  lemma MonthKeyExact(a: int, b: int)
    ensures MonthKeyOf(a) == MonthKeyOf(b) <==> MonthIndex(a) == MonthIndex(b)
  {
    hide DayFromYear, YearFrom, Year, Leap, MonthAt, DayInYear;
  }

  // ----- the calendar is the civil one -----

  /** Thirty days have September, April, June and November; February has 28, or 29 in a leap year. */
  function DaysIn(y: int, m: nat): nat {
    if m == 3 || m == 5 || m == 8 || m == 10 then 30
    else if m != 1 then 31
    else if y % 4 == 0 && (y % 100 != 0 || y % 400 == 0) then 29 else 28
  }

  lemma NextInYear(k: nat, l: nat, y: int)
    requires l == LeapDay(y) && k < 365 + l
    ensures
      var m, d := MonthAt(k, l), k - MonthStart(MonthAt(k, l), l) + 1;
      && 1 <= d <= DaysIn(y, m)
      && (k + 1 < 365 + l ==>
            if d < DaysIn(y, m) then MonthAt(k + 1, l) == m
            else m < 11 && MonthAt(k + 1, l) == m + 1 && MonthStart(m + 1, l) == k + 1)
      && (k + 1 == 365 + l ==> m == 11 && d == DaysIn(y, m))
  {
  }

  /** Day 0 is Thursday, 1 January 1970. */
  lemma FirstDate()
    ensures DayKeyOf(0) == DayKey(1970, 0, 1) && Weekday(0) == 4
  {
    hide DayFromYear, YearFrom, Year;
    StartOf1970();
    YearUnique(0, 1970);
  }

  lemma StartOf1970()
    ensures DayFromYear(1970) == 0 && DayFromYear(1970 + 1) == 365
  {
  }

  lemma SameYear(day: int)
    requires DayInYear(day) + 1 < 365 + LeapDay(Year(day))
    ensures Year(day + 1) == Year(day) && DayInYear(day + 1) == DayInYear(day) + 1
  {
    hide DayFromYear, YearFrom, Year;
    YearLength(Year(day));
    YearUnique(day + 1, Year(day));
  }

  lemma NewYear(day: int)
    requires DayInYear(day) + 1 >= 365 + LeapDay(Year(day))
    ensures Year(day + 1) == Year(day) + 1 && DayInYear(day + 1) == 0
  {
    hide DayFromYear, YearFrom, Year;
    YearLength(Year(day));
    YearGap(Year(day) + 1);
    YearUnique(day + 1, Year(day) + 1);
  }

  /**
   The day after any date is the next date of the civil calendar, and the next weekday; so every day
   has its civil date and weekday.
   */
  lemma NextDate(day: int)
    ensures Weekday(day + 1) == Weekday(day) % 7 + 1
    ensures
      var key := DayKeyOf(day);
      DayKeyOf(day + 1) ==
        if key.date < DaysIn(key.year, key.month) then key.(date := key.date + 1)
        else if key.month < 11 then DayKey(key.year, key.month + 1, 1)
        else DayKey(key.year + 1, 0, 1)
  {
    hide DayFromYear, YearFrom, Year, DayInYear, Leap, MonthAt, MonthStart, DaysIn, LeapDay;
    var k, l := DayInYear(day), LeapDay(Year(day));
    NextInYear(k, l, Year(day));
    if k + 1 < 365 + l {
      SameYear(day);
    } else {
      NewYear(day);
      StartOfYear(LeapDay(Year(day + 1)));
    }
  }

  lemma StartOfYear(l: nat)
    ensures MonthAt(0, l) == 0 && MonthStart(0, l) == 0
  {
  }

  // ----- weeks -----

  /** 1 for Monday to 7 for Sunday. */
  function Weekday(day: int): (n: int)
    ensures 1 <= n <= 7
  {
    if (day + 4) % 7 == 0 then 7 else (day + 4) % 7
  }

  function Monday(day: int): int {
    day + 1 - Weekday(day)
  }

  function WeeksAgo(reference: int, target: int): int {
    (Monday(reference) - Monday(target)) / 7
  }

  /** The year of the week's Thursday, and the number of the seven-day block of that year it lies in. */
  function WeekKeyOf(day: int): WeekKey {
    var thursday := day + 4 - Weekday(day);
    WeekKey(Year(thursday), (thursday - DayFromYear(Year(thursday)) + 1 + 6) / 7)
  }

  /** Weeks from Monday to Sunday, counted through the years. */
  ghost function WeekIndex(day: int): int {
    (day + 3) / 7
  }

  lemma WeekIndexed(day: int)
    ensures Monday(day) == 7 * WeekIndex(day) - 3
  {
  }

  lemma WeeksAgoCounts(reference: int, target: int)
    ensures WeeksAgo(reference, target) == WeekIndex(reference) - WeekIndex(target)
  {
    WeekIndexed(reference);
    WeekIndexed(target);
  }

  /** Two days share a week key exactly when they lie in the same Monday-to-Sunday week. */
  lemma WeekKeyExact(a: int, b: int)
    ensures WeekKeyOf(a) == WeekKeyOf(b) <==> WeekIndex(a) == WeekIndex(b)
  {
    hide DayFromYear, Year, Weekday, WeekIndex;
    WeekIndexed(a);
    WeekIndexed(b);
    assert a + 4 - Weekday(a) == Monday(a) + 3 && b + 4 - Weekday(b) == Monday(b) + 3;
    if WeekKeyOf(a) == WeekKeyOf(b) {
      var start := DayFromYear(Year(Monday(a) + 3));
      SameBlock(7 * WeekIndex(a) - start, 7 * WeekIndex(b) - start);
    }
  }

  lemma SameBlock(j: int, k: int)
    requires (j + 7) / 7 == (k + 7) / 7 && (j - k) % 7 == 0
    ensures j == k
  {
  }

  /** Week 1 of `y` begins on the Monday of the week that holds 4 January. */
  ghost function FirstMonday(y: int): int {
    Monday(DayFromYear(y) + 3)
  }

  /** Week keys are ISO 8601 week dates: the days of week n of y are the n-th week after FirstMonday(y). */
  lemma WeekDate(day: int)
    ensures
      var key := WeekKeyOf(day);
      && 1 <= key.week <= 53
      && Monday(day) == FirstMonday(key.year) + 7 * (key.week - 1)
      && FirstMonday(key.year) <= Monday(day) < FirstMonday(key.year + 1)
  {
    hide DayFromYear, YearFrom;
    var thursday := Monday(day) + 3;
    var y := Year(thursday);
    assert thursday == day + 4 - Weekday(day);
    YearLength(y);
    WeekIndexed(day);
    WeekIndexed(DayFromYear(y) + 3);
    WeekIndexed(DayFromYear(y + 1) + 3);
    NthWeek(DayFromYear(y), WeekIndex(day));
    NthWeek(DayFromYear(y + 1), WeekIndex(day));
  }

  /** Counted from 1 January, a week's Thursday tells how many weeks it is after the week of 4 January. */
  lemma NthWeek(newYear: int, w: int)
    ensures w - WeekIndex(newYear + 3) == (7 * w - newYear) / 7
  {
  }
}
