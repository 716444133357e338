/**
 * Day numbers and civil dates of the proleptic Gregorian calendar, as ECMA-262 defines them (section 21.4.1:
 * Day Number and Time within Day, Year Number, Month Number, Date Number, Week Day, MakeDay), and the year
 * rule of `Date.UTC` (section 21.4.3.4). Day 0 is 1 January 1970; months count from 0.
 */
module Gregorian {
  datatype Date = Date(year: int, month: int, day: int)

  predicate IsLeap(y: int) {
    y % 4 == 0 && (y % 100 != 0 || y % 400 == 0)
  }

  function DaysInYear(y: int): int {
    if IsLeap(y) then 366 else 365
  }

  /** The day number of 1 January: the lengths of the years since 1970, or before it, added up. */
  function DayFromYear(y: int): int
    decreases if y < 1970 then 1970 - y else y - 1970
  {
    if y == 1970 then 0
    else if y > 1970 then DayFromYear(y - 1) + DaysInYear(y - 1)
    else DayFromYear(y + 1) - DaysInYear(y)
  }

  function MonthDays(m: int, leap: bool): int {
    if m == 1 then (if leap then 29 else 28) else if m == 3 || m == 5 || m == 8 || m == 10 then 30 else 31
  }

  /** Days of a year before month `m`; `m` is 12 for the whole year. */
  function DaysBefore(m: int, leap: bool): int
    requires 0 <= m <= 12
  {
    if m == 0 then 0 else DaysBefore(m - 1, leap) + MonthDays(m - 1, leap)
  }

  function DaysInMonth(y: int, m: int): int {
    MonthDays(m, IsLeap(y))
  }

  predicate Valid(d: Date) {
    0 <= d.month < 12 && 1 <= d.day <= DaysInMonth(d.year, d.month)
  }

  /** The day number of the first of a month; months outside 0..11 carry into the year. */
  function MonthStart(y: int, m: int): int {
    var year := y + m / 12;
    DayFromYear(year) + DaysBefore(m % 12, IsLeap(year))
  }

  /** Days outside the month carry into the months. */
  function MakeDay(y: int, m: int, d: int): int {
    MonthStart(y, m) + d - 1
  }

  function DayOf(d: Date): int {
    MakeDay(d.year, d.month, d.day)
  }

  // ------------------------------------------------------------------- years

  lemma YearLength(y: int)
    ensures DayFromYear(y + 1) == DayFromYear(y) + DaysInYear(y)
  {
  }

  function DayFromYearByFormula(y: int): int {
    365 * (y - 1970) + (y - 1969) / 4 - (y - 1901) / 100 + (y - 1601) / 400
  }

  lemma FormulaYearLength(y: int)
    ensures DayFromYearByFormula(y + 1) == DayFromYearByFormula(y) + DaysInYear(y)
  {
    assert (y + 1 - 1969) / 4 == (y - 1969) / 4 + (if y % 4 == 0 then 1 else 0);
    assert (y + 1 - 1901) / 100 == (y - 1901) / 100 + (if y % 100 == 0 then 1 else 0);
    QuotientBy400(y);
  }

  lemma QuotientBy400(y: int)
    ensures (y + 1 - 1601) / 400 == (y - 1601) / 400 + (if y % 400 == 0 then 1 else 0)
    ensures y % 400 == 0 ==> y % 100 == 0
    ensures y % 100 == 0 ==> y % 4 == 0
  {
  }

  /** Adding up year lengths gives the closed form of ECMA-262. */
  lemma {:induction false} DayFromYearIsFormula(y: int)
    ensures DayFromYear(y) == DayFromYearByFormula(y)
    decreases if y < 1970 then 1970 - y else y - 1970
  {
    if y > 1970 {
      DayFromYearIsFormula(y - 1);
      FormulaYearLength(y - 1);
    } else if y < 1970 {
      DayFromYearIsFormula(y + 1);
      FormulaYearLength(y);
    }
  }

  lemma {:induction false} YearsGrow(y: int, z: int)
    requires y <= z
    ensures DayFromYear(z) - DayFromYear(y) >= 365 * (z - y)
    decreases z - y
  {
    if y == z {
    } else {
      YearsGrow(y, z - 1);
      YearLength(z - 1);
    }
  }

  predicate YearHolds(y: int, n: int) {
    DayFromYear(y) <= n < DayFromYear(y + 1)
  }

  function YearUp(n: int, y: int): (r: int)
    requires DayFromYear(y) <= n
    ensures YearHolds(r, n)
    decreases n - DayFromYear(y)
  {
    YearLength(y);
    if n < DayFromYear(y + 1) then y else YearUp(n, y + 1)
  }

  function YearDown(n: int, y: int): (r: int)
    requires n < DayFromYear(y + 1)
    ensures YearHolds(r, n)
    decreases DayFromYear(y + 1) - n
  {
    YearLength(y);
    if DayFromYear(y) <= n then y else YearDown(n, y - 1)
  }

  /** The year a day number falls in. */
  function YearFromDay(n: int): (y: int)
    ensures YearHolds(y, n)
  {
    if n < 0 then YearDown(n, 1969) else YearUp(n, 1970)
  }

  lemma YearUnique(n: int, y: int, z: int)
    requires YearHolds(y, n) && YearHolds(z, n)
    ensures y == z
  {
    if y < z {
      YearsGrow(y + 1, z);
    } else if z < y {
      YearsGrow(z + 1, y);
    }
  }

  // ------------------------------------------------------------- civil dates

  /** The table of month lengths, added up, against the rule of 153. */
  lemma DaysBeforeInNumbers(m: int, leap: bool)
    requires 0 <= m < 12
    ensures DaysBefore(m, leap) == if m < 2 then 31 * m else (153 * (m - 2) + 2) / 5 + (if leap then 60 else 59)
  {
    assert DaysBefore(1, leap) == 31;
    assert DaysBefore(2, leap) == 31 + (if leap then 29 else 28);
    assert DaysBefore(3, leap) == DaysBefore(2, leap) + 31;
    assert DaysBefore(4, leap) == DaysBefore(3, leap) + 30;
    assert DaysBefore(5, leap) == DaysBefore(4, leap) + 31;
    assert DaysBefore(6, leap) == DaysBefore(5, leap) + 30;
    assert DaysBefore(7, leap) == DaysBefore(6, leap) + 31;
    assert DaysBefore(8, leap) == DaysBefore(7, leap) + 31;
    assert DaysBefore(9, leap) == DaysBefore(8, leap) + 30;
    assert DaysBefore(10, leap) == DaysBefore(9, leap) + 31;
    assert DaysBefore(11, leap) == DaysBefore(10, leap) + 30;
  }

  lemma WholeYear(leap: bool)
    ensures DaysBefore(12, leap) == if leap then 366 else 365
  {
    DaysBeforeInNumbers(11, leap);
  }

  /** The month holding day `k` of the year, sought from month `m` on. */
  function MonthFrom(k: int, m: int, leap: bool): (r: int)
    requires 0 <= m < 12 && DaysBefore(m, leap) <= k < DaysBefore(12, leap)
    ensures 0 <= r < 12 && DaysBefore(r, leap) <= k < DaysBefore(r + 1, leap)
    decreases 12 - m
  {
    if k < DaysBefore(m + 1, leap) then m else MonthFrom(k, m + 1, leap)
  }

  lemma DayInYear(n: int, y: int)
    requires YearHolds(y, n)
    ensures 0 <= n - DayFromYear(y) < DaysBefore(12, IsLeap(y))
  {
    YearLength(y);
    WholeYear(IsLeap(y));
  }

  lemma DayInMonth(n: int, y: int, m: int, k: int)
    requires 0 <= m < 12 && k == n - DayFromYear(y) && DaysBefore(m, IsLeap(y)) <= k < DaysBefore(m + 1, IsLeap(y))
    ensures IsDateOf(Date(y, m, k - DaysBefore(m, IsLeap(y)) + 1), n)
  {
  }

  /** The readers of ECMA-262: the year, the month within it, and the day within that. */
  function CivilFromDay(n: int): (d: Date)
    ensures IsDateOf(d, n)
  {
    var y := YearFromDay(n);
    DayInYear(n, y);
    var k := n - DayFromYear(y);
    var m := MonthFrom(k, 0, IsLeap(y));
    DayInMonth(n, y, m, k);
    Date(y, m, k - DaysBefore(m, IsLeap(y)) + 1)
  }

  predicate IsDateOf(d: Date, n: int) {
    Valid(d) && DayOf(d) == n
  }

  lemma DateExists(n: int)
    ensures exists d :: IsDateOf(d, n)
  {
    assert IsDateOf(CivilFromDay(n), n);
  }

  /** The real date of a day number; `CivilFromDay` computes it (`ReadersAgree`). */
  ghost function FromDay(n: int): (d: Date)
    ensures IsDateOf(d, n)
  {
    DateExists(n);
    var d :| IsDateOf(d, n);
    d
  }

  lemma {:induction false} MonthsAscend(m: int, k: int, leap: bool)
    requires 0 <= m <= k <= 12
    ensures DaysBefore(m, leap) <= DaysBefore(k, leap)
    decreases k - m
  {
    if m == k {
    } else {
      MonthsAscend(m, k - 1, leap);
    }
  }

  lemma ValidDayInYear(d: Date)
    requires Valid(d)
    ensures DayOf(d) == DayFromYear(d.year) + DaysBefore(d.month, IsLeap(d.year)) + d.day - 1
    ensures YearHolds(d.year, DayOf(d))
  {
    YearLength(d.year);
    WholeYear(IsLeap(d.year));
    MonthsAscend(d.month + 1, 12, IsLeap(d.year));
    MonthsAscend(0, d.month, IsLeap(d.year));
  }

  lemma MonthUnique(m: int, i: int, n: int, j: int, leap: bool)
    requires 0 <= m < 12 && 1 <= i <= MonthDays(m, leap)
    requires 0 <= n < 12 && 1 <= j <= MonthDays(n, leap)
    requires DaysBefore(m, leap) + i == DaysBefore(n, leap) + j
    ensures m == n && i == j
  {
    if m < n {
      MonthsAscend(m + 1, n, leap);
    } else if n < m {
      MonthsAscend(n + 1, m, leap);
    }
  }

  /** Distinct real dates have distinct day numbers. */
  lemma DayOfInjective(d: Date, e: Date)
    requires Valid(d) && Valid(e) && DayOf(d) == DayOf(e)
    ensures d == e
  {
    ValidDayInYear(d);
    ValidDayInYear(e);
    YearUnique(DayOf(d), d.year, e.year);
    MonthUnique(d.month, d.day, e.month, e.day, IsLeap(d.year));
  }

  /** Day numbers and real dates correspond one to one. */
  lemma CivilBijection(d: Date, n: int)
    ensures Valid(d) ==> FromDay(DayOf(d)) == d
    ensures Valid(FromDay(n)) && DayOf(FromDay(n)) == n
  {
    if Valid(d) {
      DayOfInjective(FromDay(DayOf(d)), d);
    }
  }

  lemma ReadersAgree(n: int)
    ensures CivilFromDay(n) == FromDay(n)
  {
    DayOfInjective(CivilFromDay(n), FromDay(n));
  }

  lemma FromDayInjective(m: int, n: int)
    requires FromDay(m) == FromDay(n)
    ensures m == n
  {
  }

  // ------------------------------------------------------------------ Date.UTC

  /** `Date.UTC` reads the years 0 to 99 as 1900 to 1999. */
  predicate ShortYear(y: int) {
    0 <= y <= 99
  }

  function FullYear(y: int): int {
    if ShortYear(y) then 1900 + y else y
  }

  function UtcDay(y: int, m: int, d: int): int {
    MakeDay(FullYear(y), m, d)
  }

  /** Sunday is 0. */
  function WeekDay(n: int): int {
    (n + 4) % 7
  }

  lemma {:induction false} LeapDayCountsOnce(m: int)
    requires 0 <= m <= 12
    ensures DaysBefore(m, false) <= DaysBefore(m, true) <= DaysBefore(m, false) + (if m < 2 then 0 else 1)
  {
    if m == 0 {
    } else {
      LeapDayCountsOnce(m - 1);
    }
  }

  lemma ShortYearGap(y: int)
    requires ShortYear(y)
    ensures DayFromYear(FullYear(y)) > DayFromYear(y) + 1
  {
    YearsGrow(y, y + 1900);
  }

  lemma UtcDayOfShortYear(d: Date)
    requires Valid(d) && ShortYear(d.year)
    ensures UtcDay(d.year, d.month, d.day) > DayOf(d)
  {
    ShortYearGap(d.year);
    LeapDayCountsOnce(d.month);
  }

  /** Reading a short year as 19xx changes the length of a month only for February of the year 0. */
  lemma LengthInShortYear(y: int, m: int)
    ensures DaysInMonth(FullYear(y), m) <= DaysInMonth(y, m)
    ensures DaysInMonth(FullYear(y), m) == DaysInMonth(y, m) <==> !(y == 0 && m == 1)
  {
  }

  lemma NextMonth(y: int, m: int)
    ensures MonthStart(y, m + 1) == MonthStart(y, m) + DaysInMonth(y + m / 12, m % 12)
  {
    if m % 12 == 11 {
      assert (m + 1) / 12 == m / 12 + 1 && (m + 1) % 12 == 0;
      WholeYear(IsLeap(y + m / 12));
      YearLength(y + m / 12);
    } else {
      assert (m + 1) / 12 == m / 12 && (m + 1) % 12 == m % 12 + 1;
    }
  }

  // ------------------------------------------------------- day numbers in closed form

  /**
   * The day number of a date by arithmetic alone: years from 1 March, whose months have 153 days in every five. Months
   * outside 0..11 carry into the year.
   */
  function DayNumber(y: int, m: int, d: int): int {
    var year := (12 * y + m - 2) / 12;
    var month := (12 * y + m - 2) % 12;
    365 * year + year / 4 - year / 100 + year / 400 + (153 * month + 2) / 5 + d - 719469
  }

  lemma MarchYear(y: int, m: int)
    requires 0 <= m < 12
    ensures (12 * y + m - 2) / 12 == (if m < 2 then y - 1 else y)
    ensures (12 * y + m - 2) % 12 == (if m < 2 then m + 10 else m - 2)
  {
  }

  lemma LeapDays(y: int)
    ensures (y - 1969) / 4 - (y - 1901) / 100 + (y - 1601) / 400
         == (y - 1) / 4 - (y - 1) / 100 + (y - 1) / 400 - 477
    ensures y / 4 - y / 100 + y / 400
         == (y - 1) / 4 - (y - 1) / 100 + (y - 1) / 400 + (if IsLeap(y) then 1 else 0)
  {
    LeapDaysAt(y);
    Quotients(y);
  }

  lemma LeapDaysAt(y: int)
    ensures (y - 1969) / 4 == (y - 1) / 4 - 492 && (y - 1901) / 100 == (y - 1) / 100 - 19
    ensures (y - 1601) / 400 == (y - 1) / 400 - 4
  {
  }

  lemma Quotients(y: int)
    ensures y / 4 == (y - 1) / 4 + (if y % 4 == 0 then 1 else 0)
    ensures y / 100 == (y - 1) / 100 + (if y % 100 == 0 then 1 else 0)
    ensures y / 400 == (y - 1) / 400 + (if y % 400 == 0 then 1 else 0)
    ensures (y % 400 == 0 ==> y % 100 == 0) && (y % 100 == 0 ==> y % 4 == 0)
  {
    QuotientOf4(y);
    QuotientOf100(y);
    QuotientOf400(y);
    QuotientBy400(y);
  }

  lemma QuotientOf4(y: int)
    ensures y / 4 == (y - 1) / 4 + (if y % 4 == 0 then 1 else 0)
  {
  }

  lemma QuotientOf100(y: int)
    ensures y / 100 == (y - 1) / 100 + (if y % 100 == 0 then 1 else 0)
  {
  }

  lemma QuotientOf400(y: int)
    ensures y / 400 == (y - 1) / 400 + (if y % 400 == 0 then 1 else 0)
  {
  }

  lemma DayWithinYearIs(y: int, m: int, d: int)
    requires 0 <= m < 12
    ensures DayFromYearByFormula(y) + DaysBefore(m, IsLeap(y)) + d - 1 == DayNumber(y, m, d)
  {
    DaysBeforeInNumbers(m, IsLeap(y));
    MarchYear(y, m);
    LeapDays(y);
  }

  /** Day numbers, month lengths and leap years added up give the closed form. */
  lemma MakeDayIsDayNumber(y: int, m: int, d: int)
    ensures MakeDay(y, m, d) == DayNumber(y, m, d)
  {
    DayFromYearIsFormula(y + m / 12);
    DayWithinYearIs(y + m / 12, m % 12, d);
    assert 12 * (y + m / 12) + m % 12 == 12 * y + m;
  }

  lemma MonthStartIs(y: int, m: int)
    requires 0 <= m < 12
    ensures MakeDay(y, m, 1) == DayFromYear(y) + DaysBefore(m, IsLeap(y))
  {
    MonthWithinYear(y, m, y + m / 12, m % 12);
  }

  lemma MonthWithinYear(y: int, m: int, year: int, month: int)
    requires 0 <= m < 12 && year == y + m / 12 && month == m % 12
    ensures year == y && month == m
  {
  }

  lemma MonthInNumbers(y: int, m: int)
    requires 0 <= m < 12
    ensures var year := DayNumber(y + 1, 0, 1) - DayNumber(y, 0, 1);
            MakeDay(y, m, 1) - DayFromYear(y) == if m < 2 then 31 * m else (153 * (m - 2) + 2) / 5 + year - 306
  {
    MonthStartIs(y, m);
    DaysBeforeInNumbers(m, IsLeap(y));
    YearInNumbers(y);
  }

  /** January has 31 days, February what is left of the year, and from March on 153 days go to five months. */
  lemma MonthsInNumbers(y: int, m: int)
    requires 0 <= m < 12
    ensures m == 1 ==> MakeDay(y, m, 1) - MakeDay(y, 0, 1) == 31
    ensures m == 2 ==> MakeDay(y, m, 1) - MakeDay(y, 0, 1) == DayNumber(y + 1, 0, 1) - DayNumber(y, 0, 1) - 306
    ensures m >= 2 ==> MakeDay(y, m, 1) - MakeDay(y, 2, 1) == (153 * (m - 2) + 2) / 5
  {
    MonthInNumbers(y, 0);
    MonthInNumbers(y, 2);
    MonthInNumbers(y, m);
  }

  lemma YearInNumbers(y: int)
    ensures DayNumber(y + 1, 0, 1) - DayNumber(y, 0, 1) == if IsLeap(y) then 366 else 365
  {
    MarchYear(y, 0);
    MarchYear(y + 1, 0);
    LeapDays(y);
  }

  /** A date is real if it lies before the first of the next month, by the closed form. */
  predicate RealDate(d: Date) {
    && 0 <= d.month < 12 && d.day >= 1
    && DayNumber(d.year, d.month, d.day) < DayNumber(d.year, d.month + 1, 1)
  }

  lemma DaysInMonthIs(y: int, m: int, d: int)
    requires 0 <= m < 12
    ensures DaysInMonth(y, m) == MakeDay(y, m + 1, 1) - MakeDay(y, m, 1) && MakeDay(y, m, d) == MakeDay(y, m, 1) + d - 1
  {
    NextMonth(y, m);
  }

  lemma ValidIsReal(d: Date)
    ensures Valid(d) <==> RealDate(d)
  {
    if 0 <= d.month < 12 {
      DaysInMonthIs(d.year, d.month, d.day);
      MakeDayIsDayNumber(d.year, d.month, d.day);
      MakeDayIsDayNumber(d.year, d.month + 1, 1);
    }
  }

  /** The readers give the one real date of a day number, real and numbered by the closed form. */
  lemma ReadersInClosedForm(n: int, d: Date)
    ensures CivilFromDay(n) == d <==> RealDate(d) && DayNumber(d.year, d.month, d.day) == n
  {
    var e := CivilFromDay(n);
    ValidIsReal(e);
    ValidIsReal(d);
    MakeDayIsDayNumber(e.year, e.month, e.day);
    MakeDayIsDayNumber(d.year, d.month, d.day);
    if RealDate(d) && DayNumber(d.year, d.month, d.day) == n {
      DayOfInjective(e, d);
    }
  }

  lemma FirstDay(y: int)
    requires y == 1970
    ensures DayNumber(y, 0, 1) == 0
  {
    MarchYear(y, 0);
  }

  /** 1 January 1970 was a Thursday, and the days of the week come round in turn. */
  lemma WeekDaysInTurn(y: int, n: int)
    ensures y == 1970 ==> WeekDay(DayNumber(y, 0, 1)) == 4
    ensures WeekDay(n + 1) == (WeekDay(n) + 1) % 7 && WeekDay(n + 7) == WeekDay(n)
  {
    if y == 1970 {
      FirstDay(y);
    }
  }
}
