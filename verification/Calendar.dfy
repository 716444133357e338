/** The date picker's arithmetic (`kalendarz.ts`): shifting days and months, and the month grid. */
module Calendar {
  import opened Gregorian

  // ------------------------------------------------------------- shifting days

  /** `przesun` */
  ghost function ShiftDays(d: Date, days: int): Date {
    FromDay(UtcDay(d.year, d.month, d.day + days))
  }

  /** Shifting by nothing is the identity on real dates, except that `Date.UTC` reads short years as 19xx. */
  lemma ShiftByZeroIff(d: Date)
    requires Valid(d)
    ensures ShiftDays(d, 0) == d <==> !ShortYear(d.year)
  {
    if ShortYear(d.year) {
      UtcDayOfShortYear(d);
      assert DayOf(ShiftDays(d, 0)) == UtcDay(d.year, d.month, d.day);
    } else {
      CivilBijection(d, 0);
    }
  }

  /** Two shifts amount to their sum exactly when the date in between has no short year. */
  lemma ShiftsAddIff(d: Date, a: int, b: int)
    ensures ShiftDays(ShiftDays(d, a), b) == ShiftDays(d, a + b) <==> !ShortYear(ShiftDays(d, a).year)
  {
    var n := UtcDay(d.year, d.month, d.day);
    var mid := ShiftDays(d, a);
    assert DayOf(mid) == n + a;
    assert UtcDay(mid.year, mid.month, mid.day + b) == UtcDay(mid.year, mid.month, mid.day) + b;
    if ShortYear(mid.year) {
      UtcDayOfShortYear(mid);
      if ShiftDays(mid, b) == ShiftDays(d, a + b) {
        FromDayInjective(UtcDay(mid.year, mid.month, mid.day + b), n + a + b);
      }
    }
  }

  /** The shift moves the day number by exactly `days` and always lands on a real date. */
  lemma ShiftMovesDays(d: Date, days: int)
    requires Valid(d) && !ShortYear(d.year)
    ensures Valid(ShiftDays(d, days)) && DayOf(ShiftDays(d, days)) == DayOf(d) + days
  {
  }

  /** Shifting back undoes a shift that does not reach a short year. */
  lemma ShiftBack(d: Date, days: int)
    requires Valid(d) && !ShortYear(d.year) && !ShortYear(ShiftDays(d, days).year)
    ensures ShiftDays(ShiftDays(d, days), -days) == d
  {
    ShiftsAddIff(d, days, -days);
    ShiftByZeroIff(d);
  }

  lemma ShiftIs(d: Date, n: int, days: int)
    requires UtcDay(d.year, d.month, d.day) == n
    ensures ShiftDays(d, days) == FromDay(n + days)
  {
  }

  /** From the date of a day number the shift reaches the date of the sum exactly if the date has no short year. */
  lemma DayLater(n: int, days: int)
    ensures var d := FromDay(n); ShiftDays(d, days) == FromDay(n + days) <==> !(0 <= d.year <= 99)
  {
    var d := FromDay(n);
    var read := UtcDay(d.year, d.month, d.day);
    ShiftIs(d, read, days);
    if 0 <= d.year <= 99 {
      UtcDayOfShortYear(d);
    }
    if FromDay(read + days) == FromDay(n + days) {
      FromDayInjective(read + days, n + days);
    }
  }

  /** The year that `Date.UTC` makes of a year. */
  function UtcYear(y: int): int {
    if 0 <= y <= 99 then 1900 + y else y
  }

  /** The date reached is the real one that the closed form numbers `days` further. */
  lemma ShiftInClosedForm(d: Date, days: int, e: Date)
    ensures ShiftDays(d, days) == e <==>
              RealDate(e) && DayNumber(e.year, e.month, e.day) == DayNumber(UtcYear(d.year), d.month, d.day) + days
  {
    MakeDayIsDayNumber(UtcYear(d.year), d.month, d.day + days);
    NumberedIs(UtcDay(d.year, d.month, d.day + days), e);
  }

  lemma NumberedIs(n: int, e: Date)
    ensures FromDay(n) == e <==> RealDate(e) && DayNumber(e.year, e.month, e.day) == n
  {
    ReadersAgree(n);
    ReadersInClosedForm(n, e);
  }

  // -------------------------------------------------------- the length of a month

  /** `dniWMiesiacu`: the day before the first of the next month. */
  ghost function MonthLength(year: int, month: int): int {
    FromDay(UtcDay(year, month + 1, 0)).day
  }

  lemma LastOfMonth(year: int, month: int)
    ensures var y, m := year + month / 12, month % 12;
            && Valid(Date(y, m, DaysInMonth(y, m)))
            && MakeDay(year, month + 1, 0) == DayOf(Date(y, m, DaysInMonth(y, m)))
  {
    NextMonth(year, month);
  }

  /** It is the number of days of the month meant, short years again read as 19xx. */
  lemma MonthLengthCounts(year: int, month: int)
    ensures MonthLength(year, month) == DaysInMonth(FullYear(year) + month / 12, month % 12)
  {
    LastOfMonth(FullYear(year), month);
    var y, m := FullYear(year) + month / 12, month % 12;
    CivilBijection(Date(y, m, DaysInMonth(y, m)), 0);
  }

  /** In numbers, and as the closed form has it: from the first of the month to the first of the next. */
  lemma MonthLengthInNumbers(year: int, month: int)
    ensures var y, m, length := UtcYear(year) + month / 12, month % 12, MonthLength(year, month);
            && (m in {3, 5, 8, 10} ==> length == 30) && (m in {0, 2, 4, 6, 7, 9, 11} ==> length == 31)
            && (m == 1 ==> length == if y % 4 == 0 && (y % 100 != 0 || y % 400 == 0) then 29 else 28)
    ensures MonthLength(year, month) == DayNumber(UtcYear(year), month + 1, 1) - DayNumber(UtcYear(year), month, 1)
  {
    MonthLengthCounts(year, month);
    NextMonth(UtcYear(year), month);
    MakeDayIsDayNumber(UtcYear(year), month + 1, 1);
    MakeDayIsDayNumber(UtcYear(year), month, 1);
  }

  lemma MonthLengthWithin(year: int, month: int)
    requires 0 <= month < 12
    ensures MonthLength(year, month) == DaysInMonth(FullYear(year), month)
  {
    MonthLengthCounts(year, month);
    assert month / 12 == 0 && month % 12 == month;
  }

  /** The year 0 has its February cut short; every other month comes out right. */
  lemma MonthLengthRightIff(year: int, month: int)
    requires 0 <= month < 12
    ensures MonthLength(year, month) == DaysInMonth(year, month) <==> !(year == 0 && month == 1)
  {
    MonthLengthWithin(year, month);
    LengthInShortYear(year, month);
  }

  // ------------------------------------------------------------ shifting months

  /** `przesunMiesiac` */
  ghost function ShiftMonths(d: Date, o: int): Date {
    var target := FromDay(UtcDay(d.year, d.month + o, 1));
    var length := MonthLength(target.year, target.month);
    Date(target.year, target.month, if d.day < length then d.day else length)
  }

  function MonthIndex(year: int, month: int): int {
    12 * year + month
  }

  lemma FirstOfMonth(year: int, month: int)
    ensures FromDay(MakeDay(year, month, 1)) == Date(year + month / 12, month % 12, 1)
  {
    var d := Date(year + month / 12, month % 12, 1);
    assert DaysInMonth(d.year, d.month) >= 28;
    assert DayOf(d) == MakeDay(year, month, 1);
    CivilBijection(d, 0);
  }

  /** `r` is in month number `index`, on `day` or, where that month is shorter, on its last day. */
  ghost predicate LandsOn(r: Date, index: int, day: int) {
    && MonthIndex(r.year, r.month) == index && 0 <= r.month < 12
    && r.day <= MonthLength(r.year, r.month)
    && (r.day == day || (r.day < day && r.day == MonthLength(r.year, r.month)))
  }

  /** The month moves by exactly `o` from the (full) year's month and the day is cut to the target month's length. */
  lemma ShiftMonthsLands(d: Date, o: int)
    ensures LandsOn(ShiftMonths(d, o), MonthIndex(FullYear(d.year), d.month) + o, d.day)
  {
    FirstOfMonth(FullYear(d.year), d.month + o);
  }

  lemma LandingIsValid(r: Date, index: int, day: int)
    requires LandsOn(r, index, day) && day >= 1
    ensures Valid(r)
  {
    MonthLengthWithin(r.year, r.month);
    LengthInShortYear(r.year, r.month);
  }

  lemma ShiftMonthsValid(d: Date, o: int)
    requires d.day >= 1
    ensures Valid(ShiftMonths(d, o))
  {
    ShiftMonthsLands(d, o);
    LandingIsValid(ShiftMonths(d, o), MonthIndex(FullYear(d.year), d.month) + o, d.day);
  }

  /** Landing in the same month on a day cut twice, through a month of length `length`, and on a day cut once. */
  lemma LandingsAgree(r: Date, s: Date, index: int, day: int, length: int)
    requires length >= 28
    requires LandsOn(r, index, if day < length then day else length) && LandsOn(s, index, day)
    ensures r.year == s.year && r.month == s.month && r.day <= s.day
    ensures r == s <==> s.day <= length
    ensures day <= 28 ==> r == s
  {
  }

  lemma LandingRead(r: Date, index: int, day: int)
    requires LandsOn(r, index, day) && !ShortYear(r.year)
    ensures MonthIndex(FullYear(r.year), r.month) == index && MonthLength(r.year, r.month) >= 28
    ensures var length := MonthLength(r.year, r.month); r.day == if day < length then day else length
  {
    MonthLengthWithin(r.year, r.month);
  }

  /** Two shifts in turn reach the month of the combined shift and never a later day. */
  lemma ShiftMonthsTwice(d: Date, a: int, b: int)
    requires !ShortYear(ShiftMonths(d, a).year)
    ensures var mid, twice, once := ShiftMonths(d, a), ShiftMonths(ShiftMonths(d, a), b), ShiftMonths(d, a + b);
            && twice.year == once.year && twice.month == once.month && twice.day <= once.day
            && (twice == once <==> once.day <= MonthLength(mid.year, mid.month))
            && (d.day <= 28 ==> twice == once)
  {
    var mid, index := ShiftMonths(d, a), MonthIndex(FullYear(d.year), d.month);
    ShiftMonthsLands(d, a);
    LandingRead(mid, index + a, d.day);
    ShiftMonthsLands(mid, b);
    ShiftMonthsLands(d, a + b);
    LandingsAgree(ShiftMonths(mid, b), ShiftMonths(d, a + b), index + a + b, d.day, MonthLength(mid.year, mid.month));
  }

  /** The year and month `o` months on, and the days that month has. */
  function YearAfter(d: Date, o: int): int {
    FullYear(d.year) + (d.month + o) / 12
  }

  function MonthAfter(d: Date, o: int): int {
    (d.month + o) % 12
  }

  function LengthAfter(d: Date, o: int): int {
    DaysInMonth(FullYear(YearAfter(d, o)), MonthAfter(d, o))
  }

  lemma ShiftMonthsReaches(d: Date, o: int)
    ensures var r := ShiftMonths(d, o);
            && r.year == YearAfter(d, o) && r.month == MonthAfter(d, o)
            && MonthLength(r.year, r.month) == LengthAfter(d, o)
            && r.day == if d.day < LengthAfter(d, o) then d.day else LengthAfter(d, o)
  {
    FirstOfMonth(FullYear(d.year), d.month + o);
    MonthLengthWithin(YearAfter(d, o), MonthAfter(d, o));
  }

  /**
   * Two shifts agree with the combined one exactly when the month in between has no short year and is long enough
   * for the day, or for the month reached.
   */
  lemma ShiftMonthsAddIff(d: Date, a: int, b: int)
    ensures ShiftMonths(ShiftMonths(d, a), b) == ShiftMonths(d, a + b) <==>
              && !ShortYear(YearAfter(d, a))
              && (d.day <= LengthAfter(d, a) || LengthAfter(d, a + b) <= LengthAfter(d, a))
  {
    ShiftMonthsReaches(d, a);
    ShiftMonthsReaches(d, a + b);
    var mid := ShiftMonths(d, a);
    if ShortYear(mid.year) {
      ShiftMonthsLands(d, a);
      ShiftMonthsLands(mid, b);
      ShiftMonthsLands(d, a + b);
    } else {
      ShiftMonthsTwice(d, a, b);
    }
  }

  // -------------------------------------------------------------- the month grid

  /** How far the first of the month lies after a Monday. */
  function Lead(year: int, month: int): (k: int)
    ensures 0 <= k < 7
  {
    (WeekDay(UtcDay(year, month, 1)) + 6) % 7
  }

  ghost function GridFrom(year: int, month: int, lead: int): (g: seq<Date>)
    ensures |g| == 42
  {
    seq(42, i => FromDay(UtcDay(year, month, 1 - lead + i)))
  }

  /** `siatkaMiesiaca` */
  ghost function Grid(year: int, month: int): (g: seq<Date>)
    ensures |g| == 42
  {
    GridFrom(year, month, Lead(year, month))
  }

  lemma GridDay(year: int, month: int, lead: int, i: int)
    requires 0 <= i < 42
    ensures Valid(GridFrom(year, month, lead)[i])
    ensures DayOf(GridFrom(year, month, lead)[i]) == UtcDay(year, month, 1) - lead + i
  {
    assert GridFrom(year, month, lead)[i] == FromDay(UtcDay(year, month, 1 - lead + i));
  }

  /** Forty-two real days in a row from a Monday. */
  lemma GridIsConsecutive(year: int, month: int)
    ensures forall i | 0 <= i < 42 :: Valid(Grid(year, month)[i]) && WeekDay(DayOf(Grid(year, month)[i])) == (1 + i) % 7
    ensures forall i | 0 <= i < 41 :: DayOf(Grid(year, month)[i + 1]) == DayOf(Grid(year, month)[i]) + 1
  {
    forall i | 0 <= i < 42
      ensures Valid(Grid(year, month)[i]) && WeekDay(DayOf(Grid(year, month)[i])) == (1 + i) % 7
    {
      GridDay(year, month, Lead(year, month), i);
      WeekDayOfCell(UtcDay(year, month, 1), i);
    }
    forall i | 0 <= i < 41
      ensures DayOf(Grid(year, month)[i + 1]) == DayOf(Grid(year, month)[i]) + 1
    {
      GridDay(year, month, Lead(year, month), i);
      GridDay(year, month, Lead(year, month), i + 1);
    }
  }

  lemma WeekDayOfCell(n: int, i: int)
    ensures WeekDay(n - (WeekDay(n) + 6) % 7 + i) == (1 + i) % 7
  {
  }

  lemma DayWithinMonth(d: Date, k: int)
    requires Valid(d) && DayOf(d) == MakeDay(d.year, d.month, 1) + k
    ensures 0 <= k < DaysInMonth(d.year, d.month)
  {
  }

  lemma DatesOfMonth(y: int, m: int, k: int)
    requires 0 <= m < 12
    ensures var d := FromDay(MakeDay(y, m, 1) + k);
            if 0 <= k < DaysInMonth(y, m) then d == Date(y, m, k + 1) else d.year != y || d.month != m
  {
    var d := FromDay(MakeDay(y, m, 1) + k);
    if 0 <= k < DaysInMonth(y, m) {
      CivilBijection(Date(y, m, k + 1), 0);
      assert DayOf(Date(y, m, k + 1)) == MakeDay(y, m, 1) + k;
    }
    if d.year == y && d.month == m {
      DayWithinMonth(d, k);
    }
  }

  lemma DayOfCell(year: int, month: int, k: int)
    ensures UtcDay(year, month, 1 + k) == MakeDay(FullYear(year) + month / 12, month % 12, 1) + k
  {
  }

  lemma CellDates(year: int, month: int, lead: int, first: int)
    requires first == MakeDay(FullYear(year) + month / 12, month % 12, 1)
    ensures forall i | 0 <= i < 42 :: GridFrom(year, month, lead)[i] == FromDay(first + (i - lead))
  {
    forall i | 0 <= i < 42
      ensures GridFrom(year, month, lead)[i] == FromDay(first + (i - lead))
    {
      DayOfCell(year, month, i - lead);
    }
  }

  lemma CellsOfMonth(y: int, m: int, lead: int, g: seq<Date>)
    requires 0 <= m < 12 && |g| == 42 && forall i | 0 <= i < 42 :: g[i] == FromDay(MakeDay(y, m, 1) + (i - lead))
    ensures forall i | 0 <= i < 42 ::
              if lead <= i < lead + DaysInMonth(y, m) then g[i] == Date(y, m, i - lead + 1)
              else g[i].year != y || g[i].month != m
  {
    forall i | 0 <= i < 42
      ensures if lead <= i < lead + DaysInMonth(y, m) then g[i] == Date(y, m, i - lead + 1)
              else g[i].year != y || g[i].month != m
    {
      DatesOfMonth(y, m, i - lead);
    }
  }

  /**
   * The grid shows every day of the month meant, once and in order, as one block that starts in the first
   * week, and no other day of that month.
   */
  lemma GridShowsMonth(year: int, month: int)
    ensures var y, m, lead := FullYear(year) + month / 12, month % 12, Lead(year, month);
            && 0 <= lead < 7 && lead + DaysInMonth(y, m) <= 42
            && forall i | 0 <= i < 42 ::
                 if lead <= i < lead + DaysInMonth(y, m) then Grid(year, month)[i] == Date(y, m, i - lead + 1)
                 else Grid(year, month)[i].year != y || Grid(year, month)[i].month != m
  {
    var y, m, lead := FullYear(year) + month / 12, month % 12, Lead(year, month);
    assert DaysInMonth(y, m) <= 31;
    CellDates(year, month, lead, MakeDay(y, m, 1));
    CellsOfMonth(y, m, lead, Grid(year, month));
  }

  lemma LeadIs(year: int, month: int, first: int)
    requires UtcDay(year, month, 1) == first
    ensures Lead(year, month) == (first + 3) % 7
  {
    LeadFrom(first);
  }

  lemma LeadFrom(n: int)
    ensures (WeekDay(n) + 6) % 7 == (n + 3) % 7
  {
  }

  lemma CellIs(year: int, month: int, lead: int, first: int, i: int)
    requires 0 <= i < 42 && UtcDay(year, month, 1) == first
    ensures GridFrom(year, month, lead)[i] == FromDay(first - lead + i)
  {
    assert UtcDay(year, month, 1 - lead + i) == first - lead + i;
  }

  lemma GridCellIs(year: int, month: int, first: int, i: int)
    requires 0 <= i < 42 && UtcDay(year, month, 1) == first
    ensures Grid(year, month)[i] == FromDay(first - (first + 3) % 7 + i)
  {
    LeadIs(year, month, first);
    CellIs(year, month, Lead(year, month), first, i);
  }

  /** Cell by cell: from the Monday before the first of the month, counting 5 January 1970 as a Monday, day by day. */
  lemma GridInClosedForm(year: int, month: int, i: int, e: Date)
    requires 0 <= i < 42
    ensures var first := DayNumber(UtcYear(year), month, 1);
            Grid(year, month)[i] == e <==>
              RealDate(e) && DayNumber(e.year, e.month, e.day) == first - (first + 3) % 7 + i
  {
    var first := DayNumber(UtcYear(year), month, 1);
    FirstOfMonthIs(year, month);
    CellIsDate(year, month, first, i, e);
  }

  lemma FirstOfMonthIs(year: int, month: int)
    ensures UtcDay(year, month, 1) == DayNumber(UtcYear(year), month, 1)
  {
    MakeDayIsDayNumber(UtcYear(year), month, 1);
  }

  lemma CellIsDate(year: int, month: int, first: int, i: int, e: Date)
    requires 0 <= i < 42 && UtcDay(year, month, 1) == first
    ensures Grid(year, month)[i] == e <==>
              RealDate(e) && DayNumber(e.year, e.month, e.day) == first - (first + 3) % 7 + i
  {
    GridCellIs(year, month, first, i);
    NumberedIs(first - (first + 3) % 7 + i, e);
  }
}
