/**
 * Polish wall-clock time (`kalendarz.ts`): the instant at which the clock in Poland shows a given time on a given
 * day. Times are milliseconds since 1970 in UTC; the time-zone database is a function from instants to offsets.
 */
module WallClock {
  import opened Gregorian

  const HOUR := 3600000
  const DAY := 86400000

  /** What `Intl` is taken to know: one or two hours, and never two changes within two hours. */
  ghost predicate PolishZone(off: int -> int) {
    && (forall t :: off(t) == HOUR || off(t) == 2 * HOUR)
    && (forall a, b, c | a <= b <= c <= a + 2 * HOUR :: off(a) == off(b) || off(b) == off(c))
  }

  datatype Clock = Clock(day: Date, hour: int, minute: int, second: int)

  /** `Date.UTC` */
  function UtcTime(c: Clock, ms: int): int {
    UtcDay(c.day.year, c.day.month, c.day.day) * DAY + c.hour * HOUR + c.minute * 60000 + c.second * 1000 + ms
  }

  /** What the clock in Poland shows at instant `t`, as if it were UTC. */
  function Shown(off: int -> int, t: int): int {
    t + off(t)
  }

  /** `czesciPl` */
  ghost function Parts(off: int -> int, t: int): Clock {
    var w := Shown(off, t);
    Clock(FromDay(w / DAY), w % DAY / HOUR, w % DAY / 60000 % 60, w % DAY / 1000 % 60)
  }

  /** `dzienPl`, as a date */
  ghost function PolishDay(off: int -> int, t: int): Date {
    Parts(off, t).day
  }

  /** `przesuniecie` */
  ghost function Offset(off: int -> int, t: int): int {
    UtcTime(Parts(off, t), 0) - t / 1000 * 1000
  }

  /** The wall-clock time sought: the day `d` with the clock of `pattern`. */
  ghost function Wanted(off: int -> int, d: Date, pattern: int): int {
    UtcTime(Parts(off, pattern).(day := d), pattern % 1000)
  }

  ghost function InstantShowing(off: int -> int, local: int): int {
    var t := local - Offset(off, local);
    local - Offset(off, t)
  }

  /** `dzienOGodziniePl` */
  ghost function AtClock(off: int -> int, d: Date, pattern: int): int {
    InstantShowing(off, Wanted(off, d, pattern))
  }

  // ------------------------------------------------------------ reading the clock

  lemma ClockDigits(w: int)
    ensures w == w / DAY * DAY + w % DAY / HOUR * HOUR + w % DAY / 60000 % 60 * 60000 + w % DAY / 1000 % 60 * 1000
                 + w % 1000
  {
    var x := w % DAY;
    assert x / 60000 / 60 == x / HOUR;
    assert x / 1000 / 60 == x / 60000;
    assert x % 1000 == w % 1000;
  }

  lemma WholeSeconds(t: int, k: int)
    ensures (t + 1000 * k) % 1000 == t % 1000
  {
  }

  lemma ClockSum(start: int, w: int, ms: int)
    requires ms == w % 1000
    ensures start + w % DAY / HOUR * HOUR + w % DAY / 60000 % 60 * 60000 + w % DAY / 1000 % 60 * 1000 + ms
         == start + w % DAY
  {
    ClockDigits(w);
  }

  lemma SameMilliseconds(off: int -> int, t: int)
    requires PolishZone(off)
    ensures Shown(off, t) % 1000 == t % 1000
  {
    assert off(t) == HOUR || off(t) == 2 * HOUR;
    WholeSeconds(t, 3600);
    WholeSeconds(t, 7200);
  }

  /** The wall clock sought is on the day `d` and shows the same time as `pattern` does. */
  lemma WantedTime(off: int -> int, d: Date, pattern: int)
    requires PolishZone(off)
    ensures Wanted(off, d, pattern) == UtcDay(d.year, d.month, d.day) * DAY + Shown(off, pattern) % DAY
  {
    SameMilliseconds(off, pattern);
    ClockSum(UtcDay(d.year, d.month, d.day) * DAY, Shown(off, pattern), pattern % 1000);
  }

  // --------------------------------------------------------------- the two steps

  ghost predicate Gap(off: int -> int, local: int) {
    forall i :: Shown(off, i) != local
  }

  function TwoSteps(off: int -> int, local: int): int {
    local - off(local - off(local))
  }

  /**
   * The second step lands on the latest instant that shows the time sought; in a spring gap, where no instant
   * does, it lands where the clock shows one hour more.
   */
  lemma TwoStepsSuffice(off: int -> int, local: int)
    requires PolishZone(off)
    ensures var r := TwoSteps(off, local);
            && Shown(off, r) == (if Gap(off, local) then local + HOUR else local)
            && forall i | Shown(off, i) == local :: i <= r
  {
  }

  // --------------------------------------------------------------------- the day

  /** 1 January of the year 0, and of the year 100: the days in between are those that `Date.UTC` misreads. */
  const FIRST_SHORT_DAY := -719528
  const AFTER_SHORT_DAYS := -683003

  predicate ShortDay(n: int) {
    FIRST_SHORT_DAY <= n < AFTER_SHORT_DAYS
  }

  lemma ShortYearsFrom(a: int, b: int)
    requires a == 0 && b == 100
    ensures DayFromYear(a) == FIRST_SHORT_DAY && DayFromYear(b) == AFTER_SHORT_DAYS
  {
    FormulaOfShortYears(a, b);
    IsItsFormula(a, FIRST_SHORT_DAY);
    IsItsFormula(b, AFTER_SHORT_DAYS);
  }

  lemma FormulaOfShortYears(a: int, b: int)
    requires a == 0 && b == 100
    ensures DayFromYearByFormula(a) == FIRST_SHORT_DAY && DayFromYearByFormula(b) == AFTER_SHORT_DAYS
  {
  }

  lemma IsItsFormula(y: int, n: int)
    requires DayFromYearByFormula(y) == n
    ensures DayFromYear(y) == n
  {
    DayFromYearIsFormula(y);
  }

  lemma YearsBetween(n: int, y: int, a: int, b: int)
    requires YearHolds(y, n)
    ensures DayFromYear(a) <= n < DayFromYear(b) <==> a <= y < b
  {
    if y < a {
      YearsGrow(y + 1, a);
    } else if y < b {
      YearsGrow(a, y);
      YearsGrow(y + 1, b);
    } else {
      YearsGrow(b, y);
    }
  }

  lemma ShortYearsHold(n: int, y: int, a: int, b: int)
    requires YearHolds(y, n) && a == 0 && b == 100
    ensures ShortDay(n) <==> ShortYear(y)
  {
    ShortYearsFrom(a, b);
    YearsBetween(n, y, a, b);
  }

  /** They are the days of the short years. */
  lemma ShortDayIff(n: int)
    ensures ShortDay(n) <==> ShortYear(FromDay(n).year)
  {
    ValidDayInYear(FromDay(n));
    ShortYearsHold(n, FromDay(n).year, 0, 100);
  }

  /** The day that `Date.UTC` makes of a date. */
  function UtcDayOf(d: Date): int {
    UtcDay(d.year, d.month, d.day)
  }

  lemma LengthsDiffer(m: int)
    ensures MonthDays(m, true) <= MonthDays(m, false) + 1
  {
  }

  lemma WithinYear(m: int, k: int, here: bool, there: bool)
    requires 0 <= m < 12 && 1 <= k <= MonthDays(m, here)
    ensures 0 <= DaysBefore(m, there) + k - 1 < DaysBefore(12, there)
  {
    LengthsDiffer(m);
    MonthsAscend(0, m, there);
    MonthsAscend(m + 1, 12, there);
    if m < 11 {
      MonthsAscend(m + 2, 12, there);
    }
  }

  lemma ReadInYear(d: Date)
    requires Valid(d)
    ensures YearHolds(FullYear(d.year), UtcDayOf(d))
  {
    var y := FullYear(d.year);
    WithinYear(d.month, d.day, IsLeap(d.year), IsLeap(y));
    YearLength(y);
    WholeYear(IsLeap(y));
  }

  /** A date is read as a day of its full year. */
  lemma ReadLate(d: Date)
    requires Valid(d)
    ensures FromDay(UtcDayOf(d)).year == FullYear(d.year)
  {
    var e := FromDay(UtcDayOf(d));
    ReadInYear(d);
    ValidDayInYear(e);
    YearUnique(UtcDayOf(d), e.year, FullYear(d.year));
  }

  /** So never as one of a short year. */
  lemma UtcDayNotShort(d: Date)
    requires Valid(d)
    ensures !ShortDay(UtcDayOf(d))
  {
    ReadLate(d);
    ShortDayIff(UtcDayOf(d));
  }

  /** The time asked for, on the day as `Date.UTC` reads it. */
  function Asked(off: int -> int, d: Date, pattern: int): int {
    UtcDayOf(d) * DAY + Shown(off, pattern) % DAY
  }

  lemma ClockOf(n: int, w: int)
    ensures On(n, n * DAY + w % DAY)
  {
  }

  lemma AskedOn(off: int -> int, d: Date, n: int, pattern: int)
    requires PolishZone(off) && UtcDayOf(d) == n
    ensures var local := Asked(off, d, pattern);
            && AtClock(off, d, pattern) == InstantShowing(off, local)
            && On(n, local) && local - n * DAY == Shown(off, pattern) % DAY
  {
    WantedTime(off, d, pattern);
    ClockOf(n, Shown(off, pattern));
  }

  // ------------------------------------------------- the two steps near the short years

  /** How far `Date.UTC` misplaces a date. */
  function Misread(d: Date): int {
    (UtcDayOf(d) - DayOf(d)) * DAY
  }

  lemma SecondsOf(t: int, o: int, day: int)
    requires o == HOUR || o == 2 * HOUR
    ensures var w := t + o;
            day * DAY + w % DAY / HOUR * HOUR + w % DAY / 60000 % 60 * 60000 + w % DAY / 1000 % 60 * 1000
            - t / 1000 * 1000 == o + (day - w / DAY) * DAY
  {
    ClockDigits(t + o);
    WholeSeconds(t, 3600);
    WholeSeconds(t, 7200);
  }

  lemma OffsetMisread(off: int -> int, t: int)
    requires PolishZone(off)
    ensures Offset(off, t) == off(t) + Misread(PolishDay(off, t))
  {
    SecondsOf(t, off(t), UtcDayOf(PolishDay(off, t)));
  }

  lemma ShortYearsMoveOn(d: Date)
    requires Valid(d) && ShortYear(d.year)
    ensures Misread(d) >= DAY
  {
    UtcDayOfShortYear(d);
  }

  /** The offset recomputed from the parts is the zone's, unless `Date.UTC` misreads the year. */
  lemma OffsetIff(off: int -> int, t: int)
    requires PolishZone(off)
    ensures Offset(off, t) == off(t) <==> !ShortYear(PolishDay(off, t).year)
  {
    OffsetMisread(off, t);
    if ShortYear(PolishDay(off, t).year) {
      ShortYearsMoveOn(PolishDay(off, t));
    }
  }

  /** Local time `x` is on day `n`. */
  predicate On(n: int, x: int) {
    n * DAY <= x < (n + 1) * DAY
  }

  lemma ClockOnDay(n: int, x: int)
    requires On(n, x)
    ensures x / DAY == n
  {
  }

  lemma OffsetOn(off: int -> int, t: int, n: int)
    requires PolishZone(off) && On(n, Shown(off, t))
    ensures if ShortDay(n) then Offset(off, t) == off(t) + Misread(FromDay(n)) >= off(t) + DAY
            else Offset(off, t) == off(t)
  {
    ClockOnDay(n, Shown(off, t));
    ShortDayIff(n);
    OffsetIff(off, t);
    if ShortDay(n) {
      OffsetMisread(off, t);
      ShortYearsMoveOn(FromDay(n));
    }
  }

  predicate JustChanged(off: int -> int, local: int) {
    off(local) == 2 * HOUR && off(local - 2 * HOUR) == HOUR
  }

  /**
   * What the two steps read for a time on day `n`: the zone's offsets, except that the first reads more on the next day
   * if that is a short one (`late`), and the second on the day before if that is (`early`).
   */
  predicate Readings(off: int -> int, early: bool, late: bool, n: int, local: int, first: int, second: int) {
    && (if late && On(n + 1, Shown(off, local)) then first >= off(local) + DAY else first == off(local))
    && (if early && On(n - 1, Shown(off, local - first)) then second >= off(local - first) + DAY
        else second == off(local - first))
    && !(early && late)
  }

  lemma FirstReading(off: int -> int, n: int, local: int)
    requires PolishZone(off) && On(n, local) && !ShortDay(n)
    ensures if ShortDay(n + 1) && On(n + 1, Shown(off, local)) then Offset(off, local) >= off(local) + DAY
            else Offset(off, local) == off(local)
  {
    if On(n, Shown(off, local)) {
      OffsetOn(off, local, n);
    } else {
      OffsetOn(off, local, n + 1);
    }
  }

  lemma FirstStepDay(off: int -> int, n: int, local: int)
    requires PolishZone(off) && On(n, local)
    ensures On(n, Shown(off, local)) || On(n + 1, Shown(off, local))
  {
  }

  /** Where the second step can look. */
  lemma SecondDay(off: int -> int, n: int, local: int, first: int)
    requires PolishZone(off) && On(n, local)
    requires first == off(local) || (first >= off(local) + DAY && On(n + 1, Shown(off, local)))
    ensures var w := Shown(off, local - first);
            w < (n + 2) * DAY && (first == off(local) ==> w >= (n - 1) * DAY)
    ensures first != off(local) || On(n, Shown(off, local)) ==> Shown(off, local - first) < (n + 1) * DAY
  {
  }

  lemma OffsetUpTo(off: int -> int, n: int, t: int)
    requires PolishZone(off) && Shown(off, t) < (n + 1) * DAY && !ShortDay(n) && ShortDay(n + 1)
    ensures Offset(off, t) == off(t)
  {
    var k := Shown(off, t) / DAY;
    OffsetOn(off, t, k);
  }

  lemma OffsetWithin(off: int -> int, n: int, t: int)
    requires PolishZone(off) && (n - 1) * DAY <= Shown(off, t) < (n + 2) * DAY && !ShortDay(n) && !ShortDay(n + 1)
    ensures if ShortDay(n - 1) && On(n - 1, Shown(off, t)) then Offset(off, t) >= off(t) + DAY
            else Offset(off, t) == off(t)
  {
    if On(n - 1, Shown(off, t)) {
      OffsetOn(off, t, n - 1);
    } else if On(n, Shown(off, t)) {
      OffsetOn(off, t, n);
    } else {
      OffsetOn(off, t, n + 1);
    }
  }

  lemma SecondReading(off: int -> int, n: int, local: int, first: int)
    requires PolishZone(off) && On(n, local) && !ShortDay(n)
    requires if ShortDay(n + 1) && On(n + 1, Shown(off, local)) then first >= off(local) + DAY else first == off(local)
    ensures var t := local - first;
            if ShortDay(n - 1) && On(n - 1, Shown(off, t)) then Offset(off, t) >= off(t) + DAY
            else Offset(off, t) == off(t)
  {
    FirstStepDay(off, n, local);
    SecondDay(off, n, local, first);
    if ShortDay(n + 1) {
      OffsetUpTo(off, n, local - first);
    } else {
      OffsetWithin(off, n, local - first);
    }
  }

  lemma ReadingsHold(off: int -> int, n: int, local: int) returns (first: int, second: int)
    requires PolishZone(off) && On(n, local) && !ShortDay(n)
    ensures first == Offset(off, local) && InstantShowing(off, local) == local - second
    ensures Readings(off, ShortDay(n - 1), ShortDay(n + 1), n, local, first, second)
  {
    first := Offset(off, local);
    second := Offset(off, local - first);
    FirstReading(off, n, local);
    SecondReading(off, n, local, first);
  }

  /**
   * When the two steps go wrong for a time on day `n`: on the day after the short years in the first hour if the clock
   * changed less than two hours before; on the day before them if what the first step read is too much, and the clock
   * of that many years earlier was another.
   */
  predicate GoWrong(off: int -> int, early: bool, late: bool, n: int, local: int, first: int) {
    || (early && JustChanged(off, local) && local - n * DAY < HOUR)
    || (late && off(local - first) != off(local - off(local)))
  }

  lemma GoWrongIff(off: int -> int, early: bool, late: bool, n: int, local: int, first: int, second: int)
    requires PolishZone(off) && On(n, local) && Readings(off, early, late, n, local, first, second)
    ensures local - second == TwoSteps(off, local) <==> !GoWrong(off, early, late, n, local, first)
  {
  }

  ghost predicate Misplaced(off: int -> int, n: int, local: int) {
    GoWrong(off, ShortDay(n - 1), ShortDay(n + 1), n, local, Offset(off, local))
  }

  /** The latest instant that shows the time, or an hour more where none does. */
  ghost predicate ShowsLatest(off: int -> int, local: int, r: int) {
    && Shown(off, r) == (if Gap(off, local) then local + HOUR else local)
    && forall i | Shown(off, i) == local :: i <= r
  }

  lemma OnlyOneShows(off: int -> int, local: int, r: int)
    requires PolishZone(off)
    ensures ShowsLatest(off, local, r) <==> r == TwoSteps(off, local)
  {
    TwoStepsSuffice(off, local);
  }

  lemma RightIff(off: int -> int, early: bool, late: bool, n: int, local: int, first: int, second: int)
    requires PolishZone(off) && On(n, local) && Readings(off, early, late, n, local, first, second)
    ensures ShowsLatest(off, local, local - second) <==> !GoWrong(off, early, late, n, local, first)
  {
    GoWrongIff(off, early, late, n, local, first, second);
    OnlyOneShows(off, local, local - second);
  }

  lemma ShowsIff(off: int -> int, n: int, local: int)
    requires PolishZone(off) && On(n, local) && !ShortDay(n)
    ensures ShowsLatest(off, local, InstantShowing(off, local)) <==> !Misplaced(off, n, local)
  {
    var first, second := ReadingsHold(off, n, local);
    RightIff(off, ShortDay(n - 1), ShortDay(n + 1), n, local, first, second);
  }

  /** The instant found shows the clock of `pattern` on the day given, or an hour more in a spring gap. */
  lemma AtClockShowsIff(off: int -> int, d: Date, pattern: int)
    requires PolishZone(off) && Valid(d)
    ensures var n, local := UtcDayOf(d), Asked(off, d, pattern);
            ShowsLatest(off, local, AtClock(off, d, pattern)) <==> !Misplaced(off, n, local)
  {
    AskedOn(off, d, UtcDayOf(d), pattern);
    UtcDayNotShort(d);
    ShowsIff(off, UtcDayOf(d), Asked(off, d, pattern));
  }

  // --------------------------------------------------------------- the day it falls on

  lemma OnlyDate(d: Date, n: int, k: int)
    requires Valid(d) && DayOf(d) == n
    ensures FromDay(k) == d <==> k == n
  {
    CivilBijection(d, k);
  }

  lemma DayShown(off: int -> int, t: int, d: Date, n: int)
    requires Valid(d) && DayOf(d) == n
    ensures PolishDay(off, t) == d <==> On(n, Shown(off, t))
  {
    var k := Shown(off, t) / DAY;
    assert On(k, Shown(off, t));
    OnlyDate(d, n, k);
  }

  /** The time sought lies in a gap that reaches past midnight. */
  ghost predicate GapToNextDay(off: int -> int, n: int, local: int) {
    Gap(off, local) && local + HOUR >= (n + 1) * DAY
  }

  /** Where the two steps go wrong: nineteen centuries early, or an hour late and past midnight. */
  predicate WrongDay(off: int -> int, early: bool, n: int, local: int) {
    early || (off(local - off(local)) == 2 * HOUR && local + HOUR >= (n + 1) * DAY)
  }

  lemma WrongDayIff(off: int -> int, early: bool, late: bool, n: int, local: int, first: int, second: int)
    requires PolishZone(off) && On(n, local) && Readings(off, early, late, n, local, first, second)
    requires GoWrong(off, early, late, n, local, first)
    ensures On(n, Shown(off, local - second)) <==> !WrongDay(off, early, n, local)
  {
  }

  lemma NearDay(off: int -> int, n: int, local: int, r: int)
    requires PolishZone(off) && On(n, local) && ShowsLatest(off, local, r)
    ensures On(n, Shown(off, r)) <==> !GapToNextDay(off, n, local)
  {
  }

  ghost predicate Elsewhere(off: int -> int, early: bool, late: bool, n: int, local: int, first: int) {
    if GoWrong(off, early, late, n, local, first) then WrongDay(off, early, n, local) else GapToNextDay(off, n, local)
  }

  lemma ElsewhereIff(off: int -> int, early: bool, late: bool, n: int, local: int, first: int, second: int)
    requires PolishZone(off) && On(n, local) && Readings(off, early, late, n, local, first, second)
    ensures On(n, Shown(off, local - second)) <==> !Elsewhere(off, early, late, n, local, first)
  {
    if GoWrong(off, early, late, n, local, first) {
      WrongDayIff(off, early, late, n, local, first, second);
    } else {
      GoWrongIff(off, early, late, n, local, first, second);
      OnlyOneShows(off, local, local - second);
      NearDay(off, n, local, local - second);
    }
  }

  ghost predicate OnAnotherDay(off: int -> int, n: int, local: int) {
    Elsewhere(off, ShortDay(n - 1), ShortDay(n + 1), n, local, Offset(off, local))
  }

  lemma DayKeptIff(off: int -> int, n: int, local: int)
    requires PolishZone(off) && On(n, local) && !ShortDay(n)
    ensures On(n, Shown(off, InstantShowing(off, local))) <==> !OnAnotherDay(off, n, local)
  {
    var first, second := ReadingsHold(off, n, local);
    ElsewhereIff(off, ShortDay(n - 1), ShortDay(n + 1), n, local, first, second);
  }

  /** A time asked for in a short year is not found earlier than `Date.UTC` reads it. */
  lemma NotBefore(off: int -> int, n: int, local: int)
    requires PolishZone(off) && On(n, local) && !ShortDay(n - 1) && !ShortDay(n) && !ShortDay(n + 1)
    ensures Shown(off, InstantShowing(off, local)) >= n * DAY
  {
    ShowsIff(off, n, local);
  }

  lemma LongAfter(y: int, z: int, b: int)
    requires y >= 0 && z == 1900 + y && b == 100
    ensures DayFromYear(z) > AFTER_SHORT_DAYS
  {
    ShortYearsFrom(b - 100, b);
    YearsGrow(b, z);
  }

  /** A day of a short year is read as one long after them. */
  lemma ShortYearReadLate(d: Date)
    requires Valid(d) && ShortYear(d.year)
    ensures UtcDayOf(d) > AFTER_SHORT_DAYS
  {
    ReadInYear(d);
    LongAfter(d.year, FullYear(d.year), 100);
  }

  lemma LaterThan(off: int -> int, d: Date, pattern: int, m: int, n: int)
    requires PolishZone(off) && UtcDayOf(d) == n && m < n
    requires !ShortDay(n - 1) && !ShortDay(n) && !ShortDay(n + 1)
    ensures !On(m, Shown(off, AtClock(off, d, pattern)))
  {
    AskedOn(off, d, n, pattern);
    NotBefore(off, n, Asked(off, d, pattern));
  }

  lemma ShortYearElsewhere(off: int -> int, d: Date, pattern: int)
    requires PolishZone(off) && Valid(d) && ShortYear(d.year)
    ensures PolishDay(off, AtClock(off, d, pattern)) != d
  {
    ShortYearReadLate(d);
    UtcDayOfShortYear(d);
    LaterThan(off, d, pattern, DayOf(d), UtcDayOf(d));
    DayShown(off, AtClock(off, d, pattern), d, DayOf(d));
  }

  /**
   * It falls on the day asked for unless the year is short or the time is in a gap that reaches past midnight; where
   * the two steps go wrong, unless they lead to another day.
   */
  lemma AtClockDayIff(off: int -> int, d: Date, pattern: int)
    requires PolishZone(off) && Valid(d)
    ensures PolishDay(off, AtClock(off, d, pattern)) == d <==>
              !ShortYear(d.year) && !OnAnotherDay(off, UtcDayOf(d), Asked(off, d, pattern))
  {
    if ShortYear(d.year) {
      ShortYearElsewhere(off, d, pattern);
    } else {
      var n := UtcDayOf(d);
      AskedOn(off, d, n, pattern);
      DayShown(off, AtClock(off, d, pattern), d, n);
      UtcDayNotShort(d);
      DayKeptIff(off, n, Asked(off, d, pattern));
    }
  }

  // ----------------------------------------------------------------- asking again

  /** The hour that instant `t` lies in comes round again. */
  predicate ComesAgain(off: int -> int, t: int) {
    off(t) == 2 * HOUR && off(t + HOUR) == HOUR
  }

  lemma LatestIff(off: int -> int, t: int)
    requires PolishZone(off)
    ensures TwoSteps(off, Shown(off, t)) == t <==> !ComesAgain(off, t)
  {
  }

  lemma WrongLatestIff(off: int -> int, early: bool, late: bool, n: int, t: int, first: int, second: int)
    requires PolishZone(off) && On(n, Shown(off, t)) && Readings(off, early, late, n, Shown(off, t), first, second)
    requires GoWrong(off, early, late, n, Shown(off, t), first)
    ensures Shown(off, t) - second == t <==> ComesAgain(off, t)
  {
  }

  lemma FoundAgainIff(off: int -> int, early: bool, late: bool, n: int, t: int, first: int, second: int)
    requires PolishZone(off) && On(n, Shown(off, t)) && Readings(off, early, late, n, Shown(off, t), first, second)
    ensures Shown(off, t) - second == t <==>
              (GoWrong(off, early, late, n, Shown(off, t), first) <==> ComesAgain(off, t))
  {
    if GoWrong(off, early, late, n, Shown(off, t), first) {
      WrongLatestIff(off, early, late, n, t, first, second);
    } else {
      GoWrongIff(off, early, late, n, Shown(off, t), first, second);
      LatestIff(off, t);
    }
  }

  lemma InvertsIff(off: int -> int, n: int, t: int)
    requires PolishZone(off) && On(n, Shown(off, t)) && !ShortDay(n)
    ensures InstantShowing(off, Shown(off, t)) == t <==> (Misplaced(off, n, Shown(off, t)) <==> ComesAgain(off, t))
  {
    var local := Shown(off, t);
    var first, second := ReadingsHold(off, n, local);
    FoundAgainIff(off, ShortDay(n - 1), ShortDay(n + 1), n, t, first, second);
  }

  lemma AskedAgain(off: int -> int, d: Date, n: int, t: int)
    requires PolishZone(off) && n == Shown(off, t) / DAY && UtcDayOf(d) == n
    ensures AtClock(off, d, t) == InstantShowing(off, Shown(off, t)) && On(n, Shown(off, t))
  {
    AskedOn(off, d, n, t);
    assert Asked(off, d, t) == Shown(off, t);
  }

  /**
   * Asking for the day and clock of an instant gives back that instant, unless its hour comes round again; where the
   * two steps go wrong, only if it does.
   */
  lemma AtClockInvertsIff(off: int -> int, t: int)
    requires PolishZone(off)
    ensures var n := Shown(off, t) / DAY;
            AtClock(off, PolishDay(off, t), t) == t <==>
              !ShortDay(n) && (Misplaced(off, n, Shown(off, t)) <==> ComesAgain(off, t))
  {
    var d, n := PolishDay(off, t), Shown(off, t) / DAY;
    ShortDayIff(n);
    if ShortDay(n) {
      ShortYearElsewhere(off, d, t);
    } else {
      AskedAgain(off, d, n, t);
      InvertsIff(off, n, t);
    }
  }

  // ------------------------------------------------------- the first day of the year 100

  lemma DayOfNewYear(d: Date, b: int)
    requires d.year == b == 100 && d.month == 0 && d.day == 1
    ensures UtcDayOf(d) == AFTER_SHORT_DAYS
  {
    ShortYearsFrom(b - 100, b);
    ValidDayInYear(d);
  }

  lemma AskedAfterShortYears(off: int -> int, d: Date, n: int, pattern: int)
    requires PolishZone(off) && UtcDayOf(d) == n
    requires ShortDay(n - 1) && !ShortDay(n) && !ShortDay(n + 1)
    ensures var local := Asked(off, d, pattern);
            AtClock(off, d, pattern) == TwoSteps(off, local) <==>
              !(JustChanged(off, local) && Shown(off, pattern) % DAY < HOUR)
  {
    var local := Asked(off, d, pattern);
    AskedOn(off, d, n, pattern);
    ShowsIff(off, n, local);
    OnlyOneShows(off, local, InstantShowing(off, local));
  }

  /**
   * On the first day of the year 100 the instant found is misplaced exactly in the first hour, when the clock changed
   * less than two hours before.
   */
  lemma FirstOfYear100Iff(off: int -> int, d: Date, pattern: int)
    requires PolishZone(off) && d.year == 100 && d.month == 0 && d.day == 1
    ensures var local := Asked(off, d, pattern);
            AtClock(off, d, pattern) == TwoSteps(off, local) <==>
              !(JustChanged(off, local) && Shown(off, pattern) % DAY < HOUR)
  {
    DayOfNewYear(d, d.year);
    AskedAfterShortYears(off, d, UtcDayOf(d), pattern);
  }

  // ------------------------------------------------------------- a gap near midnight

  /** A zone that goes from one hour to two at instant `at`. */
  function ChangeAt(at: int): int -> int {
    t => if t < at then HOUR else 2 * HOUR
  }

  lemma ChangeAtIsZone(at: int)
    ensures PolishZone(ChangeAt(at))
  {
  }

  /** The hour that its clock leaves out. */
  lemma ChangeAtHasGap(at: int, local: int)
    requires at + HOUR <= local < at + 2 * HOUR
    ensures Gap(ChangeAt(at), local)
  {
    forall i
      ensures Shown(ChangeAt(at), i) != local
    {
    }
  }

  lemma ClockIs(n: int, c: int)
    requires 0 <= c < DAY
    ensures (n * DAY + c) % DAY == c
  {
  }

  lemma NextDay(off: int -> int, n: int, local: int)
    requires PolishZone(off) && !ShortDay(n) && On(n, local) && local + HOUR >= (n + 1) * DAY
    requires Gap(off, local) && !Misplaced(off, n, local)
    ensures !On(n, Shown(off, InstantShowing(off, local)))
  {
    DayKeptIff(off, n, local);
  }

  lemma HalfPastEleven(n: int)
    ensures var midnight := (n + 1) * DAY;
            Shown(ChangeAt(midnight - 2 * HOUR), midnight - DAY - HOUR - HOUR / 2) % DAY == DAY - HOUR / 2
  {
    ClockIs(n - 1, DAY - HOUR / 2);
  }

  /** A zone whose clock leaves out the hour before the midnight that ends day `n`, and a moment at half past eleven. */
  lemma LateGap(n: int) returns (off: int -> int, pattern: int)
    ensures off == ChangeAt((n + 1) * DAY - 2 * HOUR)
    ensures PolishZone(off) && Shown(off, pattern) % DAY == DAY - HOUR / 2
    ensures Gap(off, (n + 1) * DAY - HOUR / 2)
  {
    var midnight := (n + 1) * DAY;
    off, pattern := ChangeAt(midnight - 2 * HOUR), midnight - DAY - HOUR - HOUR / 2;
    ChangeAtIsZone(midnight - 2 * HOUR);
    HalfPastEleven(n);
    ChangeAtHasGap(midnight - 2 * HOUR, midnight - HOUR / 2);
  }

  lemma NeverWrong(at: int, early: bool, late: bool, n: int, local: int, first: int)
    requires at == (n + 1) * DAY - 2 * HOUR && local == (n + 1) * DAY - HOUR / 2 && first >= 2 * HOUR
    ensures !GoWrong(ChangeAt(at), early, late, n, local, first)
  {
  }

  lemma LateGapNotMisplaced(off: int -> int, n: int, local: int)
    requires off == ChangeAt((n + 1) * DAY - 2 * HOUR) && local == (n + 1) * DAY - HOUR / 2 && !ShortDay(n)
    ensures !Misplaced(off, n, local)
  {
    ChangeAtIsZone((n + 1) * DAY - 2 * HOUR);
    FirstReading(off, n, local);
    NeverWrong((n + 1) * DAY - 2 * HOUR, ShortDay(n - 1), ShortDay(n + 1), n, local, Offset(off, local));
  }

  /** On any day a clock change can put a time on the next: there half past eleven comes out half past midnight. */
  lemma GapPastMidnight(d: Date) returns (off: int -> int, pattern: int)
    requires Valid(d) && !ShortYear(d.year)
    ensures PolishZone(off) && Shown(off, pattern) % DAY == DAY - HOUR / 2
    ensures PolishDay(off, AtClock(off, d, pattern)) != d
  {
    var n := UtcDayOf(d);
    off, pattern := LateGap(n);
    AskedOn(off, d, n, pattern);
    UtcDayNotShort(d);
    LateGapNotMisplaced(off, n, Asked(off, d, pattern));
    NextDay(off, n, Asked(off, d, pattern));
    DayShown(off, AtClock(off, d, pattern), d, n);
  }
}
