/** The text form of dates in date fields (`kalendarz.ts`): printing, parsing, and how far they undo each other. */
module DateText {
  import opened Options
  import opened Gregorian
  import opened Calendar
  import opened Text

  // ------------------------------------------------------------------ printing

  /** `dwa` */
  function TwoDigits(n: int): string {
    var s := NumberText(n);
    if |s| < 2 then "0" + s else s
  }

  /** `naTekst` */
  function DayText(d: Date): string {
    NumberText(d.year) + "-" + TwoDigits(d.month + 1) + "-" + TwoDigits(d.day)
  }

  function OrZero(n: Option<int>): int {
    if n.Some? then n.value else 0
  }

  /** `zloz` */
  function Print(d: Date, hour: Option<int>, minute: Option<int>): string {
    if hour.None? then DayText(d)
    else DayText(d) + "T" + TwoDigits(hour.value) + ":" + TwoDigits(OrZero(minute))
  }

  // ------------------------------------------------------------------- parsing

  datatype Parsed = Parsed(day: Date, hour: int, minute: int)

  predicate DigitsAt(s: string, i: nat, j: nat) {
    i <= j <= |s| && AllDigits(s[i..j])
  }

  /** The date part of the pattern; it is anchored at the start only. */
  predicate HasDate(s: string) {
    && |s| >= 10
    && DigitsAt(s, 0, 4) && s[4] == '-' && DigitsAt(s, 5, 7) && s[7] == '-' && DigitsAt(s, 8, 10)
  }

  /** The optional time part. */
  predicate HasTime(s: string) {
    |s| >= 16 && s[10] == 'T' && DigitsAt(s, 11, 13) && s[13] == ':' && DigitsAt(s, 14, 16)
  }

  function DateIn(s: string): Date
    requires HasDate(s)
  {
    Date(Value(s[0..4]), Value(s[5..7]) - 1, Value(s[8..10]))
  }

  /** `rozbierz` */
  ghost function Parse(s: string): Option<Parsed> {
    if !HasDate(s) then None
    else
      var d := DateIn(s);
      if d.month > 11 || d.day < 1 || d.day > MonthLength(d.year, d.month) then None
      else if HasTime(s) then Some(Parsed(d, Value(s[11..13]), Value(s[14..16])))
      else Some(Parsed(d, 0, 0))
  }

  // -------------------------------------------------------------------- digits

  lemma {:induction false} LeadingDigit(s: string)
    requires AllDigits(s) && |s| > 0 && s[0] != '0'
    ensures Value(s) > 0
  {
    if |s| == 1 {
    } else {
      LeadingDigit(s[..|s| - 1]);
    }
  }

  /** Digits without a leading zero print back as they were. */
  lemma {:induction false} DecimalOfValue(s: string)
    requires AllDigits(s) && |s| > 0 && s[0] != '0'
    ensures Decimal(Value(s)) == s
  {
    var t := s[..|s| - 1];
    assert s == t + [s[|s| - 1]];
    if |s| == 1 {
      assert Value(t) == 0;
    } else {
      LeadingDigit(t);
      DecimalOfValue(t);
      assert Value(s) / 10 == Value(t) && Value(s) % 10 == DigitValue(s[|s| - 1]);
    }
  }

  lemma TwoDigitValue(s: string)
    requires |s| == 2 && AllDigits(s)
    ensures Value(s) == 10 * DigitValue(s[0]) + DigitValue(s[1]) && TwoDigits(Value(s)) == s
  {
    assert s[..1][..0] == [];
    assert Value(s[..1]) == DigitValue(s[0]);
    assert s == [s[0]] + [s[1]];
    if s[0] != '0' {
      DecimalOfValue(s);
    }
  }

  lemma FourDigitValue(s: string)
    requires |s| == 4 && AllDigits(s)
    ensures Value(s) == 1000 * DigitValue(s[0]) + 100 * DigitValue(s[1]) + 10 * DigitValue(s[2]) + DigitValue(s[3])
  {
    TwoDigitValue(s[..2]);
    assert s[..3][..2] == s[..2];
    assert s[..4] == s;
  }

  lemma DecimalLength(n: nat)
    ensures |Decimal(n)| == 1 <==> n < 10
    ensures |Decimal(n)| <= 2 <==> n < 100
    ensures |Decimal(n)| <= 3 <==> n < 1000
    ensures |Decimal(n)| <= 4 <==> n < 10000
  {
  }

  lemma TwoDigitsShape(n: int)
    requires 0 <= n < 100
    ensures |TwoDigits(n)| == 2 && AllDigits(TwoDigits(n)) && Value(TwoDigits(n)) == n
  {
    DecimalLength(n);
    ValueOfDecimal(n);
    TwoDigitValue(TwoDigits(n));
  }

  // -------------------------------------------------------------- undoing each other

  lemma DateFields(y: string, m: string, k: string)
    requires |y| == 4 && |m| == 2 && |k| == 2
    ensures var s := y + "-" + m + "-" + k;
            |s| == 10 && s[0..4] == y && s[4] == '-' && s[5..7] == m && s[7] == '-' && s[8..10] == k
  {
  }

  lemma TimeFields(date: string, h: string, m: string)
    requires |date| == 10 && |h| == 2 && |m| == 2
    ensures var s := date + "T" + h + ":" + m;
            |s| == 16 && s[..10] == date && s[10] == 'T' && s[11..13] == h && s[13] == ':' && s[14..16] == m
  {
  }

  /** The fields of a printed day are found where they were put when its year has four digits. */
  lemma DayTextShape(d: Date)
    requires 1000 <= d.year <= 9999 && 0 <= d.month + 1 < 100 && 0 <= d.day < 100
    ensures |DayText(d)| == 10 && HasDate(DayText(d)) && DateIn(DayText(d)) == d
  {
    DecimalLength(d.year);
    ValueOfDecimal(d.year);
    TwoDigitsShape(d.month + 1);
    TwoDigitsShape(d.day);
    DateFields(NumberText(d.year), TwoDigits(d.month + 1), TwoDigits(d.day));
  }

  lemma SameDatePart(s: string, t: string)
    requires HasDate(s) && |t| >= 10 && t[..10] == s[..10]
    ensures HasDate(t) && DateIn(t) == DateIn(s)
  {
    assert forall i | 0 <= i < 10 :: t[i] == t[..10][i] && s[i] == s[..10][i];
    assert t[0..4] == s[0..4] && t[5..7] == s[5..7] && t[8..10] == s[8..10];
  }

  lemma PrintWithTime(date: string, hour: int, minute: int)
    requires |date| == 10 && HasDate(date) && 0 <= hour < 100 && 0 <= minute < 100
    ensures var s := date + "T" + TwoDigits(hour) + ":" + TwoDigits(minute);
            && HasDate(s) && DateIn(s) == DateIn(date)
            && HasTime(s) && Value(s[11..13]) == hour && Value(s[14..16]) == minute
  {
    TwoDigitsShape(hour);
    TwoDigitsShape(minute);
    TimeFields(date, TwoDigits(hour), TwoDigits(minute));
    SameDatePart(date, date + "T" + TwoDigits(hour) + ":" + TwoDigits(minute));
  }

  lemma PrintShape(d: Date, hour: Option<int>, minute: Option<int>)
    requires 1000 <= d.year <= 9999 && 0 <= d.month < 12 && 0 <= d.day < 100
    requires 0 <= OrZero(hour) < 100 && 0 <= OrZero(minute) < 100
    ensures var s := Print(d, hour, minute);
            && HasDate(s) && DateIn(s) == d && (HasTime(s) <==> hour.Some?)
            && (hour.Some? ==> Value(s[11..13]) == hour.value && Value(s[14..16]) == OrZero(minute))
  {
    DayTextShape(d);
    if hour.Some? {
      PrintWithTime(DayText(d), hour.value, OrZero(minute));
    }
  }

  /** The characters are the two decimal digits of a number, by their code points. */
  predicate Spell(n: int, a: char, b: char) {
    48 <= a as int <= 57 && 48 <= b as int <= 57 && n == 10 * (a as int - 48) + (b as int - 48)
  }

  lemma TwoDigitsInFull(n: int)
    requires 0 <= n < 100
    ensures |TwoDigits(n)| == 2 && Spell(n, TwoDigits(n)[0], TwoDigits(n)[1])
  {
    TwoDigitsShape(n);
    TwoDigitValue(TwoDigits(n));
  }

  lemma YearInFull(y: int)
    requires 1000 <= y <= 9999
    ensures var s := NumberText(y); |s| == 4 && Spell(y / 100, s[0], s[1]) && Spell(y % 100, s[2], s[3])
  {
    DecimalLength(y);
    ValueOfDecimal(y);
    FourDigitValue(NumberText(y));
  }

  lemma DayInFull(y: string, m: string, d: string, t: string)
    requires |y| == 4 && |m| == 2 && |d| == 2
    ensures var s := y + "-" + m + "-" + d + t;
            && |s| == 10 + |t| && s[0] == y[0] && s[1] == y[1] && s[2] == y[2] && s[3] == y[3] && s[4] == '-'
            && s[5] == m[0] && s[6] == m[1] && s[7] == '-' && s[8] == d[0] && s[9] == d[1] && s[10..] == t
            && s[..10] == y + "-" + m + "-" + d
  {
  }

  lemma TimeInFull(s: string, h: string, m: string)
    requires |h| == 2 && |m| == 2 && |s| == 16 && s[10..] == "T" + h + ":" + m
    ensures s[10] == 'T' && s[11] == h[0] && s[12] == h[1] && s[13] == ':' && s[14] == m[0] && s[15] == m[1]
  {
    var t := s[10..];
    assert s[10] == t[0] && s[11] == t[1] && s[12] == t[2] && s[13] == t[3] && s[14] == t[4] && s[15] == t[5];
  }

  lemma TimeBehind(date: string, h: string, m: string)
    ensures date + "T" + h + ":" + m == date + ("T" + h + ":" + m)
  {
  }

  lemma PrintInFull(y: string, m: string, d: string, h: string, n: string)
    requires |y| == 4 && |m| == 2 && |d| == 2 && |h| == 2 && |n| == 2
    ensures var s := y + "-" + m + "-" + d + "T" + h + ":" + n;
            && |s| == 16 && s[..10] == y + "-" + m + "-" + d
            && s[0] == y[0] && s[1] == y[1] && s[2] == y[2] && s[3] == y[3] && s[4] == '-'
            && s[5] == m[0] && s[6] == m[1] && s[7] == '-' && s[8] == d[0] && s[9] == d[1]
            && s[10] == 'T' && s[11] == h[0] && s[12] == h[1] && s[13] == ':' && s[14] == n[0] && s[15] == n[1]
  {
    var s := y + "-" + m + "-" + d + "T" + h + ":" + n;
    TimeBehind(y + "-" + m + "-" + d, h, n);
    DayInFull(y, m, d, "T" + h + ":" + n);
    TimeInFull(s, h, n);
  }

  /** Printed character by character: year, month from 1 on and day, and after a `T` hour and minute. */
  lemma PrintedInFull(d: Date, hour: int, minute: int)
    requires 1000 <= d.year <= 9999 && 0 <= d.month < 12 && 1 <= d.day <= 31
    requires 0 <= hour < 24 && 0 <= minute < 60
    ensures var s := Print(d, Some(hour), Some(minute));
            && |s| == 16 && Print(d, None, None) == s[..10]
            && Spell(d.year / 100, s[0], s[1]) && Spell(d.year % 100, s[2], s[3]) && s[4] == '-'
            && Spell(d.month + 1, s[5], s[6]) && s[7] == '-' && Spell(d.day, s[8], s[9]) && s[10] == 'T'
            && Spell(hour, s[11], s[12]) && s[13] == ':' && Spell(minute, s[14], s[15])
  {
    YearInFull(d.year);
    TwoDigitsInFull(d.month + 1);
    TwoDigitsInFull(d.day);
    TwoDigitsInFull(hour);
    TwoDigitsInFull(minute);
    PrintInFull(NumberText(d.year), TwoDigits(d.month + 1), TwoDigits(d.day), TwoDigits(hour), TwoDigits(minute));
  }

  lemma NoDateBehind(year: int, s: string)
    requires !(1000 <= year <= 9999) && NumberText(year) + "-" <= s
    ensures !HasDate(s)
  {
    var y := NumberText(year);
    assert (y + "-")[|y|] == '-' && forall i | 0 <= i < |y| :: s[i] == (y + "-")[i] == y[i];
    if year < 0 {
      assert |s| >= 4 ==> s[0..4][0] == '-';
    } else {
      DecimalLength(year);
      if |y| < 4 {
        assert |s| >= 4 ==> s[0..4][|y|] == '-';
      } else {
        assert IsDigit(y[4]);
      }
    }
  }

  lemma DayTextStart(d: Date)
    ensures NumberText(d.year) + "-" <= DayText(d)
  {
  }

  lemma NoDateInPrint(d: Date, hour: Option<int>, minute: Option<int>)
    requires !(1000 <= d.year <= 9999)
    ensures !HasDate(Print(d, hour, minute))
  {
    DayTextStart(d);
    assert DayText(d) <= Print(d, hour, minute);
    NoDateBehind(d.year, Print(d, hour, minute));
  }

  lemma ParseShape(s: string)
    requires HasDate(s) && Valid(DateIn(s)) && DateIn(s).year >= 1000
    ensures Parse(s) == Some(if HasTime(s) then Parsed(DateIn(s), Value(s[11..13]), Value(s[14..16]))
                             else Parsed(DateIn(s), 0, 0))
  {
    MonthLengthRightIff(DateIn(s).year, DateIn(s).month);
  }

  /** What was printed is read back, exactly for years of four digits. */
  lemma ParseOfPrintIff(d: Date, hour: Option<int>, minute: Option<int>)
    requires Valid(d) && 0 <= OrZero(hour) < 100 && 0 <= OrZero(minute) < 100
    ensures Parse(Print(d, hour, minute)) == Some(Parsed(d, OrZero(hour), if hour.None? then 0 else OrZero(minute)))
            <==> 1000 <= d.year <= 9999
  {
    if 1000 <= d.year <= 9999 {
      PrintShape(d, hour, minute);
      ParseShape(Print(d, hour, minute));
    } else {
      NoDateInPrint(d, hour, minute);
    }
  }

  lemma DayTextOfDate(s: string)
    requires HasDate(s) && s[0] != '0'
    ensures DayText(DateIn(s)) == s[..10] && DateIn(s).year >= 1000
  {
    var y, m, k := s[0..4], s[5..7], s[8..10];
    DecimalOfValue(y);
    DecimalLength(Value(y));
    TwoDigitValue(m);
    TwoDigitValue(k);
    assert s[..10] == y + "-" + m + "-" + k;
  }

  lemma YearBelowThousand(s: string)
    requires HasDate(s) && s[0] == '0'
    ensures 0 <= DateIn(s).year < 1000 && |DayText(DateIn(s))| < 10
  {
    var y, m, k := s[0..4], s[5..7], s[8..10];
    FourDigitValue(y);
    TwoDigitValue(m);
    TwoDigitValue(k);
    DecimalLength(Value(y));
  }

  /** The date read prints as the text it was read from, exactly if its year has no leading zero. */
  lemma PrintOfDateIff(s: string)
    requires Parse(s).Some?
    ensures Print(Parse(s).value.day, None, None) == s[..10] <==> s[0] != '0'
  {
    if s[0] == '0' {
      YearBelowThousand(s);
    } else {
      DayTextOfDate(s);
    }
  }

  /** So does the date with its time. */
  lemma PrintOfTimeIff(s: string)
    requires Parse(s).Some? && HasTime(s)
    ensures var p := Parse(s).value;
            Print(p.day, Some(p.hour), Some(p.minute)) == s[..16] <==> s[0] != '0'
  {
    var h, m := s[11..13], s[14..16];
    TwoDigitValue(h);
    TwoDigitValue(m);
    if s[0] == '0' {
      YearBelowThousand(s);
    } else {
      DayTextOfDate(s);
      assert s[..16] == s[..10] + "T" + h + ":" + m;
    }
  }

  // ----------------------------------------------------------- what is accepted

  /** Month 00 is accepted with any day up to 31. */
  lemma LengthOfMonthZero(year: int)
    ensures MonthLength(year, -1) == 31
  {
    assert (-1) / 12 == -1 && (-1) % 12 == 11;
    assert DaysInMonth(FullYear(year) - 1, 11) == 31;
    MonthLengthCounts(year, -1);
  }

  /**
   * Text is accepted exactly when it starts as a date does and names a real day, or a day of "month 00", and is
   * not the leap day of the year 0000.
   */
  lemma AcceptedIff(s: string)
    ensures Parse(s).Some? <==>
            && HasDate(s)
            && var d := DateIn(s);
               (Valid(d) || (d.month == -1 && 1 <= d.day <= 31)) && d != Date(0, 1, 29)
  {
    if HasDate(s) {
      var d := DateIn(s);
      assert d.month >= -1;
      if d.month == -1 {
        LengthOfMonthZero(d.year);
      } else if d.month <= 11 {
        MonthLengthWithin(d.year, d.month);
        MonthLengthRightIff(d.year, d.month);
        LengthInShortYear(d.year, d.month);
      }
    }
  }
}
