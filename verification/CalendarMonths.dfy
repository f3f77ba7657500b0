/**
 * Whole calendar months and date-only text (src/services/application/validation.ts), over the
 * UTC calendar of ECMA-262 section 21.4.1: a date is its year, month (from 0), day and the
 * milliseconds into that day, and stands for one time value.
 */
module CalendarMonths {
  import opened Common

  const MS_PER_DAY := 86_400_000

  // ---- The calendar ----

  predicate LeapYear(y: int) { y % 4 == 0 && (y % 100 != 0 || y % 400 == 0) }

  /** Days from 1 January 1970 to 1 January of year `y`. */
  function DayFromYear(y: int): int {
    365 * (y - 1970) + (y - 1969) / 4 - (y - 1901) / 100 + (y - 1601) / 400
  }

  /** Days of the year before month `m`, in a common year. */
  function DaysBefore(m: int): int
    requires 0 <= m < 12
  {
    [0, 31, 59, 90, 120, 151, 181, 212, 243, 273, 304, 334][m]
  }

  /** Days from 1 January 1970 to the first of a month, months counted from year 0. */
  function MonthStart(month: int): int {
    var y, m := month / 12, month % 12;
    DayFromYear(y) + DaysBefore(m) + if m >= 2 && LeapYear(y) then 1 else 0
  }

  function DaysIn(month: int): (days: int)
    ensures 28 <= days <= 31
  {
    var m := month % 12;
    if m == 1 then (if LeapYear(month / 12) then 29 else 28)
    else if m == 3 || m == 5 || m == 8 || m == 10 then 30 else 31
  }

  lemma FourthYears(y: int)
    ensures (y + 1 - 1969) / 4 == (y - 1969) / 4 + if y % 4 == 0 then 1 else 0
  {
  }

  lemma Centuries(y: int)
    ensures (y + 1 - 1901) / 100 == (y - 1901) / 100 + if y % 100 == 0 then 1 else 0
    ensures y % 100 == 0 ==> y % 4 == 0
  {
  }

  lemma FourthCenturies(y: int)
    ensures (y + 1 - 1601) / 400 == (y - 1601) / 400 + if y % 400 == 0 then 1 else 0
    ensures y % 400 == 0 ==> y % 100 == 0
  {
  }

  /** A year's days, from how many leap days it adds to each of the three counts. */
  function Counted(y: int, fourths: int, centuries: int, fourthCenturies: int): int {
    365 * (y - 1970) + fourths - centuries + fourthCenturies
  }

  lemma YearLength(y: int)
    ensures DayFromYear(y + 1) == DayFromYear(y) + if LeapYear(y) then 366 else 365
  {
    FourthYears(y);
    Centuries(y);
    FourthCenturies(y);
    var f, c, q := (y - 1969) / 4, (y - 1901) / 100, (y - 1601) / 400;
    assert DayFromYear(y) == Counted(y, f, c, q);
    assert DayFromYear(y + 1) == Counted(
      y + 1, f + if y % 4 == 0 then 1 else 0, c + if y % 100 == 0 then 1 else 0, q + if y % 400 == 0 then 1 else 0);
  }

  lemma NextMonth(month: int)
    ensures MonthStart(month + 1) == MonthStart(month) + DaysIn(month)
  {
    YearLength(month / 12);
    if month % 12 == 11 {
      assert (month + 1) / 12 == month / 12 + 1 && (month + 1) % 12 == 0;
    } else {
      assert (month + 1) / 12 == month / 12 && (month + 1) % 12 == month % 12 + 1;
    }
  }

  lemma {:induction false} SumsInOrder(f: int -> int, step: int -> int, a: int, b: int)
    requires forall m :: step(m) >= 0 && f(m + 1) == f(m) + step(m)
    requires a < b
    ensures f(a) + step(a) <= f(b)
    decreases b - a
  {
    if a + 1 < b {
      SumsInOrder(f, step, a + 1, b);
    }
  }

  lemma MonthsInOrder(a: int, b: int)
    requires a < b
    ensures MonthStart(a) + DaysIn(a) <= MonthStart(b)
  {
    forall m ensures MonthStart(m + 1) == MonthStart(m) + DaysIn(m) {
      NextMonth(m);
    }
    SumsInOrder(m => MonthStart(m), m => DaysIn(m), a, b);
  }

  // ---- Dates ----

  datatype Date = Date(year: int, month: int, day: int, time: int) {
    function Month(): int { year * 12 + month }

    predicate Valid() {
      0 <= month < 12 && 1 <= day <= DaysIn(Month()) && 0 <= time < MS_PER_DAY
    }

    /** The time value, in milliseconds from 1 January 1970. */
    function GetTime(): int { (MonthStart(Month()) + day - 1) * MS_PER_DAY + time }
  }

  function DateIn(month: int, day: int, time: int): (d: Date)
    ensures d.Month() == month
  {
    Date(month / 12, month % 12, day, time)
  }

  /** Brings a day before or after the month into the month it falls in. */
  function Normalized(month: int, day: int): (r: (int, int))
    ensures 1 <= r.1 <= DaysIn(r.0)
    decreases day < 1, if day < 1 then 1 - day else day
  {
    if day < 1 then Normalized(month - 1, day + DaysIn(month - 1))
    else if day > DaysIn(month) then Normalized(month + 1, day - DaysIn(month))
    else (month, day)
  }

  /** Carrying a day never changes which day of the calendar it is. */
  lemma {:induction false} NormalizedIsTheSameDay(month: int, day: int)
    ensures var (m, d) := Normalized(month, day); MonthStart(m) + d == MonthStart(month) + day
    decreases day < 1, if day < 1 then 1 - day else day
  {
    if day < 1 {
      NextMonth(month - 1);
      NormalizedIsTheSameDay(month - 1, day + DaysIn(month - 1));
    } else if day > DaysIn(month) {
      NextMonth(month);
      NormalizedIsTheSameDay(month + 1, day - DaysIn(month));
    }
  }

  /** Years 0 to 99 are read as 1900 to 1999. */
  function FullYear(year: int): int { if 0 <= year <= 99 then 1900 + year else year }

  /** `Date.UTC`: any month and any day, carried into the date they come to. */
  function DateUtc(year: int, month: int, day: int, time: int): (d: Date)
    requires 0 <= time < MS_PER_DAY
    ensures d.Valid()
  {
    var (m, day') := Normalized(FullYear(year) * 12 + month, day);
    DateIn(m, day', time)
  }

  /** It stands for the time value the standard gives: the month's first day, plus the days, plus the time. */
  lemma DateUtcTime(year: int, month: int, day: int, time: int)
    requires 0 <= time < MS_PER_DAY
    ensures DateUtc(year, month, day, time).GetTime()
         == (MonthStart(FullYear(year) * 12 + month) + day - 1) * MS_PER_DAY + time
  {
    NormalizedIsTheSameDay(FullYear(year) * 12 + month, day);
  }

  function WithDate(d: Date, day: int): Date
    requires d.Valid()
  {
    var (m, day') := Normalized(d.Month(), day);
    DateIn(m, day', d.time)
  }

  lemma DatesInOrder(a: Date, b: Date)
    requires a.Valid() && b.Valid()
    requires a.Month() < b.Month() || (a.Month() == b.Month() && (a.day < b.day || (a.day == b.day && a.time < b.time)))
    ensures a.GetTime() < b.GetTime()
  {
    if a.Month() < b.Month() {
      MonthsInOrder(a.Month(), b.Month());
    }
    var x, y := MonthStart(a.Month()) + a.day, MonthStart(b.Month()) + b.day;
    assert x < y || (x == y && a.time < b.time);
  }

  /** Time is counted from the first midnight of 1970. */
  lemma TimeBeginsIn1970()
    ensures Date(1970, 0, 1, 0).GetTime() == 0
  {
    assert Date(1970, 0, 1, 0).Month() == 1970 * 12;
  }

  /** A time value is one date and no other, so reading a date's parts loses nothing. */
  lemma TimeDeterminesDate(a: Date, b: Date)
    requires a.Valid() && b.Valid()
    ensures a.GetTime() == b.GetTime() <==> a == b
  {
    if a.Month() < b.Month() || (a.Month() == b.Month() && (a.day < b.day || (a.day == b.day && a.time < b.time))) {
      DatesInOrder(a, b);
    } else if a.Month() != b.Month() || a.day != b.day || a.time != b.time {
      DatesInOrder(b, a);
    } else {
      assert a.year == a.Month() / 12 && b.year == b.Month() / 12;
    }
  }

  // ---- Adding months ----

  function Min(a: int, b: int): int { if a < b then a else b }

  /** The same day and time `months` later, or the last day where that month has no such day. */
  function Shifted(value: Date, months: int): (d: Date)
    requires value.Valid()
    ensures d.Valid()
  {
    var month := FullYear(value.year) * 12 + value.month + months;
    DateIn(month, Min(value.day, DaysIn(month)), value.time)
  }

  method AddUtcCalendarMonths(value: Date, months: int) returns (target: Date)
    requires value.Valid()
    ensures target == Shifted(value, months)
  {
    var day := value.day;
    target := DateUtc(value.year, value.month + months + 1, 0, value.time);
    target := WithDate(target, Min(day, target.day));
  }

  /** The months land exactly where they should for every date outside years 0 to 99, and for none inside. */
  lemma ShiftLandsIffNotTwoDigitYear(value: Date, months: int)
    requires value.Valid()
    ensures Shifted(value, months).Month() == value.Month() + months <==> !(0 <= value.year <= 99)
  {
  }

  lemma ShiftIsStrictlyIncreasing(value: Date, n: int, m: int)
    requires value.Valid() && n < m
    ensures Shifted(value, n).GetTime() < Shifted(value, m).GetTime()
  {
    DatesInOrder(Shifted(value, n), Shifted(value, m));
  }

  // ---- Counting whole months ----

  function MonthsApart(from: Date, to: Date): int { to.Month() - from.Month() }

  /** The same day and time `months` later, or that month's last day, in any year at all. */
  function TrueShifted(value: Date, months: int): (d: Date)
    requires value.Valid()
    ensures d.Valid() && d.Month() == value.Month() + months
  {
    var month := value.Month() + months;
    DateIn(month, Min(value.day, DaysIn(month)), value.time)
  }

  predicate Reaches(from: Date, to: Date, n: int)
    requires from.Valid() && to.Valid()
  {
    TrueShifted(from, n).GetTime() <= to.GetTime()
  }

  /** The greatest `n >= 0` for which `n` calendar months after `from` is no later than `to`, or 0 if there is none. */
  ghost predicate IsFullMonths(from: Date, to: Date, n: int)
    requires from.Valid() && to.Valid()
  {
    && n >= 0
    && (n > 0 ==> Reaches(from, to, n))
    && forall k: nat :: k > n ==> !Reaches(from, to, k)
  }

  /** The same of what `AddUtcCalendarMonths` gives, which is not the same months later from a year of two digits. */
  ghost predicate IsGreatestAdded(from: Date, to: Date, n: int)
    requires from.Valid() && to.Valid()
  {
    && n >= 0
    && (n > 0 ==> Shifted(from, n).GetTime() <= to.GetTime())
    && forall k: nat :: k > n ==> Shifted(from, k).GetTime() > to.GetTime()
  }

  predicate TwoDigitYear(d: Date) { 0 <= d.year <= 99 }

  /**
   * The count is the number of whole calendar months exactly when `from` lies outside years 0 to 99, or
   * `to` is in no later month of the calendar, or the last of the months between them is not complete.
   */
  method FullUtcCalendarMonths(from: Date, to: Date) returns (months: int)
    requires from.Valid() && to.Valid()
    ensures IsFullMonths(from, to, months) <==>
      !TwoDigitYear(from) || MonthsApart(from, to) <= 0 || !Reaches(from, to, MonthsApart(from, to))
    ensures IsGreatestAdded(from, to, months) <==> !TwoDigitYear(from) || MonthsApart(from, to) <= 1
    ensures TwoDigitYear(from) ==> months == if MonthsApart(from, to) <= 1 then 0 else MonthsApart(from, to) - 1
  {
    months := (to.year - from.year) * 12 + to.month - from.month;
    var shifted := AddUtcCalendarMonths(from, months);
    if shifted.GetTime() > to.GetTime() {
      months := months - 1;
    }
    months := if months < 0 then 0 else months;
    WhatIsCounted(from, to, months);
    CountsFullMonths(from, to, months);
    CountsAddedMonths(from, to, months);
  }

  lemma ByMonth(d: Date, to: Date)
    requires d.Valid() && to.Valid()
    ensures d.Month() < to.Month() ==> d.GetTime() <= to.GetTime()
    ensures d.Month() > to.Month() ==> d.GetTime() > to.GetTime()
  {
    if d.Month() < to.Month() {
      DatesInOrder(d, to);
    } else if d.Month() > to.Month() {
      DatesInOrder(to, d);
    }
  }

  /** What the code counts: the months apart, less one where the last is not reached, and never below 0. */
  ghost predicate CountedByCode(from: Date, to: Date, months: int)
    requires from.Valid() && to.Valid()
  {
    var apart := MonthsApart(from, to);
    var counted := if !TwoDigitYear(from) && Reaches(from, to, apart) then apart else apart - 1;
    months == if counted < 0 then 0 else counted
  }

  lemma WhatIsCounted(from: Date, to: Date, months: int)
    requires from.Valid() && to.Valid()
    requires var apart := MonthsApart(from, to);
             var counted := if Shifted(from, apart).GetTime() > to.GetTime() then apart - 1 else apart;
             months == if counted < 0 then 0 else counted
    ensures CountedByCode(from, to, months)
  {
    if TwoDigitYear(from) {
      ByMonth(Shifted(from, MonthsApart(from, to)), to);
    } else {
      SameShift(from, MonthsApart(from, to));
    }
  }

  lemma SameShift(value: Date, months: int)
    requires value.Valid() && !TwoDigitYear(value)
    ensures Shifted(value, months) == TrueShifted(value, months)
  {
  }

  lemma ReachesUpTo(from: Date, to: Date, k: int)
    requires from.Valid() && to.Valid()
    ensures k < MonthsApart(from, to) ==> Reaches(from, to, k)
    ensures k > MonthsApart(from, to) ==> !Reaches(from, to, k)
  {
    ByMonth(TrueShifted(from, k), to);
  }

  /** The whole months are the months apart, less one where the last is not complete. */
  lemma WholeMonths(from: Date, to: Date, months: int)
    requires from.Valid() && to.Valid()
    ensures var apart := MonthsApart(from, to);
      IsFullMonths(from, to, months) <==> months == if apart <= 0 then 0 else if Reaches(from, to, apart) then apart else apart - 1
  {
    var apart := MonthsApart(from, to);
    forall k
      ensures k < apart ==> Reaches(from, to, k)
      ensures k > apart ==> !Reaches(from, to, k)
    {
      ReachesUpTo(from, to, k);
    }
    if months >= 0 && months < apart { assert months + 1 < apart ==> Reaches(from, to, months + 1); }
  }

  lemma CountsFullMonths(from: Date, to: Date, months: int)
    requires from.Valid() && to.Valid() && CountedByCode(from, to, months)
    ensures IsFullMonths(from, to, months) <==>
      !TwoDigitYear(from) || MonthsApart(from, to) <= 0 || !Reaches(from, to, MonthsApart(from, to))
  {
    WholeMonths(from, to, months);
    ReachesUpTo(from, to, 0);
  }

  /** From 15 January to 20 February of the year 50 a whole month passes, and the code counts none. */
  lemma AWholeMonthIsMissed()
    ensures var from, to := Date(50, 0, 15, 0), Date(50, 1, 20, 0);
      from.Valid() && to.Valid() && IsFullMonths(from, to, 1) && CountedByCode(from, to, 0)
  {
    var from, to := Date(50, 0, 15, 0), Date(50, 1, 20, 0);
    assert from.Month() == 600 && to.Month() == 601 && TrueShifted(from, 1) == Date(50, 1, 15, 0);
    DatesInOrder(TrueShifted(from, 1), to);
    WholeMonths(from, to, 1);
  }

  lemma TwoDigitShiftsAreLate(from: Date, to: Date, k: int)
    requires from.Valid() && to.Valid() && TwoDigitYear(from) && k > MonthsApart(from, to) - 22_800
    ensures Shifted(from, k).GetTime() > to.GetTime()
  {
    ByMonth(Shifted(from, k), to);
  }

  lemma CountsAddedFromTwoDigits(from: Date, to: Date, months: int)
    requires from.Valid() && to.Valid() && TwoDigitYear(from) && CountedByCode(from, to, months)
    ensures IsGreatestAdded(from, to, months) <==> MonthsApart(from, to) <= 1
  {
    if MonthsApart(from, to) <= 1 {
      forall k: nat | k > months ensures Shifted(from, k).GetTime() > to.GetTime() {
        TwoDigitShiftsAreLate(from, to, k);
      }
    } else {
      TwoDigitShiftsAreLate(from, to, months);
    }
  }

  lemma CountsAddedMonths(from: Date, to: Date, months: int)
    requires from.Valid() && to.Valid() && CountedByCode(from, to, months)
    ensures IsGreatestAdded(from, to, months) <==> !TwoDigitYear(from) || MonthsApart(from, to) <= 1
  {
    if TwoDigitYear(from) {
      CountsAddedFromTwoDigits(from, to, months);
    } else {
      CountsFullMonths(from, to, months);
      SameCount(from, to, months);
    }
  }

  lemma SameCount(from: Date, to: Date, months: int)
    requires from.Valid() && to.Valid() && !TwoDigitYear(from) && IsFullMonths(from, to, months)
    ensures IsGreatestAdded(from, to, months)
  {
    SameShift(from, months);
    forall k: nat | k > months ensures Shifted(from, k).GetTime() > to.GetTime() {
      SameShift(from, k);
      assert !Reaches(from, to, k);
    }
  }

  // ---- Date-only text ----

  predicate IsDigit(c: char) { '0' <= c <= '9' }

  function Digit(c: char): int
    requires IsDigit(c)
  {
    c as int - '0' as int
  }

  function Pair(s: string): int
    requires |s| == 2 && IsDigit(s[0]) && IsDigit(s[1])
  {
    Digit(s[0]) * 10 + Digit(s[1])
  }

  predicate DateShaped(s: string) {
    && |s| == 10 && s[4] == '-' && s[7] == '-'
    && forall i :: 0 <= i < 10 && i != 4 && i != 7 ==> IsDigit(s[i])
  }

  function ParseDateOnly(s: string): Option<Date> {
    if !DateShaped(s) then None
    else
      var year := Pair(s[0..2]) * 100 + Pair(s[2..4]);
      var month := Pair(s[5..7]);
      var day := Pair(s[8..10]);
      var date := DateUtc(year, month - 1, day, 0);
      if date.year == year && date.month == month - 1 && date.day == day then Some(date) else None
  }

  function DigitOf(n: int): char
    requires 0 <= n < 10
  {
    ('0' as int + n) as char
  }

  function TwoDigits(n: int): string
    requires 0 <= n < 100
  {
    [DigitOf(n / 10), DigitOf(n % 10)]
  }

  function Rendered(d: Date): string
    requires d.Valid() && 0 <= d.year <= 9999
  {
    TwoDigits(d.year / 100) + TwoDigits(d.year % 100) + "-" + TwoDigits(d.month + 1) + "-" + TwoDigits(d.day)
  }

  lemma PairOfTwoDigits(n: int)
    requires 0 <= n < 100
    ensures var s := TwoDigits(n); IsDigit(s[0]) && IsDigit(s[1]) && Pair(s) == n
  {
  }

  lemma TwoDigitsOfPair(s: string)
    requires |s| == 2 && IsDigit(s[0]) && IsDigit(s[1])
    ensures 0 <= Pair(s) < 100 && TwoDigits(Pair(s)) == s
  {
  }

  /** The midnights that text can name: real dates of years 100 to 9999. */
  predicate Writable(d: Date) {
    d.Valid() && d.time == 0 && 100 <= d.year <= 9999
  }

  /** Text is accepted exactly when it is how some real date of years 100 to 9999 is written, and gives that date. */
  lemma ParsesExactlyRealDates(s: string, d: Date)
    ensures ParseDateOnly(s) == Some(d) <==> Writable(d) && Rendered(d) == s
  {
    if Writable(d) && Rendered(d) == s {
      RenderedParses(d);
    }
    if ParseDateOnly(s) == Some(d) {
      ParsedRenders(s, d);
    }
  }

  lemma MonthParts(year: int, month: int)
    requires 0 <= month < 12
    ensures (year * 12 + month) / 12 == year && (year * 12 + month) % 12 == month
  {
  }

  lemma {:induction false} NormalizedForward(month: int, day: int)
    requires day >= 0
    ensures Normalized(month, day).0 >= month - 1
    ensures day >= 1 ==> Normalized(month, day).0 >= month
    decreases day
  {
    if day > DaysIn(month) {
      NormalizedForward(month + 1, day - DaysIn(month));
    }
  }

  /** A year below 100 never comes back as itself, whatever the month and day. */
  lemma TwoDigitYearIsCarried(year: int, month: int, day: int)
    requires 0 <= year <= 99 && 0 <= month < 100 && 0 <= day < 100
    ensures DateUtc(year, month - 1, day, 0).year != year
  {
    NormalizedForward((1900 + year) * 12 + month - 1, day);
  }

  lemma RealDateIsKept(year: int, month: int, day: int)
    requires year >= 100 && 0 <= month < 12 && 1 <= day <= DaysIn(year * 12 + month)
    ensures DateUtc(year, month, day, 0) == Date(year, month, day, 0)
  {
    MonthParts(year, month);
  }

  lemma RenderedParts(d: Date)
    requires Writable(d)
    ensures var s := Rendered(d);
      && DateShaped(s)
      && s[0..2] == TwoDigits(d.year / 100) && s[2..4] == TwoDigits(d.year % 100)
      && s[5..7] == TwoDigits(d.month + 1) && s[8..10] == TwoDigits(d.day)
  {
    PairOfTwoDigits(d.year / 100);
    PairOfTwoDigits(d.year % 100);
    PairOfTwoDigits(d.month + 1);
    PairOfTwoDigits(d.day);
  }

  lemma RenderedParses(d: Date)
    requires Writable(d)
    ensures ParseDateOnly(Rendered(d)) == Some(d)
  {
    RenderedParts(d);
    PairOfTwoDigits(d.year / 100);
    PairOfTwoDigits(d.year % 100);
    PairOfTwoDigits(d.month + 1);
    PairOfTwoDigits(d.day);
    RealDateIsKept(d.year, d.month, d.day);
  }

  lemma ParsedRenders(s: string, d: Date)
    requires ParseDateOnly(s) == Some(d)
    ensures Writable(d) && Rendered(d) == s
  {
    var century, years, month, day := Pair(s[0..2]), Pair(s[2..4]), Pair(s[5..7]), Pair(s[8..10]);
    TwoDigitsOfPair(s[0..2]);
    TwoDigitsOfPair(s[2..4]);
    TwoDigitsOfPair(s[5..7]);
    TwoDigitsOfPair(s[8..10]);
    if century == 0 {
      TwoDigitYearIsCarried(years, month, day);
    }
    assert d.year == century * 100 + years && d.month + 1 == month && d.day == day && d.time == 0;
    assert d.year / 100 == century && d.year % 100 == years;
    assert s == s[0..2] + s[2..4] + "-" + s[5..7] + "-" + s[8..10];
  }
}
