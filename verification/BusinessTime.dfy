/**
 * Business days (src/modules/business-time.ts): a business day starts some whole hours after local
 * midnight. Instants are milliseconds from midnight UTC of 1 January of year 1; the timezone is a
 * fixed number of minutes ahead of UTC. Dates are year, month and day; their text form is not part
 * of this model.
 */
module BusinessTime {
  import opened Common

  datatype Date = Date(year: nat, month: nat, day: nat)

  const DAY_MS := 86_400_000
  const HOUR_MS := 3_600_000
  const MINUTE_MS := 60_000

  // ---------------------------------------------------------------------------
  // The calendar: what a date is, and which date follows it

  predicate IsLeap(year: nat) { year % 4 == 0 && (year % 100 != 0 || year % 400 == 0) }

  function MonthLength(year: nat, month: nat): nat {
    if month == 2 then (if IsLeap(year) then 29 else 28)
    else if month in {4, 6, 9, 11} then 30
    else 31
  }

  predicate IsDate(d: Date) {
    d.year >= 1 && 1 <= d.month <= 12 && 1 <= d.day <= MonthLength(d.year, d.month)
  }

  function NextDay(d: Date): Date {
    if d.day < MonthLength(d.year, d.month) then d.(day := d.day + 1)
    else if d.month < 12 then Date(d.year, d.month + 1, 1)
    else Date(d.year + 1, 1, 1)
  }

  /** Calendar order. */
  predicate Before(a: Date, b: Date) {
    a.year < b.year || (a.year == b.year && (a.month < b.month || (a.month == b.month && a.day < b.day)))
  }

  // ---------------------------------------------------------------------------
  // Day numbers

  function DaysBeforeYear(year: nat): int
    requires year >= 1
  {
    365 * (year - 1) + (year - 1) / 4 - (year - 1) / 100 + (year - 1) / 400
  }

  function DaysBeforeMonth(year: nat, month: nat): nat
    requires month >= 1
  {
    if month == 1 then 0 else DaysBeforeMonth(year, month - 1) + MonthLength(year, month - 1)
  }

  /** Days from 1 January of year 1, as `Date.UTC` counts them. */
  function DayNumber(d: Date): int
    requires IsDate(d)
  {
    DaysBeforeYear(d.year) + DaysBeforeMonth(d.year, d.month) + d.day - 1
  }

  /** The date `n` days after 1 January of year 1. */
  function DateOf(n: nat): Date {
    if n == 0 then Date(1, 1, 1) else NextDay(DateOf(n - 1))
  }

  lemma YearLength(year: nat)
    requires year >= 1
    ensures DaysBeforeYear(year + 1) == DaysBeforeYear(year) + (if IsLeap(year) then 366 else 365)
    ensures DaysBeforeMonth(year, 12) + 31 == (if IsLeap(year) then 366 else 365)
  {
    DivStep(year, 4);
    DivStep(year, 100);
    DivStep(year, 400);
    LeapDivisors(year);
    MonthTable(year);
  }

  lemma DivStep(n: nat, k: nat)
    requires n >= 1 && k in {4, 100, 400}
    ensures n / k == (n - 1) / k + (if n % k == 0 then 1 else 0)
  {
  }

  lemma LeapDivisors(year: nat)
    ensures year % 400 == 0 ==> year % 100 == 0
    ensures year % 100 == 0 ==> year % 4 == 0
  {
    if year % 400 == 0 {
      assert year == 100 * (4 * (year / 400));
    }
    if year % 100 == 0 {
      assert year == 4 * (25 * (year / 100));
    }
  }

  lemma MonthTable(year: nat)
    ensures var leap := if IsLeap(year) then 1 else 0;
      && DaysBeforeMonth(year, 4) == 90 + leap && DaysBeforeMonth(year, 7) == 181 + leap
      && DaysBeforeMonth(year, 10) == 273 + leap && DaysBeforeMonth(year, 12) == 334 + leap
  {
    assert DaysBeforeMonth(year, 2) == 31;
    assert DaysBeforeMonth(year, 5) == DaysBeforeMonth(year, 4) + 30;
    assert DaysBeforeMonth(year, 8) == DaysBeforeMonth(year, 7) + 31;
    assert DaysBeforeMonth(year, 11) == DaysBeforeMonth(year, 10) + 31;
  }

  /** The Gregorian calendar: every fourth year is a leap year, but of the centuries only every fourth. */
  lemma MonthLengths(year: nat, month: nat)
    requires 1 <= month <= 12
    ensures MonthLength(year, month) ==
      if month == 2 && (year % 400 == 0 || (year % 4 == 0 && year % 100 != 0)) then 29
      else [31, 28, 31, 30, 31, 30, 31, 31, 30, 31, 30, 31][month - 1]
  {
    LeapDivisors(year);
  }

  /** The count of days is that of the Unix clock, 719162 days further on. */
  lemma Epoch()
    ensures DayNumber(Date(1, 1, 1)) == 0 && DayNumber(Date(1970, 1, 1)) == 719_162
  {
    assert DaysBeforeYear(1970) == 365 * 1969 + 492 - 19 + 4;
  }

  lemma NextDayCounts(d: Date)
    requires IsDate(d)
    ensures IsDate(NextDay(d)) && DayNumber(NextDay(d)) == DayNumber(d) + 1
  {
    if d.day == MonthLength(d.year, d.month) && d.month == 12 {
      YearLength(d.year);
    }
  }

  lemma {:induction false} DateOfNumber(n: nat)
    ensures IsDate(DateOf(n)) && DayNumber(DateOf(n)) == n
  {
    if n > 0 {
      DateOfNumber(n - 1);
      NextDayCounts(DateOf(n - 1));
    } else {
      assert DaysBeforeYear(1) == 0;
    }
  }

  lemma {:induction false} MonthsInOrder(year: nat, m: nat, n: nat)
    requires 1 <= m < n
    ensures DaysBeforeMonth(year, m) + MonthLength(year, m) <= DaysBeforeMonth(year, n)
  {
    if m < n - 1 { MonthsInOrder(year, m, n - 1); }
  }

  lemma WithinYear(d: Date)
    requires IsDate(d)
    ensures DaysBeforeYear(d.year) <= DayNumber(d) < DaysBeforeYear(d.year + 1)
  {
    YearLength(d.year);
    if d.month < 12 { MonthsInOrder(d.year, d.month, 12); }
  }

  lemma {:induction false} YearsInOrder(a: nat, b: nat)
    requires 1 <= a <= b
    ensures DaysBeforeYear(a) <= DaysBeforeYear(b)
    decreases b
  {
    if a < b {
      YearsInOrder(a, b - 1);
      YearLength(b - 1);
    }
  }

  /** Day numbers follow calendar order. */
  lemma CountsInOrder(a: Date, b: Date)
    requires IsDate(a) && IsDate(b)
    ensures Before(a, b) <==> DayNumber(a) < DayNumber(b)
    ensures a == b <==> DayNumber(a) == DayNumber(b)
  {
    if Before(a, b) {
      BeforeCounts(a, b);
    } else if Before(b, a) {
      BeforeCounts(b, a);
    }
  }

  lemma BeforeCounts(a: Date, b: Date)
    requires IsDate(a) && IsDate(b) && Before(a, b)
    ensures DayNumber(a) < DayNumber(b)
  {
    if a.year < b.year {
      WithinYear(a);
      WithinYear(b);
      YearsInOrder(a.year + 1, b.year);
    } else if a.month < b.month {
      MonthsInOrder(a.year, a.month, b.month);
    }
  }

  lemma DayNumberFrom(d: Date)
    requires IsDate(d)
    ensures DayNumber(d) >= 0
  {
    WithinYear(d);
    YearsInOrder(1, d.year);
    assert DaysBeforeYear(1) == 0;
  }

  /** Dates and day numbers are in bijection. */
  lemma Bijection(d: Date, n: nat)
    requires IsDate(d)
    ensures DayNumber(d) >= 0
    ensures d == DateOf(n) <==> DayNumber(d) == n
    ensures DateOf(DayNumber(d)) == d
  {
    DayNumberFrom(d);
    DateOfNumber(n);
    CountsInOrder(d, DateOf(n));
    DateOfNumber(DayNumber(d));
    CountsInOrder(d, DateOf(DayNumber(d)));
  }

  // ---------------------------------------------------------------------------
  // Date arithmetic

  /** `addDays`, as long as the result is not before year 1. */
  function AddDays(d: Date, days: int): Date
    requires IsDate(d) && DayNumber(d) + days >= 0
  {
    DateOf(DayNumber(d) + days)
  }

  lemma AddDaysCounts(d: Date, a: int)
    requires IsDate(d) && DayNumber(d) + a >= 0
    ensures IsDate(AddDays(d, a)) && DayNumber(AddDays(d, a)) == DayNumber(d) + a
  {
    DateOfNumber(DayNumber(d) + a);
  }

  lemma SameCount(d: Date, a: int, e: Date, b: int)
    requires IsDate(d) && IsDate(e) && DayNumber(d) + a == DayNumber(e) + b >= 0
    ensures AddDays(d, a) == AddDays(e, b)
  {
  }

  /** Adding days is an action of the integers on dates: zero does nothing, and steps add up. */
  lemma AddDaysAdds(d: Date, a: int, b: int)
    requires IsDate(d) && DayNumber(d) + a >= 0 && DayNumber(d) + a + b >= 0
    ensures IsDate(AddDays(d, a)) && DayNumber(AddDays(d, a)) == DayNumber(d) + a
    ensures AddDays(AddDays(d, a), b) == AddDays(d, a + b)
    ensures a == 0 ==> AddDays(d, a) == d
  {
    AddDaysCounts(d, a);
    SameCount(AddDays(d, a), b, d, a + b);
    if a == 0 { Bijection(d, DayNumber(d)); }
  }

  /** Adding one day is stepping to the calendar's next date. */
  lemma AddOneDay(d: Date)
    requires IsDate(d)
    ensures DayNumber(d) + 1 >= 0 && AddDays(d, 1) == NextDay(d)
  {
    DayNumberFrom(d);
    AddDaysCounts(d, 1);
    NextDayCounts(d);
    CountsInOrder(AddDays(d, 1), NextDay(d));
  }

  // ---------------------------------------------------------------------------
  // Business days

  /** Minutes ahead of UTC, and the local hour at which a business day begins. */
  datatype Clock = Clock(offset: int, startHour: nat)

  predicate ValidClock(c: Clock) { c.startHour <= 23 }

  function LocalMidnight(c: Clock, d: Date): int
    requires IsDate(d)
  {
    DayNumber(d) * DAY_MS - c.offset * MINUTE_MS
  }

  function LocalDayStart(c: Clock, d: Date): int
    requires IsDate(d)
  {
    LocalMidnight(c, d) + c.startHour * HOUR_MS
  }

  function LocalDayEnd(c: Clock, d: Date): int
    requires IsDate(d)
  {
    NextDayCounts(d);
    LocalDayStart(c, NextDay(d)) - 1
  }

  /** Whole days between year 1 and the instant, on the shifted local clock. */
  function BusinessDayNumber(c: Clock, t: int): int {
    (t - c.startHour * HOUR_MS + c.offset * MINUTE_MS) / DAY_MS
  }

  /** `localDate`; instants before year 1 are not dated. */
  function LocalDate(c: Clock, t: int): Option<Date> {
    var n := BusinessDayNumber(c, t);
    if n < 0 then None else Some(DateOf(n))
  }

  lemma DayOfInstant(c: Clock, t: int, n: int)
    ensures BusinessDayNumber(c, t) == n <==>
      n * DAY_MS - c.offset * MINUTE_MS + c.startHour * HOUR_MS <= t
        <= (n + 1) * DAY_MS - c.offset * MINUTE_MS + c.startHour * HOUR_MS - 1
  {
  }

  /** Business days partition time: an instant is dated `d` exactly between that day's start and its end. */
  lemma DaysPartitionTime(c: Clock, d: Date, t: int)
    requires ValidClock(c) && IsDate(d)
    ensures LocalDate(c, t) == Some(d) <==> LocalDayStart(c, d) <= t <= LocalDayEnd(c, d)
  {
    NextDayCounts(d);
    DayNumberFrom(d);
    DayOfInstant(c, t, DayNumber(d));
    var n := BusinessDayNumber(c, t);
    if n >= 0 { Bijection(d, n); }
  }

  /** Consecutive days abut, and each lasts 24 hours. */
  lemma DaysAbut(c: Clock, d: Date)
    requires IsDate(d)
    ensures IsDate(NextDay(d)) && LocalDayEnd(c, d) + 1 == LocalDayStart(c, NextDay(d))
    ensures LocalDayEnd(c, d) - LocalDayStart(c, d) == 86_399_999
    ensures LocalDayStart(c, d) == DayNumber(d) * 86_400_000 + (c.startHour as int) * 3_600_000 - c.offset * 60_000
  {
    NextDayCounts(d);
  }

  /** The range of the day containing an instant contains it. */
  lemma DayRangeContains(c: Clock, t: int)
    requires ValidClock(c) && LocalDate(c, t).Some?
    ensures var d := LocalDate(c, t).value; IsDate(d) && LocalDayStart(c, d) <= t <= LocalDayEnd(c, d)
  {
    DateOfNumber(BusinessDayNumber(c, t));
    DaysPartitionTime(c, LocalDate(c, t).value, t);
  }

  // ---------------------------------------------------------------------------
  // Business months

  function FirstOfNext(year: nat, month: nat): Date {
    if month == 12 then Date(year + 1, 1, 1) else Date(year, month + 1, 1)
  }

  predicate IsMonth(year: nat, month: nat) { year >= 1 && 1 <= month <= 12 }

  function LocalMonthStart(c: Clock, year: nat, month: nat): int
    requires IsMonth(year, month)
  {
    LocalDayStart(c, Date(year, month, 1))
  }

  function LocalMonthEnd(c: Clock, year: nat, month: nat): int
    requires IsMonth(year, month)
  {
    LocalDayStart(c, FirstOfNext(year, month)) - 1
  }

  lemma MonthCounts(year: nat, month: nat)
    requires IsMonth(year, month)
    ensures DayNumber(FirstOfNext(year, month)) == DayNumber(Date(year, month, 1)) + MonthLength(year, month)
  {
    if month == 12 { YearLength(year); }
  }

  /** A month's range is exactly the union of its days: an instant is in it when its date is of that month. */
  lemma MonthIsItsDays(c: Clock, year: nat, month: nat, t: int)
    requires ValidClock(c) && IsMonth(year, month)
    ensures LocalMonthStart(c, year, month) <= t <= LocalMonthEnd(c, year, month) <==>
      LocalDate(c, t).Some? && LocalDate(c, t).value.year == year && LocalDate(c, t).value.month == month
  {
    var first, next := Date(year, month, 1), FirstOfNext(year, month);
    var n := BusinessDayNumber(c, t);
    InstantBetween(c, first, next, t);
    DayNumberFrom(first);
    MonthCounts(year, month);
    if n >= 0 {
      DateOfNumber(n);
      InMonth(DateOf(n), year, month);
    }
  }

  /** Instants from the start of one day up to the start of another, by day number. */
  lemma InstantBetween(c: Clock, a: Date, b: Date, t: int)
    requires IsDate(a) && IsDate(b)
    ensures LocalDayStart(c, a) <= t <= LocalDayStart(c, b) - 1 <==>
      DayNumber(a) <= BusinessDayNumber(c, t) < DayNumber(b)
  {
    var n := BusinessDayNumber(c, t);
    DayOfInstant(c, t, n);
    StartsInOrder(c, DayNumber(a), n, t);
    StartsInOrder(c, DayNumber(b), n, t);
  }

  lemma StartsInOrder(c: Clock, m: int, n: int, t: int)
    requires n == BusinessDayNumber(c, t)
    ensures m * DAY_MS - c.offset * MINUTE_MS + c.startHour * HOUR_MS <= t <==> m <= n
  {
    DayOfInstant(c, t, n);
  }

  /** The dates of a month are those numbered from its first up to the next month's first. */
  lemma InMonth(d: Date, year: nat, month: nat)
    requires IsDate(d) && IsMonth(year, month)
    ensures d.year == year && d.month == month <==>
      DayNumber(Date(year, month, 1)) <= DayNumber(d) < DayNumber(FirstOfNext(year, month))
  {
    CountsInOrder(d, Date(year, month, 1));
    CountsInOrder(d, FirstOfNext(year, month));
  }
}
