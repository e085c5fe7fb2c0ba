/**
 * The slice of java.time the recurrence engine relies on: proleptic Gregorian dates,
 * clock times with nanosecond precision, their field-by-field ordering, month lengths,
 * the epoch-day count behind the day of the week, and the date arithmetic the generator
 * and the scheduler call (plusDays, plusMonths(1), plusYears(1), plusHours,
 * withDayOfMonth and TemporalAdjusters.next).
 */
module Calendar {

  datatype Date = Date(year: int, month: int, day: int)
  datatype LocalTime = LocalTime(hour: int, minute: int, second: int, nano: int)
  datatype DateTime = DateTime(date: Date, time: LocalTime)

  datatype DayOfWeek = MONDAY | TUESDAY | WEDNESDAY | THURSDAY | FRIDAY | SATURDAY | SUNDAY
  {
    /** ISO numbering, as DayOfWeek.getValue(): Monday is 1, Sunday is 7. */
    function Value(): (v: int)
      ensures 1 <= v <= 7
    {
      match this
      case MONDAY => 1
      case TUESDAY => 2
      case WEDNESDAY => 3
      case THURSDAY => 4
      case FRIDAY => 5
      case SATURDAY => 6
      case SUNDAY => 7
    }
  }

  /** DayOfWeek.of(v). */
  function DayOfWeekOfValue(v: int): (d: DayOfWeek)
    requires 1 <= v <= 7
    ensures d.Value() == v
  {
    if v == 1 then MONDAY
    else if v == 2 then TUESDAY
    else if v == 3 then WEDNESDAY
    else if v == 4 then THURSDAY
    else if v == 5 then FRIDAY
    else if v == 6 then SATURDAY
    else SUNDAY
  }

  // ---------------------------------------------------------------------------
  // Validity (java.time objects are valid by construction)

  predicate IsLeapYear(year: int) {
    year % 4 == 0 && (year % 100 != 0 || year % 400 == 0)
  }

  /** LocalDate.lengthOfMonth(). */
  function DaysInMonth(year: int, month: int): (n: int)
    requires 1 <= month <= 12
    ensures 28 <= n <= 31
    ensures n == 29 <==> month == 2 && IsLeapYear(year)
  {
    if month == 2 then (if IsLeapYear(year) then 29 else 28)
    else if month == 4 || month == 6 || month == 9 || month == 11 then 30
    else 31
  }

  predicate ValidDate(d: Date) {
    1 <= d.month <= 12 && 1 <= d.day <= DaysInMonth(d.year, d.month)
  }

  predicate ValidTime(t: LocalTime) {
    0 <= t.hour < 24 && 0 <= t.minute < 60 && 0 <= t.second < 60 && 0 <= t.nano < 1_000_000_000
  }

  predicate ValidDateTime(dt: DateTime) {
    ValidDate(dt.date) && ValidTime(dt.time)
  }

  // ---------------------------------------------------------------------------
  // Ordering: compareTo works field by field, most significant first

  predicate DateBefore(a: Date, b: Date) {
    a.year < b.year ||
    (a.year == b.year && (a.month < b.month || (a.month == b.month && a.day < b.day)))
  }

  predicate TimeBefore(a: LocalTime, b: LocalTime) {
    a.hour < b.hour ||
    (a.hour == b.hour && (a.minute < b.minute ||
      (a.minute == b.minute && (a.second < b.second ||
        (a.second == b.second && a.nano < b.nano)))))
  }

  /** LocalDateTime.isBefore: compare the dates, then the clock times. */
  predicate IsBefore(a: DateTime, b: DateTime) {
    DateBefore(a.date, b.date) || (a.date == b.date && TimeBefore(a.time, b.time))
  }

  /** LocalDateTime.isAfter. */
  predicate IsAfter(a: DateTime, b: DateTime) {
    IsBefore(b, a)
  }

  /** The ordering is total and strict: exactly one of a < b, a == b, b < a. */
  lemma Trichotomy(a: DateTime, b: DateTime)
    ensures IsBefore(a, b) || a == b || IsBefore(b, a)
    ensures !(IsBefore(a, b) && IsBefore(b, a))
    ensures !IsBefore(a, a)
  {
  }

  lemma DateBeforeTransitive(a: Date, b: Date, c: Date)
    requires DateBefore(a, b) && DateBefore(b, c)
    ensures DateBefore(a, c)
  {
  }

  // ---------------------------------------------------------------------------
  // Day arithmetic

  /** The date one day later (LocalDate.plusDays(1)). */
  function NextDay(d: Date): (r: Date)
    requires ValidDate(d)
    ensures ValidDate(r) && DateBefore(d, r)
  {
    if d.day < DaysInMonth(d.year, d.month) then Date(d.year, d.month, d.day + 1)
    else if d.month < 12 then Date(d.year, d.month + 1, 1)
    else Date(d.year + 1, 1, 1)
  }

  /** The date one day earlier (LocalDate.minusDays(1)). */
  function PrevDay(d: Date): (r: Date)
    requires ValidDate(d)
    ensures ValidDate(r) && DateBefore(r, d)
  {
    if d.day > 1 then Date(d.year, d.month, d.day - 1)
    else if d.month > 1 then Date(d.year, d.month - 1, DaysInMonth(d.year, d.month - 1))
    else Date(d.year - 1, 12, 31)
  }

  /** LocalDate.plusDays(n) for n >= 0, one calendar day at a time. */
  function PlusDays(d: Date, n: nat): (r: Date)
    requires ValidDate(d)
    ensures ValidDate(r)
    decreases n
  {
    if n == 0 then d else PlusDays(NextDay(d), n - 1)
  }

  /** LocalDate.plusDays(n) for any n. */
  function ShiftDays(d: Date, n: int): (r: Date)
    requires ValidDate(d)
    ensures ValidDate(r)
    decreases if n < 0 then -n else n
  {
    if n == 0 then d
    else if n > 0 then ShiftDays(NextDay(d), n - 1)
    else ShiftDays(PrevDay(d), n + 1)
  }

  /** Clamps `desired` into 1..last, as Math.min(Math.max(desired, 1), last). */
  function Clamp(desired: int, last: int): int {
    if desired < 1 then (if 1 < last then 1 else last)
    else if desired < last then desired else last
  }

  /** A day in range is kept; one below 1 becomes 1, one past the month's end its last day. */
  lemma ClampRange(desired: int, last: int)
    requires last >= 1
    ensures 1 <= Clamp(desired, last) <= last
    ensures 1 <= desired <= last ==> Clamp(desired, last) == desired
    ensures desired < 1 ==> Clamp(desired, last) == 1
    ensures desired > last ==> Clamp(desired, last) == last
  {
  }

  /** LocalDate.plusMonths(1): next month, day clamped to that month's length. */
  function PlusOneMonth(d: Date): (r: Date)
    requires ValidDate(d)
    ensures ValidDate(r) && DateBefore(d, r)
    ensures MonthIndex(r) == MonthIndex(d) + 1
    ensures r.day == (if d.day < DaysInMonth(r.year, r.month) then d.day else DaysInMonth(r.year, r.month))
  {
    var y := if d.month < 12 then d.year else d.year + 1;
    var m := if d.month < 12 then d.month + 1 else 1;
    Date(y, m, Clamp(d.day, DaysInMonth(y, m)))
  }

  /** LocalDate.plusYears(1): same month next year, 29 February becoming the 28th. */
  function PlusOneYear(d: Date): (r: Date)
    requires ValidDate(d)
    ensures ValidDate(r) && DateBefore(d, r)
    ensures r.year == d.year + 1 && r.month == d.month
  {
    Date(d.year + 1, d.month, Clamp(d.day, DaysInMonth(d.year + 1, d.month)))
  }

  /** The month's position on a single count: year * 12 + (month - 1). */
  function MonthIndex(d: Date): int {
    d.year * 12 + (d.month - 1)
  }

  /** A date in a later month is a later date. */
  lemma MonthIndexBefore(a: Date, b: Date)
    requires 1 <= a.month <= 12 && 1 <= b.month <= 12 && MonthIndex(a) < MonthIndex(b)
    ensures DateBefore(a, b)
  {
  }

  /** LocalDateTime.plusHours(h): the clock's minute, second and nano are kept. */
  function PlusHours(dt: DateTime, h: int): (r: DateTime)
    requires ValidDateTime(dt)
    ensures ValidDateTime(r)
    ensures r.time.minute == dt.time.minute && r.time.second == dt.time.second && r.time.nano == dt.time.nano
    ensures ToEpochDay(r.date) * 24 + r.time.hour == ToEpochDay(dt.date) * 24 + dt.time.hour + h
  {
    var total := dt.time.hour + h;
    EpochDayOfShiftDays(dt.date, total / 24);
    DateTime(ShiftDays(dt.date, total / 24), dt.time.(hour := total % 24))
  }

  // ---------------------------------------------------------------------------
  // Epoch day and the day of the week

  /** Days from 0001-01-01 to the first of January of `year`, proleptic Gregorian. */
  function DaysBeforeYear(year: int): int {
    var p := year - 1;
    365 * p + p / 4 - p / 100 + p / 400
  }

  /** Days from the first of January to the first of `month`. */
  function DaysBeforeMonth(year: int, month: int): int
    requires 1 <= month <= 12
  {
    var leap := if month > 2 && IsLeapYear(year) then 1 else 0;
    leap +
      (if month == 1 then 0 else if month == 2 then 31 else if month == 3 then 59
       else if month == 4 then 90 else if month == 5 then 120 else if month == 6 then 151
       else if month == 7 then 181 else if month == 8 then 212 else if month == 9 then 243
       else if month == 10 then 273 else if month == 11 then 304 else 334)
  }

  /** 1970-01-01 is day 719162 counted from 0001-01-01. */
  const EpochOffset := 719162

  /** LocalDate.toEpochDay(): 1970-01-01 is 0. */
  function ToEpochDay(d: Date): int
    requires ValidDate(d)
  {
    DaysBeforeYear(d.year) + DaysBeforeMonth(d.year, d.month) + d.day - 1 - EpochOffset
  }

  /** The number of days from `a` to `b`, negative when `b` comes first. */
  function DaysBetween(a: Date, b: Date): int
    requires ValidDate(a) && ValidDate(b)
  {
    ToEpochDay(b) - ToEpochDay(a)
  }

  /** LocalDate.getDayOfWeek(): 1970-01-01 was a Thursday. */
  function DayOfWeekOf(d: Date): DayOfWeek
    requires ValidDate(d)
  {
    DayOfWeekOfValue((ToEpochDay(d) + 3) % 7 + 1)
  }

  /** `d` falls on `dow`: DayOfWeekOf(d) == dow, compared through the ISO day numbers. */
  predicate FallsOn(d: Date, dow: DayOfWeek)
    requires ValidDate(d)
  {
    (ToEpochDay(d) + 3) % 7 + 1 == dow.Value()
  }

  lemma FallsOnIff(d: Date, dow: DayOfWeek)
    requires ValidDate(d)
    ensures FallsOn(d, dow) <==> DayOfWeekOf(d) == dow
  {
    ValueRoundTrip(dow);
  }

  /** Shifting by a whole number of weeks does not change the remainder modulo 7. */
  lemma ModSevenShift(a: int, n: int)
    ensures (a + n) % 7 == (a % 7 + n) % 7
  {
    var q := a / 7;
    assert a == 7 * q + a % 7;
    assert a + n == 7 * q + (a % 7 + n);
  }

  /** Stepping p to p + 1 moves p / k up by one exactly at multiples of k (k = 4, 100, 400). */
  lemma QuotientStep(p: int, k: int)
    requires k == 4 || k == 100 || k == 400
    ensures (p + 1) / k - p / k == if (p + 1) % k == 0 then 1 else 0
  {
    if k == 4 {
      var q := p / 4;
      assert p == 4 * q + p % 4;
    } else if k == 100 {
      var q := p / 100;
      assert p == 100 * q + p % 100;
    } else {
      var q := p / 400;
      assert p == 400 * q + p % 400;
    }
  }

  lemma YearLength(year: int)
    ensures DaysBeforeYear(year + 1) - DaysBeforeYear(year) == if IsLeapYear(year) then 366 else 365
  {
    var p := year - 1;
    QuotientStep(p, 4);
    QuotientStep(p, 100);
    QuotientStep(p, 400);
    assert p + 1 == year;
    Divisibility(year);
  }

  lemma Divisibility(year: int)
    ensures year % 400 == 0 ==> year % 100 == 0
    ensures year % 100 == 0 ==> year % 4 == 0
  {
    if year % 400 == 0 {
      var q := year / 400;
      assert year == 100 * (4 * q);
    }
    if year % 100 == 0 {
      var q := year / 100;
      assert year == 4 * (25 * q);
    }
  }

  /** One calendar day later is exactly one epoch day later. */
  lemma {:induction false} EpochDayOfNextDay(d: Date)
    requires ValidDate(d)
    ensures ToEpochDay(NextDay(d)) == ToEpochDay(d) + 1
  {
    if d.day == DaysInMonth(d.year, d.month) && d.month == 12 {
      YearLength(d.year);
    }
  }

  lemma {:induction false} EpochDayOfPlusDays(d: Date, n: nat)
    requires ValidDate(d)
    ensures ToEpochDay(PlusDays(d, n)) == ToEpochDay(d) + n
    decreases n
  {
    if n > 0 {
      var e := NextDay(d);
      var later := PlusDays(e, n - 1);
      assert PlusDays(d, n) == later;
      EpochDayOfNextDay(d);
      EpochDayOfPlusDays(e, n - 1);
    }
  }

  /** One calendar day earlier is exactly one epoch day earlier. */
  lemma EpochDayOfPrevDay(d: Date)
    requires ValidDate(d)
    ensures ToEpochDay(PrevDay(d)) == ToEpochDay(d) - 1
  {
    var p := PrevDay(d);
    assert NextDay(p) == d;
    EpochDayOfNextDay(p);
  }

  /** Shifting by n days, either way, moves the epoch day by n. */
  lemma {:induction false} EpochDayOfShiftDays(d: Date, n: int)
    requires ValidDate(d)
    ensures ToEpochDay(ShiftDays(d, n)) == ToEpochDay(d) + n
    decreases if n < 0 then -n else n
  {
    if n > 0 {
      EpochDayOfNextDay(d);
      EpochDayOfShiftDays(NextDay(d), n - 1);
    } else if n < 0 {
      EpochDayOfPrevDay(d);
      EpochDayOfShiftDays(PrevDay(d), n + 1);
    }
  }

  lemma {:induction false} PlusDaysLater(d: Date, n: nat)
    requires ValidDate(d) && n > 0
    ensures DateBefore(d, PlusDays(d, n))
    decreases n
  {
    if n > 1 {
      PlusDaysLater(NextDay(d), n - 1);
      DateBeforeTransitive(d, NextDay(d), PlusDays(d, n));
    }
  }

  lemma {:induction false} PlusDaysAdd(d: Date, m: nat, n: nat)
    requires ValidDate(d)
    ensures PlusDays(PlusDays(d, m), n) == PlusDays(d, m + n)
    decreases m
  {
    if m > 0 {
      PlusDaysAdd(NextDay(d), m - 1, n);
    }
  }

  /** The weekday moves forward by one each day, wrapping from Sunday to Monday. */
  lemma WeekdayAfter(d: Date, n: nat)
    requires ValidDate(d)
    ensures DayOfWeekOf(PlusDays(d, n)) == DayOfWeekOfValue((DayOfWeekOf(d).Value() - 1 + n) % 7 + 1)
  {
    var e := ToEpochDay(d);
    EpochDayOfPlusDays(d, n);
    ModSevenShift(e + 3, n);
    assert (e + n + 3) % 7 == (DayOfWeekOf(d).Value() - 1 + n) % 7;
  }

  /**
   * TemporalAdjusters.next(dow): the first date strictly after `d` that falls on `dow`,
   * computed as Java does from the difference of the two ISO day numbers.
   */
  function NextWeekday(d: Date, dow: DayOfWeek): (r: Date)
    requires ValidDate(d)
    ensures ValidDate(r)
  {
    PlusDays(d, WeekdayGap(d, dow))
  }

  /** The number of days TemporalAdjusters.next(dow) adds to `d`. */
  function WeekdayGap(d: Date, dow: DayOfWeek): nat
    requires ValidDate(d)
  {
    GapBetween(DayOfWeekOf(d), dow)
  }

  /** From the difference of the ISO day numbers: 7 - diff when diff >= 0, else -diff. */
  function GapBetween(from: DayOfWeek, to: DayOfWeek): nat {
    var daysDiff := from.Value() - to.Value();
    if daysDiff >= 0 then 7 - daysDiff else -daysDiff
  }

  /**
   * The adjusted date lies one to seven days ahead, falls on `dow`, and no day strictly
   * between the two falls on `dow`: the adjuster never returns `d` itself.
   */
  lemma NextWeekdayIsNearest(d: Date, dow: DayOfWeek)
    requires ValidDate(d)
    ensures 1 <= WeekdayGap(d, dow) <= 7
    ensures ToEpochDay(NextWeekday(d, dow)) == ToEpochDay(d) + WeekdayGap(d, dow)
    ensures DateBefore(d, NextWeekday(d, dow))
    ensures DayOfWeekOf(NextWeekday(d, dow)) == dow
    ensures forall k: nat :: 1 <= k < WeekdayGap(d, dow) ==> DayOfWeekOf(PlusDays(d, k)) != dow
  {
    var n := WeekdayGap(d, dow);
    GapArithmetic(DayOfWeekOf(d).Value(), dow.Value(), n);
    GapLandsOnWeekday(d, dow);
    EpochDayOfPlusDays(d, n);
    PlusDaysLater(d, n);
    forall k: nat | 1 <= k < n
      ensures DayOfWeekOf(PlusDays(d, k)) != dow
    {
      GapSkipsWeekday(d, dow, k);
    }
  }

  lemma GapLandsOnWeekday(d: Date, dow: DayOfWeek)
    requires ValidDate(d)
    ensures DayOfWeekOf(PlusDays(d, WeekdayGap(d, dow))) == dow
  {
    WeekdayAfter(d, WeekdayGap(d, dow));
    GapFromDateReachesWeekday(d, dow);
  }

  lemma GapFromDateReachesWeekday(d: Date, dow: DayOfWeek)
    requires ValidDate(d)
    ensures DayOfWeekOfValue((DayOfWeekOf(d).Value() - 1 + WeekdayGap(d, dow)) % 7 + 1) == dow
  {
    GapReachesWeekday(DayOfWeekOf(d), dow);
  }

  /** Counting GapBetween(from, to) days on from weekday `from` reaches weekday `to`. */
  lemma GapReachesWeekday(from: DayOfWeek, to: DayOfWeek)
    ensures DayOfWeekOfValue((from.Value() - 1 + GapBetween(from, to)) % 7 + 1) == to
  {
    GapArithmetic(from.Value(), to.Value(), GapBetween(from, to));
    ValueRoundTrip(to);
  }

  lemma GapSkipsWeekday(d: Date, dow: DayOfWeek, k: nat)
    requires ValidDate(d) && 1 <= k < WeekdayGap(d, dow)
    ensures DayOfWeekOf(PlusDays(d, k)) != dow
  {
    WeekdayAfter(d, k);
    GapArithmetic(DayOfWeekOf(d).Value(), dow.Value(), k);
  }

  lemma ValueRoundTrip(dow: DayOfWeek)
    ensures DayOfWeekOfValue(dow.Value()) == dow
  {
  }

  /** Day arithmetic behind WeekdayGap: `gap` days after weekday v0 is weekday t, no earlier day is. */
  lemma GapArithmetic(v0: int, t: int, k: int)
    requires 1 <= v0 <= 7 && 1 <= t <= 7 && k >= 1
    ensures var gap := if v0 - t >= 0 then 7 - (v0 - t) else t - v0;
      (k == gap ==> (v0 - 1 + k) % 7 + 1 == t) &&
      (k < gap ==> (v0 - 1 + k) % 7 + 1 != t)
  {
  }

}
