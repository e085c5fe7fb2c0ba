/**
 * What DefaultOccurrenceGenerator.generate promises about the list it returns, proved
 * about `Occurrences` (and so, through `Generate`'s postcondition, about the loop).
 */
module GeneratorProperties {
  import opened Wrappers
  import opened Calendar
  import opened Pattern
  import opened Generator

  /** The pattern fires at `t`: one of its times, on a date it selects. */
  predicate Fires(p: RecurrencePattern, t: DateTime)
    requires WellFormed(p)
  {
    ValidDate(t.date) && t.time in p.times && ShouldGenerate(p, t)
  }

  // ---------------------------------------------------------------------------
  // Soundness: what every returned occurrence satisfies

  /** An admitted candidate of a date is a firing of the pattern inside the window. */
  lemma AdmittedFire(p: RecurrencePattern, current: DateTime, from: DateTime, to: DateTime, planEnd: Option<DateTime>)
    requires WellFormed(p) && ValidDate(current.date)
    ensures forall t :: t in Admitted(OccurrencesForDate(p, current), from, to, planEnd) ==>
      t.date == current.date && IsWithinWindow(t, from, to, planEnd) && Fires(p, t)
  {
    var daily := OccurrencesForDate(p, current);
    forall t | t in Admitted(daily, from, to, planEnd)
      ensures t.date == current.date && IsWithinWindow(t, from, to, planEnd) && Fires(p, t)
    {
      var i :| 0 <= i < |daily| && daily[i] == t;
      assert t.time == p.times[i];
    }
  }

  /** The admitted candidates of a date lie on that date. */
  lemma AdmittedOnDate(p: RecurrencePattern, current: DateTime, from: DateTime, to: DateTime, planEnd: Option<DateTime>)
    requires WellFormed(p) && ValidDate(current.date)
    ensures forall t :: t in Admitted(OccurrencesForDate(p, current), from, to, planEnd) ==> t.date == current.date
  {
    var daily := OccurrencesForDate(p, current);
    forall t | t in Admitted(daily, from, to, planEnd)
      ensures t.date == current.date
    {
      var i :| 0 <= i < |daily| && daily[i] == t;
    }
  }

  /** Whatever the loop adds from a state on fires inside the window. */
  lemma {:induction false} SweepFires(p: RecurrencePattern, from: DateTime, to: DateTime, planEnd: Option<DateTime>,
                                      occurrences: seq<DateTime>, current: DateTime, iterations: nat)
    requires WellFormed(p) && ValidDate(current.date)
    ensures forall t :: t in Sweep(p, from, to, planEnd, occurrences, current, iterations) ==>
      t in occurrences || (IsWithinWindow(t, from, to, planEnd) && Fires(p, t))
    decreases MaxIterations - iterations
  {
    if IsBefore(current, to) && iterations < MaxIterations {
      var chunk := Admitted(OccurrencesForDate(p, current), from, to, planEnd);
      AdmittedFire(p, current, from, to, planEnd);
      SweepFires(p, from, to, planEnd, occurrences + chunk, NextCalculationDate(p, current), iterations + 1);
    }
  }

  /** Every occurrence of a repeating pattern is a firing inside the window. */
  lemma RepeatingFires(p: RecurrencePattern, from: DateTime, to: DateTime,
                       planStart: Option<DateTime>, planEnd: Option<DateTime>)
    requires Arguments(p, from, to, planStart, planEnd) && p.kind != ONCE
    ensures forall t :: t in Occurrences(p, from, to, planStart, planEnd) ==>
      IsWithinWindow(t, from, to, planEnd) && Fires(p, t)
  {
    SweepFires(p, from, to, planEnd, [], FirstCalculationDate(p, from), 0);
  }

  /**
   * ONCE examines no date: the result is the plan's start date at the first time when
   * that lies inside the window, and nothing otherwise.
   */
  lemma OnceOccurrences(p: RecurrencePattern, from: DateTime, to: DateTime,
                        planStart: Option<DateTime>, planEnd: Option<DateTime>)
    requires Arguments(p, from, to, planStart, planEnd) && p.kind == ONCE
    ensures var r := Occurrences(p, from, to, planStart, planEnd);
      var once := DateTime(planStart.value.date, p.times[0]);
      (r == [] || r == [once]) &&
      (r == [once] <==>
        !IsBefore(once, from) && IsBefore(once, to) && (planEnd.Some? ==> !IsBefore(planEnd.value, once)))
  {
    var once := DateTime(planStart.value.date, p.times[0]);
    WithinWindowIff(once, from, to, planEnd);
  }

  /**
   * The window is half-open and the plan's end inclusive: every occurrence t has
   * from <= t < to and t <= planEnd; it is a valid date-time at one of the pattern's times.
   */
  lemma OccurrencesInWindow(p: RecurrencePattern, from: DateTime, to: DateTime,
                            planStart: Option<DateTime>, planEnd: Option<DateTime>)
    requires Arguments(p, from, to, planStart, planEnd)
    ensures forall t :: t in Occurrences(p, from, to, planStart, planEnd) ==>
      !IsBefore(t, from) && IsBefore(t, to) && (planEnd.Some? ==> !IsBefore(planEnd.value, t)) &&
      ValidDateTime(t) && t.time in p.times
  {
    var r := Occurrences(p, from, to, planStart, planEnd);
    if p.kind == ONCE {
      OnceOccurrences(p, from, to, planStart, planEnd);
    } else {
      RepeatingFires(p, from, to, planStart, planEnd);
    }
    forall t | t in r
      ensures !IsBefore(t, from) && IsBefore(t, to) && (planEnd.Some? ==> !IsBefore(planEnd.value, t))
    {
      WithinWindowIff(t, from, to, planEnd);
    }
  }

  /** A WEEKLY pattern fires only on its weekday. */
  lemma WeeklyOnWeekday(p: RecurrencePattern, from: DateTime, to: DateTime,
                        planStart: Option<DateTime>, planEnd: Option<DateTime>)
    requires Arguments(p, from, to, planStart, planEnd) && p.kind == WEEKLY
    ensures forall t :: t in Occurrences(p, from, to, planStart, planEnd) ==>
      ValidDate(t.date) && DayOfWeekOf(t.date) == p.dayOfWeek.value
  {
    RepeatingFires(p, from, to, planStart, planEnd);
    forall t | t in Occurrences(p, from, to, planStart, planEnd)
      ensures ValidDate(t.date) && DayOfWeekOf(t.date) == p.dayOfWeek.value
    {
      FallsOnIff(t.date, p.dayOfWeek.value);
    }
  }

  /**
   * A MONTHLY pattern fires on its day of the month, moved to the month's last day in a
   * shorter month and to the first for a day below 1.
   */
  lemma MonthlyOnDay(p: RecurrencePattern, from: DateTime, to: DateTime,
                     planStart: Option<DateTime>, planEnd: Option<DateTime>)
    requires Arguments(p, from, to, planStart, planEnd) && p.kind == MONTHLY
    ensures forall t :: t in Occurrences(p, from, to, planStart, planEnd) ==>
      ValidDate(t.date) &&
      var dom := p.dayOfMonth.value;
      var last := DaysInMonth(t.date.year, t.date.month);
      (1 <= dom <= last ==> t.date.day == dom) &&
      (dom > last ==> t.date.day == last) &&
      (dom < 1 ==> t.date.day == 1)
  {
    RepeatingFires(p, from, to, planStart, planEnd);
    forall t | t in Occurrences(p, from, to, planStart, planEnd)
      ensures ValidDate(t.date)
      ensures var dom := p.dayOfMonth.value;
        var last := DaysInMonth(t.date.year, t.date.month);
        (1 <= dom <= last ==> t.date.day == dom) &&
        (dom > last ==> t.date.day == last) &&
        (dom < 1 ==> t.date.day == 1)
    {
      ClampRange(p.dayOfMonth.value, DaysInMonth(t.date.year, t.date.month));
    }
  }

  // ---------------------------------------------------------------------------
  // Size and order

  /** Each examined date adds at most one occurrence per pattern time. */
  lemma {:induction false} SweepLength(p: RecurrencePattern, from: DateTime, to: DateTime, planEnd: Option<DateTime>,
                                       occurrences: seq<DateTime>, current: DateTime, iterations: nat)
    requires WellFormed(p) && ValidDate(current.date) && iterations <= MaxIterations
    ensures |Sweep(p, from, to, planEnd, occurrences, current, iterations)| <=
      |occurrences| + (MaxIterations - iterations) * |p.times|
    decreases MaxIterations - iterations
  {
    if IsBefore(current, to) && iterations < MaxIterations {
      var chunk := Admitted(OccurrencesForDate(p, current), from, to, planEnd);
      SweepLength(p, from, to, planEnd, occurrences + chunk, NextCalculationDate(p, current), iterations + 1);
      assert (MaxIterations - iterations) * |p.times| == (MaxIterations - (iterations + 1)) * |p.times| + |p.times|;
    }
  }

  /** At most MaxIterations dates are examined, so at most MaxIterations * |times| occurrences. */
  lemma OccurrencesBound(p: RecurrencePattern, from: DateTime, to: DateTime,
                         planStart: Option<DateTime>, planEnd: Option<DateTime>)
    requires Arguments(p, from, to, planStart, planEnd)
    ensures |Occurrences(p, from, to, planStart, planEnd)| <= MaxIterations * |p.times|
  {
    if p.kind != ONCE {
      SweepLength(p, from, to, planEnd, [], FirstCalculationDate(p, from), 0);
    }
  }

  /** No occurrence lies on a later date than one after it. */
  predicate DatesInOrder(s: seq<DateTime>) {
    forall i, j :: 0 <= i < j < |s| ==> !DateBefore(s[j].date, s[i].date)
  }

  /** No occurrence lies on a date after `d`. */
  predicate NotAfter(s: seq<DateTime>, d: Date) {
    forall t :: t in s ==> !DateBefore(d, t.date)
  }

  /** Appending the occurrences of the date `d` keeps the dates in order. */
  lemma AppendInOrder(a: seq<DateTime>, b: seq<DateTime>, d: Date)
    requires DatesInOrder(a) && NotAfter(a, d)
    requires forall t :: t in b ==> t.date == d
    ensures DatesInOrder(a + b) && NotAfter(a + b, d)
  {
    var s := a + b;
    forall i, j | 0 <= i < j < |s|
      ensures !DateBefore(s[j].date, s[i].date)
    {
      if j < |a| {
        assert s[i] == a[i] && s[j] == a[j];
      } else if i < |a| {
        assert s[i] in a && s[j] in b;
      } else {
        assert s[i] in b && s[j] in b;
      }
    }
    assert forall t :: t in s ==> t in a || t in b;
  }

  /** Nothing on or before `d` lies after a later date. */
  lemma NotAfterLater(s: seq<DateTime>, d: Date, e: Date)
    requires NotAfter(s, d) && DateBefore(d, e)
    ensures NotAfter(s, e)
  {
    forall t | t in s
      ensures !DateBefore(e, t.date)
    {
      if DateBefore(e, t.date) {
        DateBeforeTransitive(d, e, t.date);
      }
    }
  }

  lemma {:induction false} SweepInOrder(p: RecurrencePattern, from: DateTime, to: DateTime, planEnd: Option<DateTime>,
                                        occurrences: seq<DateTime>, current: DateTime, iterations: nat)
    requires WellFormed(p) && ValidDate(current.date)
    requires DatesInOrder(occurrences) && NotAfter(occurrences, current.date)
    ensures DatesInOrder(Sweep(p, from, to, planEnd, occurrences, current, iterations))
    decreases MaxIterations - iterations
  {
    if IsBefore(current, to) && iterations < MaxIterations {
      var chunk := Admitted(OccurrencesForDate(p, current), from, to, planEnd);
      var next := NextCalculationDate(p, current);
      SweepUnfold(p, from, to, planEnd, occurrences, current, iterations);
      assert DatesInOrder(occurrences + chunk) && NotAfter(occurrences + chunk, next.date) by {
        AdmittedOnDate(p, current, from, to, planEnd);
        AppendInOrder(occurrences, chunk, current.date);
        NotAfterLater(occurrences + chunk, current.date, next.date);
      }
      SweepInOrder(p, from, to, planEnd, occurrences + chunk, next, iterations + 1);
    }
  }

  /**
   * Two occurrences on the same date carry pattern times in the order the pattern lists
   * them.
   */
  predicate TimesInOrder(p: RecurrencePattern, s: seq<DateTime>) {
    forall i, j :: 0 <= i < j < |s| && s[i].date == s[j].date ==> TimesListed(s[i].time, s[j].time, p.times)
  }

  /** `x` and `y` are times of the list, `x` at an earlier position. */
  predicate TimesListed(x: LocalTime, y: LocalTime, times: seq<LocalTime>) {
    exists a, b :: 0 <= a < b < |times| && x == times[a] && y == times[b]
  }

  /** Every occurrence lies on a date strictly before `d`. */
  predicate AllBefore(s: seq<DateTime>, d: Date) {
    forall t :: t in s ==> DateBefore(t.date, d)
  }

  /** The admitted candidates of one date keep the order of the pattern's times. */
  lemma ChunkTimesInOrder(p: RecurrencePattern, current: DateTime, from: DateTime, to: DateTime, planEnd: Option<DateTime>)
    requires WellFormed(p) && ValidDate(current.date)
    ensures TimesInOrder(p, Admitted(OccurrencesForDate(p, current), from, to, planEnd))
  {
    var daily := OccurrencesForDate(p, current);
    var chunk := Admitted(daily, from, to, planEnd);
    AdmittedKeepsOrder(daily, from, to, planEnd);
    forall i, j | 0 <= i < j < |chunk| && chunk[i].date == chunk[j].date
      ensures TimesListed(chunk[i].time, chunk[j].time, p.times)
    {
      assert InOrderIn(chunk[i], chunk[j], daily);
      var a, b :| 0 <= a < b < |daily| && chunk[i] == daily[a] && chunk[j] == daily[b];
      assert chunk[i].time == p.times[a] && chunk[j].time == p.times[b];
    }
  }

  /** Appending one date's occurrences after strictly earlier ones keeps the times in order. */
  lemma AppendTimesInOrder(p: RecurrencePattern, a: seq<DateTime>, b: seq<DateTime>, d: Date)
    requires TimesInOrder(p, a) && AllBefore(a, d) && TimesInOrder(p, b)
    requires forall t :: t in b ==> t.date == d
    ensures TimesInOrder(p, a + b)
  {
    var s := a + b;
    forall i, j | 0 <= i < j < |s| && s[i].date == s[j].date
      ensures TimesListed(s[i].time, s[j].time, p.times)
    {
      if j < |a| {
        assert s[i] == a[i] && s[j] == a[j];
      } else if i < |a| {
        assert false;
      } else {
        assert s[i] == b[i - |a|] && s[j] == b[j - |a|];
      }
    }
  }

  lemma {:induction false} SweepTimesInOrder(p: RecurrencePattern, from: DateTime, to: DateTime, planEnd: Option<DateTime>,
                                             occurrences: seq<DateTime>, current: DateTime, iterations: nat)
    requires WellFormed(p) && ValidDate(current.date)
    requires TimesInOrder(p, occurrences) && AllBefore(occurrences, current.date)
    ensures TimesInOrder(p, Sweep(p, from, to, planEnd, occurrences, current, iterations))
    decreases MaxIterations - iterations
  {
    if IsBefore(current, to) && iterations < MaxIterations {
      var chunk := Admitted(OccurrencesForDate(p, current), from, to, planEnd);
      var next := NextCalculationDate(p, current);
      SweepUnfold(p, from, to, planEnd, occurrences, current, iterations);
      AdmittedOnDate(p, current, from, to, planEnd);
      ChunkTimesInOrder(p, current, from, to, planEnd);
      AppendTimesInOrder(p, occurrences, chunk, current.date);
      forall t | t in occurrences + chunk
        ensures DateBefore(t.date, next.date)
      {
        if t in occurrences {
          DateBeforeTransitive(t.date, current.date, next.date);
        }
      }
      SweepTimesInOrder(p, from, to, planEnd, occurrences + chunk, next, iterations + 1);
    }
  }

  /**
   * The occurrences come date by date, in increasing date order, and within one date in
   * the order of the pattern's times.
   */
  lemma OccurrencesInOrder(p: RecurrencePattern, from: DateTime, to: DateTime,
                           planStart: Option<DateTime>, planEnd: Option<DateTime>)
    requires Arguments(p, from, to, planStart, planEnd)
    ensures DatesInOrder(Occurrences(p, from, to, planStart, planEnd))
    ensures TimesInOrder(p, Occurrences(p, from, to, planStart, planEnd))
  {
    if p.kind != ONCE {
      SweepInOrder(p, from, to, planEnd, [], FirstCalculationDate(p, from), 0);
      SweepTimesInOrder(p, from, to, planEnd, [], FirstCalculationDate(p, from), 0);
    }
  }

  // ---------------------------------------------------------------------------
  // The step from one examined date to the next

  /** DAILY examines the following day. */
  lemma DailyStep(p: RecurrencePattern, current: DateTime)
    requires WellFormed(p) && ValidDate(current.date) && p.kind == DAILY
    ensures NextCalculationDate(p, current) == DateTime(NextDay(current.date), current.time)
  {
  }

  /**
   * WEEKLY moves one to seven days forward, onto the pattern's weekday, skipping no day
   * that falls on it.
   */
  lemma WeeklyStep(p: RecurrencePattern, current: DateTime)
    requires WellFormed(p) && ValidDate(current.date) && p.kind == WEEKLY
    ensures var next := NextCalculationDate(p, current);
      var gap := WeekdayGap(current.date, p.dayOfWeek.value);
      1 <= gap <= 7 && next == DateTime(PlusDays(current.date, gap), current.time) &&
      ValidDate(next.date) && DayOfWeekOf(next.date) == p.dayOfWeek.value &&
      forall k: nat :: 1 <= k < gap ==> DayOfWeekOf(PlusDays(current.date, k)) != p.dayOfWeek.value
  {
    NextWeekdayIsNearest(current.date, p.dayOfWeek.value);
  }

  /**
   * MONTHLY moves to the following month, on the pattern's day clamped to that month's
   * length, whatever day the current date had been clamped to.
   */
  lemma MonthlyStep(p: RecurrencePattern, current: DateTime)
    requires WellFormed(p) && ValidDate(current.date) && p.kind == MONTHLY
    ensures var next := NextCalculationDate(p, current);
      MonthIndex(next.date) == MonthIndex(current.date) + 1 &&
      next.date.day == Clamp(p.dayOfMonth.value, DaysInMonth(next.date.year, next.date.month))
  {
  }

  // ---------------------------------------------------------------------------
  // DAILY, exactly

  /** A state's candidates are still in the final list once they are collected. */
  lemma {:induction false} SweepKeeps(p: RecurrencePattern, from: DateTime, to: DateTime, planEnd: Option<DateTime>,
                                      occurrences: seq<DateTime>, current: DateTime, iterations: nat)
    requires WellFormed(p) && ValidDate(current.date)
    ensures forall t :: t in occurrences ==> t in Sweep(p, from, to, planEnd, occurrences, current, iterations)
    decreases MaxIterations - iterations
  {
    if IsBefore(current, to) && iterations < MaxIterations {
      var chunk := Admitted(OccurrencesForDate(p, current), from, to, planEnd);
      SweepKeeps(p, from, to, planEnd, occurrences + chunk, NextCalculationDate(p, current), iterations + 1);
    }
  }

  /** The window filter keeps every candidate inside the window. */
  lemma {:induction false} AdmittedKeeps(candidates: seq<DateTime>, t: DateTime,
                                         from: DateTime, to: DateTime, planEnd: Option<DateTime>)
    requires t in candidates && IsWithinWindow(t, from, to, planEnd)
    ensures t in Admitted(candidates, from, to, planEnd)
    decreases |candidates|
  {
    var last := candidates[|candidates| - 1];
    if t != last {
      var init := candidates[..|candidates| - 1];
      assert candidates == init + [last];
      AdmittedKeeps(init, t, from, to, planEnd);
    }
  }

  /** A date strictly before a date-time's date makes any date-time on it earlier. */
  lemma EarlierDate(a: DateTime, b: DateTime, c: DateTime)
    requires DateBefore(a.date, b.date) && IsBefore(b, c)
    ensures IsBefore(a, c)
  {
    if DateBefore(b.date, c.date) {
      DateBeforeTransitive(a.date, b.date, c.date);
    }
  }

  /** While the guard holds, the loop collects the current date's admitted candidates and moves on. */
  lemma SweepUnfold(p: RecurrencePattern, from: DateTime, to: DateTime, planEnd: Option<DateTime>,
                    occurrences: seq<DateTime>, current: DateTime, iterations: nat)
    requires WellFormed(p) && ValidDate(current.date)
    requires IsBefore(current, to) && iterations < MaxIterations
    ensures Sweep(p, from, to, planEnd, occurrences, current, iterations) ==
      Sweep(p, from, to, planEnd, occurrences + Admitted(OccurrencesForDate(p, current), from, to, planEnd),
            NextCalculationDate(p, current), iterations + 1)
  {
  }

  /** A firing inside the window on a date the loop examines ends up in the result. */
  lemma CollectedOnCurrent(p: RecurrencePattern, from: DateTime, to: DateTime, planEnd: Option<DateTime>,
                           occurrences: seq<DateTime>, current: DateTime, iterations: nat, i: int)
    requires WellFormed(p) && ValidDate(current.date)
    requires IsBefore(current, to) && iterations < MaxIterations
    requires 0 <= i < |p.times| && ShouldGenerate(p, current)
    requires IsWithinWindow(DateTime(current.date, p.times[i]), from, to, planEnd)
    ensures DateTime(current.date, p.times[i]) in Sweep(p, from, to, planEnd, occurrences, current, iterations)
  {
    var daily := OccurrencesForDate(p, current);
    var chunk := Admitted(daily, from, to, planEnd);
    var target := DateTime(current.date, p.times[i]);
    assert daily[i] == target;
    AdmittedKeeps(daily, target, from, to, planEnd);
    assert target in occurrences + chunk;
    SweepUnfold(p, from, to, planEnd, occurrences, current, iterations);
    SweepKeeps(p, from, to, planEnd, occurrences + chunk, NextCalculationDate(p, current), iterations + 1);
  }

  lemma {:induction false} DailySweepComplete(p: RecurrencePattern, from: DateTime, to: DateTime, planEnd: Option<DateTime>,
                                              occurrences: seq<DateTime>, current: DateTime, iterations: nat,
                                              k: nat, i: int)
    requires WellFormed(p) && ValidDate(current.date) && p.kind == DAILY
    requires iterations + k < MaxIterations && 0 <= i < |p.times|
    requires IsBefore(DateTime(PlusDays(current.date, k), current.time), to)
    requires IsWithinWindow(DateTime(PlusDays(current.date, k), p.times[i]), from, to, planEnd)
    ensures DateTime(PlusDays(current.date, k), p.times[i]) in Sweep(p, from, to, planEnd, occurrences, current, iterations)
    decreases k
  {
    if k == 0 {
      CollectedOnCurrent(p, from, to, planEnd, occurrences, current, iterations, i);
    } else {
      var chunk := Admitted(OccurrencesForDate(p, current), from, to, planEnd);
      var next := DateTime(NextDay(current.date), current.time);
      assert IsBefore(current, to) by {
        PlusDaysLater(current.date, k);
        EarlierDate(current, DateTime(PlusDays(current.date, k), current.time), to);
      }
      SweepUnfold(p, from, to, planEnd, occurrences, current, iterations);
      DailyStep(p, current);
      assert PlusDays(current.date, k) == PlusDays(next.date, k - 1);
      DailySweepComplete(p, from, to, planEnd, occurrences + chunk, next, iterations + 1, k - 1, i);
    }
  }

  /**
   * `d` is one of the first `steps` days from `start`'s date on, and that day at `start`'s
   * clock time is before `to`.
   */
  predicate DayReached(start: DateTime, to: DateTime, d: Date, steps: int)
    requires ValidDate(start.date)
  {
    ValidDate(d) && 0 <= DaysBetween(start.date, d) < steps &&
    d == PlusDays(start.date, DaysBetween(start.date, d)) && IsBefore(DateTime(d, start.time), to)
  }

  /** A date `k` days after the next day is `k + 1` days after the day itself. */
  lemma DayAfterShift(d: Date, e: Date, k: nat)
    requires ValidDate(d) && ValidDate(e)
    requires k == DaysBetween(NextDay(d), e) && e == PlusDays(NextDay(d), k)
    ensures DaysBetween(d, e) == k + 1 && e == PlusDays(d, k + 1)
  {
    EpochDayOfNextDay(d);
  }

  /** The current date, or a day reached from the next day, is a day reached from the current one. */
  lemma ReachedFromNext(current: DateTime, to: DateTime, d: Date, steps: int)
    requires ValidDate(current.date) && IsBefore(current, to) && steps >= 1
    requires d == current.date || DayReached(DateTime(NextDay(current.date), current.time), to, d, steps - 1)
    ensures DayReached(current, to, d, steps)
  {
    var next := NextDay(current.date);
    if d != current.date {
      DayAfterShift(current.date, d, DaysBetween(next, d));
    }
  }

  lemma {:induction false} DailySweepSound(p: RecurrencePattern, from: DateTime, to: DateTime, planEnd: Option<DateTime>,
                                           occurrences: seq<DateTime>, current: DateTime, iterations: nat)
    requires WellFormed(p) && ValidDate(current.date) && p.kind == DAILY && iterations <= MaxIterations
    ensures forall t :: t in Sweep(p, from, to, planEnd, occurrences, current, iterations) ==>
      t in occurrences || DayReached(current, to, t.date, MaxIterations - iterations)
    decreases MaxIterations - iterations
  {
    if IsBefore(current, to) && iterations < MaxIterations {
      var chunk := Admitted(OccurrencesForDate(p, current), from, to, planEnd);
      var next := DateTime(NextDay(current.date), current.time);
      SweepUnfold(p, from, to, planEnd, occurrences, current, iterations);
      DailyStep(p, current);
      AdmittedFire(p, current, from, to, planEnd);
      DailySweepSound(p, from, to, planEnd, occurrences + chunk, next, iterations + 1);
      forall t | t in Sweep(p, from, to, planEnd, occurrences, current, iterations) && t !in occurrences
        ensures DayReached(current, to, t.date, MaxIterations - iterations)
      {
        assert t in chunk || DayReached(next, to, t.date, MaxIterations - (iterations + 1));
        ReachedFromNext(current, to, t.date, MaxIterations - iterations);
      }
    }
  }

  /** Being a DAILY iteration date: `from`'s date or one of the days after it that the loop reaches. */
  predicate DailyDate(from: DateTime, to: DateTime, d: Date)
    requires ValidDate(from.date)
  {
    DayReached(from, to, d, MaxIterations)
  }

  /** Every DAILY occurrence lies on an iteration date, at a pattern time, inside the window. */
  lemma DailySound(p: RecurrencePattern, from: DateTime, to: DateTime,
                   planStart: Option<DateTime>, planEnd: Option<DateTime>)
    requires Arguments(p, from, to, planStart, planEnd) && p.kind == DAILY
    ensures forall t :: t in Occurrences(p, from, to, planStart, planEnd) ==>
      DailyDate(from, to, t.date) && t.time in p.times && IsWithinWindow(t, from, to, planEnd)
  {
    var r := Occurrences(p, from, to, planStart, planEnd);
    assert r == Sweep(p, from, to, planEnd, [], from, 0);
    RepeatingFires(p, from, to, planStart, planEnd);
    DailySweepSound(p, from, to, planEnd, [], from, 0);
    forall t | t in r
      ensures DailyDate(from, to, t.date)
    {
      assert t !in [];
    }
  }

  /**
   * Every pattern time on every DAILY iteration date is an occurrence when it lies inside
   * the window: with DailySound, the occurrences are exactly these date-times.
   */
  lemma DailyComplete(p: RecurrencePattern, from: DateTime, to: DateTime,
                      planStart: Option<DateTime>, planEnd: Option<DateTime>, t: DateTime)
    requires Arguments(p, from, to, planStart, planEnd) && p.kind == DAILY
    requires DailyDate(from, to, t.date) && t.time in p.times && IsWithinWindow(t, from, to, planEnd)
    ensures t in Occurrences(p, from, to, planStart, planEnd)
  {
    assert Occurrences(p, from, to, planStart, planEnd) == Sweep(p, from, to, planEnd, [], from, 0);
    var k := DaysBetween(from.date, t.date);
    var i :| 0 <= i < |p.times| && p.times[i] == t.time;
    assert t == DateTime(PlusDays(from.date, k), p.times[i]);
    DailySweepComplete(p, from, to, planEnd, [], from, 0, k, i);
  }
}
