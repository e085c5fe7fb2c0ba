/** The generator on windows like the ones its unit tests use. */
module GeneratorExamples {
  import opened Wrappers
  import opened Calendar
  import opened Pattern
  import opened Generator
  import opened GeneratorProperties

  function At(date: Date, hour: int, minute: int): DateTime {
    DateTime(date, LocalTime(hour, minute, 0, 0))
  }

  /** The DAILY pattern of the unit test: 08:00 and 16:00. */
  function TwiceDaily(): RecurrencePattern {
    Daily([LocalTime(8, 0, 0, 0), LocalTime(16, 0, 0, 0)])
  }

  /** Both times of a day from `from`'s date on and before `end` are admitted, and the loop goes on to the next day. */
  lemma TwiceDailyStep(d: Date, from: DateTime, end: Date, occurrences: seq<DateTime>, iterations: nat)
    requires ValidDate(d) && ValidDate(end) && DateBefore(d, end) && iterations < MaxIterations
    requires from.time == LocalTime(0, 0, 0, 0) && (from.date == d || DateBefore(from.date, d))
    ensures Sweep(TwiceDaily(), from, At(end, 0, 0), None, occurrences, At(d, 0, 0), iterations) ==
      Sweep(TwiceDaily(), from, At(end, 0, 0), None, occurrences + [At(d, 8, 0), At(d, 16, 0)],
            At(NextDay(d), 0, 0), iterations + 1)
  {
    var p := TwiceDaily();
    var to := At(end, 0, 0);
    var both := [At(d, 8, 0), At(d, 16, 0)];
    assert OccurrencesForDate(p, At(d, 0, 0)) == both;
    assert Admitted(both, from, to, None) == both by {
      assert IsWithinWindow(both[0], from, to, None) && IsWithinWindow(both[1], from, to, None);
      assert both[..1] == [both[0]];
    }
    SweepUnfold(p, from, to, None, occurrences, At(d, 0, 0), iterations);
  }

  /**
   * DAILY at 08:00 and 16:00 from midnight on one day to midnight two days later gives
   * four occurrences, day by day (2024-01-01 to 2024-01-03 in the unit test).
   */
  lemma DailyTwoDays(d: Date)
    requires ValidDate(d)
    ensures var e := NextDay(d);
      Occurrences(TwiceDaily(), At(d, 0, 0), At(NextDay(e), 0, 0), None, None) ==
        [At(d, 8, 0), At(d, 16, 0), At(e, 8, 0), At(e, 16, 0)]
  {
    var p := TwiceDaily();
    var e := NextDay(d);
    var end := NextDay(e);
    var from := At(d, 0, 0);
    var to := At(end, 0, 0);
    var first := [At(d, 8, 0), At(d, 16, 0)];
    var second := [At(e, 8, 0), At(e, 16, 0)];
    DateBeforeTransitive(d, e, end);
    TwiceDailyStep(d, from, end, [], 0);
    TwiceDailyStep(e, from, end, [] + first, 1);
    assert Sweep(p, from, to, None, [] + first + second, to, 2) == [] + first + second;
  }

  /** A single-time pattern firing on an examined date inside the window collects that date-time. */
  lemma SingleTimeStep(p: RecurrencePattern, from: DateTime, to: DateTime, planEnd: Option<DateTime>,
                       occurrences: seq<DateTime>, current: DateTime, iterations: nat)
    requires WellFormed(p) && ValidDate(current.date) && |p.times| == 1
    requires IsBefore(current, to) && iterations < MaxIterations && ShouldGenerate(p, current)
    requires IsWithinWindow(DateTime(current.date, p.times[0]), from, to, planEnd)
    ensures Sweep(p, from, to, planEnd, occurrences, current, iterations) ==
      Sweep(p, from, to, planEnd, occurrences + [DateTime(current.date, p.times[0])],
            NextCalculationDate(p, current), iterations + 1)
  {
    var one := [DateTime(current.date, p.times[0])];
    assert OccurrencesForDate(p, current) == one;
    assert Admitted(one, from, to, planEnd) == one by {
      assert one[..0] == [];
    }
    SweepUnfold(p, from, to, planEnd, occurrences, current, iterations);
  }

  /** A valid date-time on or after a midnight `from` and on a date before `to`'s lies in the window. */
  lemma InWindow(t: DateTime, from: DateTime, to: DateTime)
    requires ValidTime(t.time) && from.time == Midnight()
    requires t.date == from.date || DateBefore(from.date, t.date)
    requires DateBefore(t.date, to.date)
    ensures IsWithinWindow(t, from, to, None)
  {
  }

  lemma NewYear2024IsMonday()
    ensures DayOfWeekOf(Date(2024, 1, 1)) == MONDAY
  {
  }

  lemma February2024StartsOnThursday()
    ensures DayOfWeekOf(Date(2024, 2, 1)) == THURSDAY
  {
  }

  /** On a date that falls on the pattern's weekday, WEEKLY fires and moves on to the next such date. */
  lemma FiresOnWeekday(p: RecurrencePattern, current: DateTime)
    requires WellFormed(p) && p.kind == WEEKLY && ValidDate(current.date)
    requires DayOfWeekOf(current.date) == p.dayOfWeek.value
    ensures ShouldGenerate(p, current)
    ensures NextCalculationDate(p, current) == DateTime(NextWeekday(current.date, p.dayOfWeek.value), current.time)
    ensures DayOfWeekOf(NextWeekday(current.date, p.dayOfWeek.value)) == p.dayOfWeek.value
  {
    FallsOnIff(current.date, p.dayOfWeek.value);
    NextWeekdayIsNearest(current.date, p.dayOfWeek.value);
  }

  /**
   * WEEKLY from midnight on a date that falls on the weekday, to midnight two weekday-steps
   * later, gives that date and the next one on the weekday.
   */
  lemma WeeklyTwoSteps(d: Date, dow: DayOfWeek, time: LocalTime)
    requires ValidDate(d) && ValidTime(time) && DayOfWeekOf(d) == dow
    ensures var week := NextWeekday(d, dow);
      Occurrences(Weekly(dow, [time]), DateTime(d, Midnight()), DateTime(NextWeekday(week, dow), Midnight()), None, None) ==
        [DateTime(d, time), DateTime(week, time)]
  {
    var firings := [DateTime(d, time), DateTime(NextWeekday(d, dow), time)];
    WeeklyLastTwoPasses(dow, time, DateTime(d, Midnight()), [], d, 0);
    assert [] + [firings[0]] + [firings[1]] == firings;
  }

  lemma NextWeekdayLater(d: Date, dow: DayOfWeek)
    requires ValidDate(d)
    ensures DateBefore(d, NextWeekday(d, dow))
  {
    NextWeekdayIsNearest(d, dow);
  }

  /**
   * One pass of the loop for WEEKLY with one time, on a date that falls on the weekday and lies
   * in the window: the date's occurrence is added and the loop moves on to the next such date.
   */
  lemma WeeklyStep(dow: DayOfWeek, time: LocalTime, from: DateTime, to: DateTime,
                   occurrences: seq<DateTime>, c: Date, iterations: nat)
    requires ValidDate(c) && ValidTime(time) && DayOfWeekOf(c) == dow && iterations < MaxIterations
    requires from.time == Midnight() && (c == from.date || DateBefore(from.date, c)) && DateBefore(c, to.date)
    ensures DateBefore(c, NextWeekday(c, dow)) && DayOfWeekOf(NextWeekday(c, dow)) == dow
    ensures Sweep(Weekly(dow, [time]), from, to, None, occurrences, DateTime(c, Midnight()), iterations) ==
      Sweep(Weekly(dow, [time]), from, to, None, occurrences + [DateTime(c, time)],
            DateTime(NextWeekday(c, dow), Midnight()), iterations + 1)
  {
    var p := Weekly(dow, [time]);
    FiresOnWeekday(p, DateTime(c, Midnight()));
    NextWeekdayLater(c, dow);
    InWindow(DateTime(c, time), from, to);
    SingleTimeStep(p, from, to, None, occurrences, DateTime(c, Midnight()), iterations);
  }

  /** The loop stops once the examined date is no longer before `to`. */
  lemma SweepStops(p: RecurrencePattern, from: DateTime, to: DateTime, planEnd: Option<DateTime>,
                   occurrences: seq<DateTime>, current: DateTime, iterations: nat)
    requires WellFormed(p) && ValidDate(current.date) && !IsBefore(current, to)
    ensures Sweep(p, from, to, planEnd, occurrences, current, iterations) == occurrences
  {
  }

  lemma NotBeforeItself(t: DateTime)
    ensures !IsBefore(t, t)
  {
  }

  /** Three weekday steps from a date on the weekday land on the weekday, each later than the last. */
  lemma ThreeWeekdaySteps(d: Date, dow: DayOfWeek)
    requires ValidDate(d) && DayOfWeekOf(d) == dow
    ensures var week := NextWeekday(d, dow);
      var fortnight := NextWeekday(week, dow);
      var end := NextWeekday(fortnight, dow);
      DayOfWeekOf(week) == dow && DayOfWeekOf(fortnight) == dow &&
      DateBefore(d, week) && DateBefore(week, fortnight) && DateBefore(d, fortnight) &&
      DateBefore(d, end) && DateBefore(week, end) && DateBefore(fortnight, end)
  {
    var week := NextWeekday(d, dow);
    var fortnight := NextWeekday(week, dow);
    var end := NextWeekday(fortnight, dow);
    WeeklyStepDate(d, dow);
    WeeklyStepDate(week, dow);
    NextWeekdayLater(fortnight, dow);
    DateBeforeTransitive(week, fortnight, end);
    DateBeforeTransitive(d, week, end);
    DateBeforeTransitive(d, week, fortnight);
  }

  lemma WeeklyStepDate(d: Date, dow: DayOfWeek)
    requires ValidDate(d) && DayOfWeekOf(d) == dow
    ensures DateBefore(d, NextWeekday(d, dow)) && DayOfWeekOf(NextWeekday(d, dow)) == dow
  {
    NextWeekdayLater(d, dow);
    FiresOnWeekday(Weekly(dow, [Midnight()]), DateTime(d, Midnight()));
  }

  /** The last pass of the loop for WEEKLY: the date's occurrence, then the window ends. */
  lemma WeeklyLastPass(dow: DayOfWeek, time: LocalTime, from: DateTime, occurrences: seq<DateTime>,
                       c: Date, iterations: nat)
    requires ValidDate(c) && ValidTime(time) && DayOfWeekOf(c) == dow && iterations < MaxIterations
    requires from.time == Midnight() && (c == from.date || DateBefore(from.date, c))
    ensures Sweep(Weekly(dow, [time]), from, DateTime(NextWeekday(c, dow), Midnight()), None, occurrences,
                  DateTime(c, Midnight()), iterations) == occurrences + [DateTime(c, time)]
  {
    var to := DateTime(NextWeekday(c, dow), Midnight());
    NextWeekdayLater(c, dow);
    WeeklyStep(dow, time, from, to, occurrences, c, iterations);
    NotBeforeItself(to);
    SweepStops(Weekly(dow, [time]), from, to, None, occurrences + [DateTime(c, time)], to, iterations + 1);
  }

  /** The last two passes of the loop for WEEKLY, one week apart. */
  lemma WeeklyLastTwoPasses(dow: DayOfWeek, time: LocalTime, from: DateTime, occurrences: seq<DateTime>,
                            c: Date, iterations: nat)
    requires ValidDate(c) && ValidTime(time) && DayOfWeekOf(c) == dow && iterations + 2 <= MaxIterations
    requires from.time == Midnight() && (c == from.date || DateBefore(from.date, c))
    ensures var week := NextWeekday(c, dow);
      Sweep(Weekly(dow, [time]), from, DateTime(NextWeekday(week, dow), Midnight()), None, occurrences,
            DateTime(c, Midnight()), iterations) == occurrences + [DateTime(c, time)] + [DateTime(week, time)]
  {
    var week := NextWeekday(c, dow);
    var to := DateTime(NextWeekday(week, dow), Midnight());
    WeeklyStepDate(c, dow);
    WeeklyStepDate(week, dow);
    DateBeforeTransitive(c, week, to.date);
    WeeklyStep(dow, time, from, to, occurrences, c, iterations);
    if c != from.date {
      DateBeforeTransitive(from.date, c, week);
    }
    WeeklyLastPass(dow, time, from, occurrences + [DateTime(c, time)], week, iterations + 1);
  }

  /** Three passes of the loop for WEEKLY from a date on the weekday, after any earlier occurrences. */
  lemma WeeklyThreeSweep(d: Date, dow: DayOfWeek, time: LocalTime, occurrences: seq<DateTime>, iterations: nat)
    requires ValidDate(d) && ValidTime(time) && DayOfWeekOf(d) == dow && iterations + 3 <= MaxIterations
    ensures var week := NextWeekday(d, dow);
      var fortnight := NextWeekday(week, dow);
      var from := DateTime(d, Midnight());
      Sweep(Weekly(dow, [time]), from, DateTime(NextWeekday(fortnight, dow), Midnight()), None, occurrences, from, iterations) ==
        occurrences + [DateTime(d, time), DateTime(week, time), DateTime(fortnight, time)]
  {
    var week := NextWeekday(d, dow);
    var fortnight := NextWeekday(week, dow);
    var from, to := DateTime(d, Midnight()), DateTime(NextWeekday(fortnight, dow), Midnight());
    ThreeWeekdaySteps(d, dow);
    WeeklyStep(dow, time, from, to, occurrences, d, iterations);
    WeeklyLastTwoPasses(dow, time, from, occurrences + [DateTime(d, time)], week, iterations + 1);
    ThreeAppended(occurrences, DateTime(d, time), DateTime(week, time), DateTime(fortnight, time));
  }

  lemma ThreeAppended(s: seq<DateTime>, a: DateTime, b: DateTime, c: DateTime)
    ensures s + [a] + [b] + [c] == s + [a, b, c]
  {
  }

  /**
   * WEEKLY from midnight on a date that falls on the weekday, to midnight three weekday-steps
   * later, gives that date and the next two on the weekday.
   */
  lemma WeeklyThreeSteps(d: Date, dow: DayOfWeek, time: LocalTime)
    requires ValidDate(d) && ValidTime(time) && DayOfWeekOf(d) == dow
    ensures var week := NextWeekday(d, dow);
      var fortnight := NextWeekday(week, dow);
      Occurrences(Weekly(dow, [time]), DateTime(d, Midnight()), DateTime(NextWeekday(fortnight, dow), Midnight()), None, None) ==
        [DateTime(d, time), DateTime(week, time), DateTime(fortnight, time)]
  {
    var firings := [DateTime(d, time), DateTime(NextWeekday(d, dow), time),
                    DateTime(NextWeekday(NextWeekday(d, dow), dow), time)];
    WeeklyThreeSweep(d, dow, time, [], 0);
    assert [] + firings == firings;
  }

  /**
   * THURSDAY at 07:30 from 2024-02-01 to 2024-02-22: the first three Thursdays of the month,
   * the window's end excluded.
   */
  lemma ThursdaysOfFebruary2024()
    ensures Occurrences(Weekly(THURSDAY, [LocalTime(7, 30, 0, 0)]), DateTime(Date(2024, 2, 1), Midnight()),
                        DateTime(Date(2024, 2, 22), Midnight()), None, None) ==
      [DateTime(Date(2024, 2, 1), LocalTime(7, 30, 0, 0)), DateTime(Date(2024, 2, 8), LocalTime(7, 30, 0, 0)),
       DateTime(Date(2024, 2, 15), LocalTime(7, 30, 0, 0))]
  {
    February2024StartsOnThursday();
    ThursdaysAWeekApart();
    WeeklyThreeSteps(Date(2024, 2, 1), THURSDAY, LocalTime(7, 30, 0, 0));
  }

  lemma ThursdaysAWeekApart()
    ensures NextWeekday(Date(2024, 2, 1), THURSDAY) == Date(2024, 2, 8)
    ensures NextWeekday(Date(2024, 2, 8), THURSDAY) == Date(2024, 2, 15)
    ensures NextWeekday(Date(2024, 2, 15), THURSDAY) == Date(2024, 2, 22)
  {
    FirstThursdayStep();
    SecondThursdayStep();
    ThirdThursdayStep();
  }

  lemma FirstThursdayStep()
    ensures NextWeekday(Date(2024, 2, 1), THURSDAY) == Date(2024, 2, 8)
  {
    February2024StartsOnThursday();
    SameWeekdayNextWeek(Date(2024, 2, 1));
    assert PlusDays(Date(2024, 2, 1), 7) == Date(2024, 2, 8);
  }

  lemma SecondThursdayStep()
    ensures NextWeekday(Date(2024, 2, 8), THURSDAY) == Date(2024, 2, 15)
  {
    assert DayOfWeekOf(Date(2024, 2, 8)) == THURSDAY;
    SameWeekdayNextWeek(Date(2024, 2, 8));
    assert PlusDays(Date(2024, 2, 8), 7) == Date(2024, 2, 15);
  }

  lemma ThirdThursdayStep()
    ensures NextWeekday(Date(2024, 2, 15), THURSDAY) == Date(2024, 2, 22)
  {
    assert DayOfWeekOf(Date(2024, 2, 15)) == THURSDAY;
    SameWeekdayNextWeek(Date(2024, 2, 15));
    assert PlusDays(Date(2024, 2, 15), 7) == Date(2024, 2, 22);
  }

  lemma SameWeekdayNextWeek(d: Date)
    requires ValidDate(d)
    ensures NextWeekday(d, DayOfWeekOf(d)) == PlusDays(d, 7)
  {
    assert WeekdayGap(d, DayOfWeekOf(d)) == 7;
  }

  /**
   * WEEKLY over two weeks from midnight on a day that falls on the pattern's weekday gives
   * that day and the same weekday a week later (MONDAY from 2024-01-01 to 2024-01-15 in the
   * unit test).
   */
  lemma WeeklyTwoWeeks(d: Date, time: LocalTime)
    requires ValidDate(d) && ValidTime(time)
    ensures var dow := DayOfWeekOf(d);
      Occurrences(Weekly(dow, [time]), DateTime(d, Midnight()), DateTime(PlusDays(d, 14), Midnight()), None, None) ==
        [DateTime(d, time), DateTime(PlusDays(d, 7), time)]
  {
    var dow := DayOfWeekOf(d);
    var week := NextWeekday(d, dow);
    WeeklyTwoSteps(d, dow, time);
    SameWeekdayNextWeek(d);
    NextWeekdayIsNearest(d, dow);
    SameWeekdayNextWeek(week);
    PlusDaysAdd(d, 7, 7);
  }

  /**
   * MONTHLY on the 31st at one time, from midnight on 1 January to midnight on 1 April, gives
   * 31 January, the last day of February and 31 March: 28 February in 2023 and 29 February in
   * 2024 in the unit test.
   */
  lemma MonthlyFirstQuarter(year: int, time: LocalTime)
    requires ValidTime(time)
    ensures Occurrences(Monthly(31, [time]), DateTime(Date(year, 1, 1), Midnight()),
                        DateTime(Date(year, 4, 1), Midnight()), None, None) ==
      [DateTime(Date(year, 1, 31), time), DateTime(Date(year, 2, DaysInMonth(year, 2)), time),
       DateTime(Date(year, 3, 31), time)]
  {
    var p := Monthly(31, [time]);
    var from := DateTime(Date(year, 1, 1), Midnight());
    var to := DateTime(Date(year, 4, 1), Midnight());
    var c1 := DateTime(Date(year, 1, 31), Midnight());
    var c2 := DateTime(Date(year, 2, DaysInMonth(year, 2)), Midnight());
    var c3 := DateTime(Date(year, 3, 31), Midnight());
    var c4 := DateTime(Date(year, 4, 30), Midnight());
    var a := [DateTime(c1.date, time)];
    var b := a + [DateTime(c2.date, time)];
    var c := b + [DateTime(c3.date, time)];
    assert FirstCalculationDate(p, from) == c1;
    assert NextCalculationDate(p, c1) == c2;
    assert NextCalculationDate(p, c2) == c3;
    assert NextCalculationDate(p, c3) == c4;
    InWindow(DateTime(c1.date, time), from, to);
    InWindow(DateTime(c2.date, time), from, to);
    InWindow(DateTime(c3.date, time), from, to);
    SingleTimeStep(p, from, to, None, [], c1, 0);
    assert [] + a == a;
    SingleTimeStep(p, from, to, None, a, c2, 1);
    SingleTimeStep(p, from, to, None, b, c3, 2);
    assert Sweep(p, from, to, None, c, c4, 3) == c;
  }

  /** generate_once_usesPlanStartDate: ONCE takes its date from the plan's start, not from the window. */
  lemma OnceOnPlanStartDate(d: Date)
    requires ValidDate(d)
    ensures Occurrences(Once([LocalTime(10, 30, 0, 0)]), At(d, 0, 0), At(NextDay(d), 0, 0), Some(At(d, 8, 0)), None) ==
      [At(d, 10, 30)]
  {
  }

  /**
   * generate_endTimeInclusive: with the plan ending at midnight on the third day, DAILY at 08:00
   * still gives the second day's 08:00 but not the third day's.
   */
  lemma PlanEndCutsOff(d: Date, to: DateTime)
    requires ValidDate(d) && ValidDateTime(to) && DateBefore(NextDay(d), to.date)
    ensures var second := NextDay(d);
      var occurrences := Occurrences(Daily([LocalTime(8, 0, 0, 0)]), At(d, 0, 0), to, None, Some(At(NextDay(second), 0, 0)));
      At(second, 8, 0) in occurrences && At(NextDay(second), 8, 0) !in occurrences
  {
    var p := Daily([LocalTime(8, 0, 0, 0)]);
    var from := At(d, 0, 0);
    var second := NextDay(d);
    var planEnd := Some(At(NextDay(second), 0, 0));
    OccurrencesInWindow(p, from, to, None, planEnd);
    NextDayIsDailyDate(d, to);
    assert LocalTime(8, 0, 0, 0) in p.times;
    DateBeforeTransitive(d, second, NextDay(second));
    DailyComplete(p, from, to, None, planEnd, At(second, 8, 0));
  }

  lemma NextDayIsDailyDate(d: Date, to: DateTime)
    requires ValidDate(d) && ValidDateTime(to) && DateBefore(NextDay(d), to.date)
    ensures DailyDate(At(d, 0, 0), to, NextDay(d))
  {
    EpochDayOfNextDay(d);
    assert DaysBetween(d, NextDay(d)) == 1;
  }

  function Midnight(): LocalTime {
    LocalTime(0, 0, 0, 0)
  }
}
