/**
 * DefaultOccurrenceGenerator: the date-times at which a recurrence pattern fires inside
 * a window [fromTime, toTime), cut off at the plan's end when it has one.
 *
 * `Generate` is the imperative loop; `Occurrences` is the value it computes, stated as a
 * recursive walk over the iteration dates (`Sweep`). The lemmas below are about
 * `Occurrences`, and so, through `Generate`'s postcondition, about the loop.
 */
module Generator {
  import opened Wrappers
  import opened Calendar
  import opened Pattern

  /** The loop examines at most this many iteration dates. */
  const MaxIterations := 1000

  /**
   * What generate() needs of its pattern to run without a NullPointerException or a
   * NoSuchElementException: the kind's fields are set, the times are real clock times,
   * and ONCE has a first time.
   */
  predicate Generable(p: RecurrencePattern) {
    WellFormed(p) &&
    (forall i :: 0 <= i < |p.times| ==> ValidTime(p.times[i])) &&
    (p.kind == ONCE ==> |p.times| > 0)
  }

  /** The arguments generate() needs: valid date-times, and a plan start for ONCE. */
  predicate Arguments(p: RecurrencePattern, from: DateTime, to: DateTime,
                      planStart: Option<DateTime>, planEnd: Option<DateTime>) {
    Generable(p) && ValidDateTime(from) && ValidDateTime(to) &&
    (p.kind == ONCE ==> planStart.Some? && ValidDateTime(planStart.value)) &&
    (planEnd.Some? ==> ValidDateTime(planEnd.value))
  }

  // ---------------------------------------------------------------------------
  // The private helpers

  /** isWithinWindow: rejects before `from`, after `to` or equal to it, and after the plan's end. */
  predicate IsWithinWindow(t: DateTime, from: DateTime, to: DateTime, planEnd: Option<DateTime>) {
    if IsBefore(t, from) || IsAfter(t, to) || t == to then false
    else planEnd.None? || !IsAfter(t, planEnd.value)
  }

  /** The window is half-open, [from, to), and the plan's end is inclusive. */
  lemma WithinWindowIff(t: DateTime, from: DateTime, to: DateTime, planEnd: Option<DateTime>)
    ensures IsWithinWindow(t, from, to, planEnd) <==>
      !IsBefore(t, from) && IsBefore(t, to) && (planEnd.Some? ==> !IsBefore(planEnd.value, t))
  {
    Trichotomy(t, to);
  }

  /** adjustToValidMonthlyDate: the same month, on the desired day clamped to its length. */
  function AdjustToValidMonthlyDate(base: DateTime, desired: int): (r: DateTime)
    requires ValidDate(base.date)
    ensures ValidDate(r.date) && r.time == base.time
    ensures r.date.year == base.date.year && r.date.month == base.date.month
    ensures 1 <= desired <= DaysInMonth(r.date.year, r.date.month) ==> r.date.day == desired
    ensures desired < 1 ==> r.date.day == 1
    ensures desired > DaysInMonth(r.date.year, r.date.month) ==> r.date.day == DaysInMonth(r.date.year, r.date.month)
  {
    var last := DaysInMonth(base.date.year, base.date.month);
    ClampRange(desired, last);
    DateTime(base.date.(day := Clamp(desired, last)), base.time)
  }

  /** The switch in calculateOccurrencesForDate: does the pattern fire on this date? */
  predicate ShouldGenerate(p: RecurrencePattern, date: DateTime)
    requires WellFormed(p) && ValidDate(date.date)
  {
    match p.kind
    case DAILY => true
    case WEEKLY => FallsOn(date.date, p.dayOfWeek.value)
    case MONTHLY => date.date.day == Clamp(p.dayOfMonth.value, DaysInMonth(date.date.year, date.date.month))
    case ONCE => false
  }

  /** calculateOccurrencesForDate: every pattern time on this date, or nothing. */
  function OccurrencesForDate(p: RecurrencePattern, date: DateTime): (r: seq<DateTime>)
    requires WellFormed(p) && ValidDate(date.date)
    ensures |r| == (if ShouldGenerate(p, date) then |p.times| else 0)
    ensures forall i :: 0 <= i < |r| ==> r[i].date == date.date && r[i].time == p.times[i]
  {
    if ShouldGenerate(p, date) then seq(|p.times|, i requires 0 <= i < |p.times| => DateTime(date.date, p.times[i]))
    else []
  }

  /** getNextCalculationDate: the next date the loop examines, keeping the clock time. */
  function NextCalculationDate(p: RecurrencePattern, current: DateTime): (r: DateTime)
    requires WellFormed(p) && ValidDate(current.date)
    ensures ValidDate(r.date) && r.time == current.time
    ensures DateBefore(current.date, r.date)
  {
    match p.kind
    case DAILY => DateTime(NextDay(current.date), current.time)
    case WEEKLY =>
      NextWeekdayIsNearest(current.date, p.dayOfWeek.value);
      DateTime(NextWeekday(current.date, p.dayOfWeek.value), current.time)
    case MONTHLY =>
      var r := AdjustToValidMonthlyDate(DateTime(PlusOneMonth(current.date), current.time), p.dayOfMonth.value);
      MonthIndexBefore(current.date, r.date);
      r
    case ONCE => DateTime(PlusOneYear(current.date), current.time)
  }

  // ---------------------------------------------------------------------------
  // What generate() returns

  /** The candidates of one date that pass the window filter, in candidate order. */
  function Admitted(candidates: seq<DateTime>, from: DateTime, to: DateTime, planEnd: Option<DateTime>): (r: seq<DateTime>)
    ensures |r| <= |candidates|
    ensures forall t :: t in r ==> t in candidates && IsWithinWindow(t, from, to, planEnd)
  {
    if |candidates| == 0 then []
    else
      var last := candidates[|candidates| - 1];
      Admitted(candidates[..|candidates| - 1], from, to, planEnd) +
        (if IsWithinWindow(last, from, to, planEnd) then [last] else [])
  }

  /** Filtering one more candidate appends it when it is admitted. */
  lemma AdmittedSnoc(candidates: seq<DateTime>, j: int, from: DateTime, to: DateTime, planEnd: Option<DateTime>)
    requires 0 <= j < |candidates|
    ensures Admitted(candidates[..j + 1], from, to, planEnd) ==
      Admitted(candidates[..j], from, to, planEnd) +
        (if IsWithinWindow(candidates[j], from, to, planEnd) then [candidates[j]] else [])
  {
    assert candidates[..j + 1][..j] == candidates[..j];
  }

  /** `x` and `y` are elements of `of`, `x` at an earlier position. */
  predicate InOrderIn(x: DateTime, y: DateTime, of: seq<DateTime>) {
    exists a, b :: 0 <= a < b < |of| && x == of[a] && y == of[b]
  }

  /** Any two elements of `s` are elements of `of` at increasing positions. */
  predicate KeepsOrderOf(s: seq<DateTime>, of: seq<DateTime>) {
    forall i, j :: 0 <= i < j < |s| ==> InOrderIn(s[i], s[j], of)
  }

  /** Keeping the order of all candidates but the last, and appending at most the last, keeps their order. */
  lemma KeepsOrderSnoc(head: seq<DateTime>, candidates: seq<DateTime>, extra: seq<DateTime>)
    requires |candidates| > 0 && KeepsOrderOf(head, candidates[..|candidates| - 1])
    requires forall t :: t in head ==> t in candidates[..|candidates| - 1]
    requires extra == [] || extra == [candidates[|candidates| - 1]]
    ensures KeepsOrderOf(head + extra, candidates)
  {
    var n := |candidates| - 1;
    var prefix := candidates[..n];
    var r := head + extra;
    forall i, j | 0 <= i < j < |r|
      ensures InOrderIn(r[i], r[j], candidates)
    {
      if j < |head| {
        assert InOrderIn(head[i], head[j], prefix);
        var a, b :| 0 <= a < b < |prefix| && head[i] == prefix[a] && head[j] == prefix[b];
        assert r[i] == candidates[a] && r[j] == candidates[b];
      } else {
        assert head[i] in head;
        var a :| 0 <= a < |prefix| && prefix[a] == head[i];
        assert r[i] == candidates[a] && r[j] == candidates[n];
      }
    }
  }

  /** Admitted is a subsequence of its candidates: it keeps their order. */
  lemma {:induction false} AdmittedKeepsOrder(candidates: seq<DateTime>, from: DateTime, to: DateTime,
                                              planEnd: Option<DateTime>)
    ensures KeepsOrderOf(Admitted(candidates, from, to, planEnd), candidates)
  {
    if |candidates| > 0 {
      var n := |candidates| - 1;
      var prefix := candidates[..n];
      var last := candidates[n];
      AdmittedKeepsOrder(prefix, from, to, planEnd);
      KeepsOrderSnoc(Admitted(prefix, from, to, planEnd), candidates,
                     if IsWithinWindow(last, from, to, planEnd) then [last] else []);
    }
  }

  lemma AppendAssoc(a: seq<DateTime>, b: seq<DateTime>, c: seq<DateTime>)
    ensures a + b + c == a + (b + c)
  {
  }

  /**
   * What the while loop returns when it reaches the state (current, iterations) holding
   * `occurrences` so far.
   */
  function Sweep(p: RecurrencePattern, from: DateTime, to: DateTime, planEnd: Option<DateTime>,
                 occurrences: seq<DateTime>, current: DateTime, iterations: nat): seq<DateTime>
    requires WellFormed(p) && ValidDate(current.date)
    decreases MaxIterations - iterations
  {
    if IsBefore(current, to) && iterations < MaxIterations then
      Sweep(p, from, to, planEnd, occurrences + Admitted(OccurrencesForDate(p, current), from, to, planEnd),
            NextCalculationDate(p, current), iterations + 1)
    else occurrences
  }

  /** The first date the loop examines: `from`, moved onto the pattern's day for MONTHLY. */
  function FirstCalculationDate(p: RecurrencePattern, from: DateTime): (r: DateTime)
    requires WellFormed(p) && ValidDateTime(from)
    ensures ValidDateTime(r) && r.time == from.time
  {
    if p.kind == MONTHLY then AdjustToValidMonthlyDate(from, p.dayOfMonth.value) else from
  }

  /** The single ONCE candidate: the plan's start date at the first time. */
  function OnceDateTime(p: RecurrencePattern, planStart: DateTime): DateTime
    requires |p.times| > 0
  {
    DateTime(planStart.date, p.times[0])
  }

  /** The list generate() returns. */
  function Occurrences(p: RecurrencePattern, from: DateTime, to: DateTime,
                       planStart: Option<DateTime>, planEnd: Option<DateTime>): seq<DateTime>
    requires Arguments(p, from, to, planStart, planEnd)
  {
    if p.kind == ONCE then
      var once := OnceDateTime(p, planStart.value);
      if IsWithinWindow(once, from, to, planEnd) then [once] else []
    else Sweep(p, from, to, planEnd, [], FirstCalculationDate(p, from), 0)
  }

  /** The inner for loop of generate(): appends each candidate that passes the window filter. */
  method AddAdmitted(occurrences: seq<DateTime>, daily: seq<DateTime>,
                     from: DateTime, to: DateTime, planEnd: Option<DateTime>) returns (r: seq<DateTime>)
    ensures r == occurrences + Admitted(daily, from, to, planEnd)
  {
    r := occurrences;
    for j := 0 to |daily|
      invariant r == occurrences + Admitted(daily[..j], from, to, planEnd)
    {
      AdmittedSnoc(daily, j, from, to, planEnd);
      if IsWithinWindow(daily[j], from, to, planEnd) {
        AppendAssoc(occurrences, Admitted(daily[..j], from, to, planEnd), [daily[j]]);
        r := r + [daily[j]];
      }
    }
    assert daily[..|daily|] == daily;
  }

  /**
   * The while loop of generate(): examines `start` and the dates after it while they are
   * before `to`, at most MaxIterations of them, collecting the admitted candidates.
   */
  method CollectOccurrences(p: RecurrencePattern, from: DateTime, to: DateTime, planEnd: Option<DateTime>,
                            start: DateTime) returns (occurrences: seq<DateTime>)
    requires WellFormed(p) && ValidDate(start.date)
    ensures occurrences == Sweep(p, from, to, planEnd, [], start, 0)
  {
    occurrences := [];
    var current := start;
    var iterations := 0;
    while IsBefore(current, to) && iterations < MaxIterations
      invariant 0 <= iterations <= MaxIterations && ValidDate(current.date)
      invariant Sweep(p, from, to, planEnd, occurrences, current, iterations) == Sweep(p, from, to, planEnd, [], start, 0)
      decreases MaxIterations - iterations
    {
      iterations := iterations + 1;
      var daily := OccurrencesForDate(p, current);
      occurrences := AddAdmitted(occurrences, daily, from, to, planEnd);
      current := NextCalculationDate(p, current);
    }
  }

  /** DefaultOccurrenceGenerator.generate. */
  method Generate(p: RecurrencePattern, from: DateTime, to: DateTime,
                  planStart: Option<DateTime>, planEnd: Option<DateTime>) returns (occurrences: seq<DateTime>)
    requires Arguments(p, from, to, planStart, planEnd)
    ensures occurrences == Occurrences(p, from, to, planStart, planEnd)
  {
    occurrences := [];
    if p.kind == ONCE {
      var once := OnceDateTime(p, planStart.value);
      if IsWithinWindow(once, from, to, planEnd) {
        occurrences := occurrences + [once];
      }
      return;
    }
    var current := from;
    if p.kind == MONTHLY {
      current := AdjustToValidMonthlyDate(current, p.dayOfMonth.value);
    }
    occurrences := CollectOccurrences(p, from, to, planEnd, current);
  }
}
