/**
 * The parsed recurrence rule: a kind, the clock times of day, and the one extra field
 * the kind needs (a weekday for WEEKLY, a day of the month for MONTHLY). A field the
 * kind does not use is absent (Java's null).
 */
module Pattern {
  import opened Wrappers
  import opened Calendar

  datatype RecurrenceType = ONCE | DAILY | WEEKLY | MONTHLY

  datatype RecurrencePattern = RecurrencePattern(
    kind: RecurrenceType,
    times: seq<LocalTime>,
    dayOfWeek: Option<DayOfWeek>,
    dayOfMonth: Option<int>)

  /** Exactly the fields relevant to the kind are present. */
  predicate WellFormed(p: RecurrencePattern) {
    (p.dayOfWeek.Some? <==> p.kind == WEEKLY) &&
    (p.dayOfMonth.Some? <==> p.kind == MONTHLY)
  }

  // The factories construct without validating: any times (even none) and any day number.

  function Daily(times: seq<LocalTime>): (p: RecurrencePattern)
    ensures WellFormed(p) && p.kind == DAILY && p.times == times
  {
    RecurrencePattern(DAILY, times, None, None)
  }

  function Weekly(dayOfWeek: DayOfWeek, times: seq<LocalTime>): (p: RecurrencePattern)
    ensures WellFormed(p) && p.kind == WEEKLY && p.times == times && p.dayOfWeek == Some(dayOfWeek)
  {
    RecurrencePattern(WEEKLY, times, Some(dayOfWeek), None)
  }

  function Monthly(dayOfMonth: int, times: seq<LocalTime>): (p: RecurrencePattern)
    ensures WellFormed(p) && p.kind == MONTHLY && p.times == times && p.dayOfMonth == Some(dayOfMonth)
  {
    RecurrencePattern(MONTHLY, times, None, Some(dayOfMonth))
  }

  function Once(times: seq<LocalTime>): (p: RecurrencePattern)
    ensures WellFormed(p) && p.kind == ONCE && p.times == times
  {
    RecurrencePattern(ONCE, times, None, None)
  }

  /** Every well-formed pattern is what one of the four factories builds from its own fields. */
  lemma WellFormedIsFactoryMade(p: RecurrencePattern)
    requires WellFormed(p)
    ensures p.kind == DAILY ==> p == Daily(p.times)
    ensures p.kind == WEEKLY ==> p == Weekly(p.dayOfWeek.value, p.times)
    ensures p.kind == MONTHLY ==> p == Monthly(p.dayOfMonth.value, p.times)
    ensures p.kind == ONCE ==> p == Once(p.times)
  {
  }
}
