# Treatment task materialisation, modelled in Dafny

This project models the core of a treatment scheduler service. Each treatment plan carries a
textual recurrence pattern, such as `DAILY:08:00,16:00`, `WEEKLY:MONDAY:12:00`,
`MONTHLY:15:09:00` or `ONCE:10:30`. A scheduled run works in three steps:

1. It selects the plans that are active at `now`.
2. It parses each plan's pattern and expands it into the occurrences inside the look-ahead window `[now, now + lookAheadHours)`, cut off at the plan's end.
3. It stores one ACTIVE treatment task for every occurrence that has no task yet. A unique constraint on (plan id, start time) guards the task table.

The model has one module per concern:

- `Calendar` (calendar.dfy) holds the parts of `java.time` the core relies on: Gregorian dates, month lengths, lexicographic date-time order, `plusDays`, the clamping `plusMonths`, `plusYears`, `plusHours`, the weekday and `TemporalAdjusters.next`.
- `Text` (text.dfy) holds `String.trim`, `split` (which drops trailing empty strings), `String.join`, ASCII `toUpperCase` and `Integer.parseInt` restricted to ASCII digits.
- `Pattern` (pattern.dfy) is the `RecurrencePattern` record and its four factories.
- `Parser` (parser.dfy) is `DefaultRecurrencePatternParser`:
  - `Parse` is the function.
  - `ParseTimesFromParts` is its token loop, written as a method.
  - `Format` is a reference printer. `ParseFormat` proves that parsing a printed pattern gives the pattern back.
- `Generator` (generator.dfy) is `DefaultOccurrenceGenerator`:
  - `Generate` is the imperative loop, and it is proved to compute `Occurrences`.
  - `GeneratorProperties` proves what that list satisfies: inside the window, at pattern times, on the right dates, in date order and bounded. For DAILY it is exactly the expected set.
- `Scheduler` (scheduler.dfy) holds the service:
  - `TreatmentSchedulerService` is a class. It holds the task repository, the injected parser and generator, and `lookAheadHours`.
  - `TaskStore` is a class whose map the methods update in place. Its invariant `Valid()` is the unique constraint: every row is stored under its own (plan id, start time) key. `Save` and the service's methods keep it.
  - Each method is proved to compute a specification function on values: `Run`, `PlanRun` or `CreateTasks`.
  - `SchedulerProperties` proves what a run does to the table: it only inserts, every inserted row fits its plan and window, the count matches the rows added, every selected plan is covered, a plan that fails does not stop the others, and a second run is a no-op.

The service is proved for any parser and generator it is given. The application's own parser and
generator are `DefaultParser` and `DefaultGenerator`, and two lemmas connect them to the
service's assumptions:

- `DefaultGeneratesWithin`: the default generator only returns occurrences inside the window.
- `DefaultParserFeedsGenerator`: every pattern the default parser accepts is one the default generator expands without throwing.

The store's exceptions are a `faults` map from keys to one of three outcomes:

- the lookup throws;
- the unique constraint rejects the save because another writer stored the key first;
- the save throws anything else.

The `*Examples` modules restate the repository's unit tests as lemmas.

## Model

| member | source | states |
|---|---|---|
| Calendar.DaysInMonth | src/main/java/com/treatment/schedulerservice/service/recurrence/DefaultOccurrenceGenerator.java:64 | lengthOfMonth is 28..31, and it is 29 exactly in February of a leap year |
| Calendar.Trichotomy | src/main/java/com/treatment/schedulerservice/service/recurrence/DefaultOccurrenceGenerator.java:99 | isBefore is a strict total order on date-times |
| Calendar.NextDay | src/main/java/com/treatment/schedulerservice/service/recurrence/DefaultOccurrenceGenerator.java:82 | plusDays(1) gives a valid, strictly later date |
| Calendar.PlusOneMonth | src/main/java/com/treatment/schedulerservice/service/recurrence/DefaultOccurrenceGenerator.java:84 | plusMonths(1) moves to the next month and clamps the day to that month's length |
| Calendar.PlusOneYear | src/main/java/com/treatment/schedulerservice/service/recurrence/DefaultOccurrenceGenerator.java:85 | plusYears(1) keeps the month, adds one to the year and gives a later valid date |
| Calendar.PlusHours | src/main/java/com/treatment/schedulerservice/service/TreatmentSchedulerService.java:41 | now.plusHours(h) is a valid date-time with the same minute, second and nano, exactly h hours later counted in epoch days times 24 plus the hour |
| Calendar.ClampRange | src/main/java/com/treatment/schedulerservice/service/recurrence/DefaultOccurrenceGenerator.java:91 | min(max(d, 1), last) keeps an in-range day, maps below 1 to 1 and past the end to the last day |
| Calendar.FallsOnIff | src/main/java/com/treatment/schedulerservice/service/recurrence/DefaultOccurrenceGenerator.java:61 | the weekday test agrees with the computed day of the week |
| Calendar.NextWeekdayIsNearest | src/main/java/com/treatment/schedulerservice/service/recurrence/DefaultOccurrenceGenerator.java:83 | TemporalAdjusters.next gives the nearest strictly later date on that weekday, 1 to 7 days ahead |
| Calendar.EpochDayOfPlusDays | src/main/java/com/treatment/schedulerservice/service/recurrence/DefaultOccurrenceGenerator.java:82 | n daily steps advance the epoch day by exactly n |
| Calendar.EpochDayOfPrevDay | src/main/java/com/treatment/schedulerservice/service/TreatmentSchedulerService.java:41 | one calendar day back is exactly one epoch day back |
| Calendar.EpochDayOfShiftDays | src/main/java/com/treatment/schedulerservice/service/TreatmentSchedulerService.java:41 | shifting by n days, forward or back, moves the epoch day by exactly n |
| Text.Trim | src/main/java/com/treatment/schedulerservice/service/recurrence/DefaultRecurrencePatternParser.java:20 | trim leaves no control or space character at either end |
| Text.TrimEmptyIff | src/main/java/com/treatment/schedulerservice/service/recurrence/DefaultRecurrencePatternParser.java:20 | the trimmed text is empty iff every character is at most a space |
| Text.Split | src/main/java/com/treatment/schedulerservice/service/recurrence/DefaultRecurrencePatternParser.java:24 | no piece of split contains the separator |
| Text.JoinPieces | src/main/java/com/treatment/schedulerservice/service/recurrence/DefaultRecurrencePatternParser.java:84-85 | joining the pieces of a split with the separator gives the text back |
| Text.PiecesOfJoin | src/main/java/com/treatment/schedulerservice/service/recurrence/DefaultRecurrencePatternParser.java:84-85 | splitting a join of separator-free pieces gives the pieces back |
| Text.SplitKeepsAllPieces | src/main/java/com/treatment/schedulerservice/service/recurrence/DefaultRecurrencePatternParser.java:24 | split drops nothing when the text does not end with the separator |
| Text.ToUpper | src/main/java/com/treatment/schedulerservice/service/recurrence/DefaultRecurrencePatternParser.java:30 | toUpperCase keeps the length, maps each ASCII lower-case letter to its upper-case letter and keeps every other character |
| Text.ParseInt | src/main/java/com/treatment/schedulerservice/service/recurrence/DefaultRecurrencePatternParser.java:65 | parseInt accepts only an optionally signed ASCII digit string whose value fits in an int |
| Text.ParseIntDecimal | src/main/java/com/treatment/schedulerservice/service/recurrence/DefaultRecurrencePatternParser.java:65 | parseInt of a decimal rendering of n in int range gives n |
| Pattern.Daily | src/main/java/com/treatment/schedulerservice/helper/RecurrencePattern.java:24-29 | daily(times) is a DAILY pattern with exactly those times and no day fields |
| Pattern.Weekly | src/main/java/com/treatment/schedulerservice/helper/RecurrencePattern.java:31-37 | weekly(d, times) is a WEEKLY pattern with that weekday and times |
| Pattern.Monthly | src/main/java/com/treatment/schedulerservice/helper/RecurrencePattern.java:39-45 | monthly(n, times) is a MONTHLY pattern with that day of month and times |
| Pattern.Once | src/main/java/com/treatment/schedulerservice/helper/RecurrencePattern.java:47-52 | once(times) is a ONCE pattern with exactly those times |
| Pattern.WellFormedIsFactoryMade | src/main/java/com/treatment/schedulerservice/helper/RecurrencePattern.java:24-52 | every pattern with exactly its kind's fields is what one of the factories builds |
| Parser.KindNamed | src/main/java/com/treatment/schedulerservice/service/recurrence/DefaultRecurrencePatternParser.java:30 | RecurrenceType.valueOf accepts only a constant's exact name |
| Parser.KindNameRoundTrip | src/main/java/com/treatment/schedulerservice/service/recurrence/DefaultRecurrencePatternParser.java:30 | upper-casing a kind's name and looking it up gives the kind |
| Parser.DayOfWeekNamed | src/main/java/com/treatment/schedulerservice/service/recurrence/DefaultRecurrencePatternParser.java:56 | DayOfWeek.valueOf accepts only a constant's exact name |
| Parser.DayOfWeekNameRoundTrip | src/main/java/com/treatment/schedulerservice/service/recurrence/DefaultRecurrencePatternParser.java:56 | upper-casing a weekday's name and looking it up gives the weekday |
| Parser.ParseTime | src/main/java/com/treatment/schedulerservice/service/recurrence/DefaultRecurrencePatternParser.java:87 | LocalTime.parse gives a valid clock time or fails |
| Parser.TimeRoundTrip | src/main/java/com/treatment/schedulerservice/service/recurrence/DefaultRecurrencePatternParser.java:87 | LocalTime.parse reads back a whole-minute time written as HH:MM |
| Parser.ParseEach | src/main/java/com/treatment/schedulerservice/service/recurrence/DefaultRecurrencePatternParser.java:86-88 | the time loop succeeds iff every token parses, keeps token order, and otherwise names a token that does not parse |
| Parser.TimesFromParts | src/main/java/com/treatment/schedulerservice/service/recurrence/DefaultRecurrencePatternParser.java:81-94 | parseTimesFromParts succeeds iff there is at least one comma-separated token and every trimmed token parses; the i-th time is the parse of the i-th trimmed token; a failure names no times or a token that does not parse |
| Parser.ParseTimesFromParts | src/main/java/com/treatment/schedulerservice/service/recurrence/DefaultRecurrencePatternParser.java:81-94 | the imperative token loop computes TimesFromParts |
| Parser.TokensOfBody | src/main/java/com/treatment/schedulerservice/service/recurrence/DefaultRecurrencePatternParser.java:84-85 | re-joining the segments after the kind and re-splitting on ',' gives the written time tokens |
| Parser.ParseWrittenTimes | src/main/java/com/treatment/schedulerservice/service/recurrence/DefaultRecurrencePatternParser.java:86-88 | the trimmed written tokens parse back to the times |
| Parser.TimesRoundTrip | src/main/java/com/treatment/schedulerservice/service/recurrence/DefaultRecurrencePatternParser.java:81-94 | parseTimesFromParts on the segments of a written time list gives the times back |
| Parser.ParseDaily | src/main/java/com/treatment/schedulerservice/service/recurrence/DefaultRecurrencePatternParser.java:44-50 | parseDaily succeeds iff there are 3 segments and the times parse; the result is a usable DAILY pattern carrying exactly the times parsed from segment 1 on; too few segments is MissingSegments |
| Parser.ParseWeekly | src/main/java/com/treatment/schedulerservice/service/recurrence/DefaultRecurrencePatternParser.java:52-59 | parseWeekly succeeds iff there are 4 segments, the upper-cased segment 1 names a weekday and the times parse; the result carries that weekday and the times from segment 2 on; too few segments and an unknown weekday are reported |
| Parser.ParseMonthly | src/main/java/com/treatment/schedulerservice/service/recurrence/DefaultRecurrencePatternParser.java:61-71 | parseMonthly succeeds iff there are 4 segments, segment 1 is an int in 1..31 and the times parse; the result's day is that int and its times those from segment 2 on; too few segments and a non-number are reported |
| Parser.ParseOnce | src/main/java/com/treatment/schedulerservice/service/recurrence/DefaultRecurrencePatternParser.java:73-79 | parseOnce succeeds iff there are 3 segments and the times parse; the result is a usable ONCE pattern carrying exactly the times parsed from segment 1 on; too few segments is MissingSegments |
| Parser.ParseUndatedParts | src/main/java/com/treatment/schedulerservice/service/recurrence/DefaultRecurrencePatternParser.java:44-50 | parseDaily and parseOnce read back the segments of a written time list |
| Parser.ParseWeeklyParts | src/main/java/com/treatment/schedulerservice/service/recurrence/DefaultRecurrencePatternParser.java:52-59 | parseWeekly reads back a weekday name followed by a written time list |
| Parser.ParseMonthlyParts | src/main/java/com/treatment/schedulerservice/service/recurrence/DefaultRecurrencePatternParser.java:61-71 | parseMonthly reads back a day number in 1..31 followed by a written time list |
| Parser.ParseKind | src/main/java/com/treatment/schedulerservice/service/recurrence/DefaultRecurrencePatternParser.java:32-37 | the switch returns a usable pattern of the named kind with enough segments |
| Parser.ParseUndatedOfParts | src/main/java/com/treatment/schedulerservice/service/recurrence/DefaultRecurrencePatternParser.java:32-37 | the switch reads back the segments of a written DAILY or ONCE pattern |
| Parser.ParseWeeklyOfParts | src/main/java/com/treatment/schedulerservice/service/recurrence/DefaultRecurrencePatternParser.java:32-37 | the switch reads back the segments of a written WEEKLY pattern |
| Parser.ParseMonthlyOfParts | src/main/java/com/treatment/schedulerservice/service/recurrence/DefaultRecurrencePatternParser.java:32-37 | the switch reads back the segments of a written MONTHLY pattern |
| Parser.Rethrow | src/main/java/com/treatment/schedulerservice/service/recurrence/DefaultRecurrencePatternParser.java:38-41 | the catch rethrows every IllegalArgumentException with the raw text and lets a DateTimeParseException pass |
| Parser.ParseSegments | src/main/java/com/treatment/schedulerservice/service/recurrence/DefaultRecurrencePatternParser.java:29-41 | after the split: success means a usable pattern whose kind the first segment names; failures carry the raw text |
| Parser.ParseText | src/main/java/com/treatment/schedulerservice/service/recurrence/DefaultRecurrencePatternParser.java:24-41 | fewer than two segments is an invalid format; otherwise the result comes from the segments |
| Parser.KindCaseIgnored | src/main/java/com/treatment/schedulerservice/service/recurrence/DefaultRecurrencePatternParser.java:30 | first segments that upper-case alike give the same parse result |
| Parser.WeekdayCaseIgnored | src/main/java/com/treatment/schedulerservice/service/recurrence/DefaultRecurrencePatternParser.java:56 | in a weekly pattern, weekday segments that upper-case alike give the same parse result |
| Parser.Parse | src/main/java/com/treatment/schedulerservice/service/recurrence/DefaultRecurrencePatternParser.java:19-42 | null or blank input fails iff it is rejected as empty; success is a usable pattern read from the segments; each error carries the raw text |
| Parser.ParseFormat | src/main/java/com/treatment/schedulerservice/service/recurrence/DefaultRecurrencePatternParser.java:19-42 | round trip: parsing the written form of any whole-minute pattern gives the pattern back |
| ParserExamples.ParsesDaily | src/test/java/com/treatment/schedulerservice/unit/recurrence/DefaultRecurrencePatternParserTest.java:21-27 | "DAILY:08:00,16:00" is DAILY at 08:00 and 16:00 |
| ParserExamples.ParsesWeekly | src/test/java/com/treatment/schedulerservice/unit/recurrence/DefaultRecurrencePatternParserTest.java:29-35 | "WEEKLY:MONDAY:12:00" is WEEKLY on MONDAY at 12:00 |
| ParserExamples.ParsesMonthly | src/test/java/com/treatment/schedulerservice/unit/recurrence/DefaultRecurrencePatternParserTest.java:37-43 | "MONTHLY:15:09:00" is MONTHLY on day 15 at 09:00 |
| ParserExamples.ParsesOnce | src/test/java/com/treatment/schedulerservice/unit/recurrence/DefaultRecurrencePatternParserTest.java:45-50 | "ONCE:10:30" is ONCE at 10:30 |
| ParserExamples.RejectsNullAndEmpty | src/test/java/com/treatment/schedulerservice/unit/recurrence/DefaultRecurrencePatternParserTest.java:52-57 | null and "" are rejected |
| ParserExamples.InvalidIsUnknownWord | src/test/java/com/treatment/schedulerservice/unit/recurrence/DefaultRecurrencePatternParserTest.java:52-57 | "INVALID" names no recurrence kind |
| ParserExamples.RejectsInvalidPattern | src/test/java/com/treatment/schedulerservice/unit/recurrence/DefaultRecurrencePatternParserTest.java:52-57 | "INVALID:PATTERN" is rejected as an unknown kind, reported with the raw text |
| ParserExamples.KindWordCaseIgnored | src/main/java/com/treatment/schedulerservice/service/recurrence/DefaultRecurrencePatternParser.java:30 | two texts whose kind words upper-case alike parse to the same pattern, or both fail |
| ParserExamples.ParsesLowerCaseDaily | src/main/java/com/treatment/schedulerservice/service/recurrence/DefaultRecurrencePatternParser.java:30 | "daily:08:00" parses to DAILY at 08:00 |
| ParserExamples.ParsesDailyAtEight | src/main/java/com/treatment/schedulerservice/service/recurrence/DefaultRecurrencePatternParser.java:44-50 | "DAILY:08:00" parses to DAILY at 08:00 |
| ParserExamples.RejectsUnknownKind | src/test/java/com/treatment/schedulerservice/unit/recurrence/DefaultRecurrencePatternParserTest.java:52-57 | an upper-case word that names no kind, such as "INVALID:PATTERN", is rejected with the raw text |
| ParserExamples.RejectsMonthlyDay | src/test/java/com/treatment/schedulerservice/unit/recurrence/DefaultRecurrencePatternParserTest.java:59-63 | MONTHLY with day 0 or above 31, such as "MONTHLY:32:10:00", is rejected as out of range |
| Generator.WithinWindowIff | src/main/java/com/treatment/schedulerservice/service/recurrence/DefaultOccurrenceGenerator.java:95-103 | isWithinWindow admits exactly [from, to) and not after the plan's end (the end is inclusive) |
| Generator.AdjustToValidMonthlyDate | src/main/java/com/treatment/schedulerservice/service/recurrence/DefaultOccurrenceGenerator.java:89-93 | the same month and time, on the desired day clamped to 1..length of month |
| Generator.OccurrencesForDate | src/main/java/com/treatment/schedulerservice/service/recurrence/DefaultOccurrenceGenerator.java:56-78 | every pattern time on that date when the pattern fires on it, otherwise nothing |
| Generator.NextCalculationDate | src/main/java/com/treatment/schedulerservice/service/recurrence/DefaultOccurrenceGenerator.java:80-87 | the next examined date is strictly later, valid and at the same clock time |
| Generator.FirstCalculationDate | src/main/java/com/treatment/schedulerservice/service/recurrence/DefaultOccurrenceGenerator.java:32-35 | the first examined date is valid and keeps from's clock time |
| Generator.Admitted | src/main/java/com/treatment/schedulerservice/service/recurrence/DefaultOccurrenceGenerator.java:44-48 | the filter keeps only candidates inside the window |
| Generator.AddAdmitted | src/main/java/com/treatment/schedulerservice/service/recurrence/DefaultOccurrenceGenerator.java:44-48 | the inner for loop appends exactly the admitted candidates, in order |
| Generator.CollectOccurrences | src/main/java/com/treatment/schedulerservice/service/recurrence/DefaultOccurrenceGenerator.java:40-51 | the while loop computes the recursive sweep over at most 1000 dates |
| Generator.Generate | src/main/java/com/treatment/schedulerservice/service/recurrence/DefaultOccurrenceGenerator.java:17-54 | generate computes Occurrences |
| GeneratorProperties.AdmittedFire | src/main/java/com/treatment/schedulerservice/service/recurrence/DefaultOccurrenceGenerator.java:43-48 | each admitted candidate lies on the examined date, inside the window, at a pattern time the pattern fires on |
| GeneratorProperties.AdmittedOnDate | src/main/java/com/treatment/schedulerservice/service/recurrence/DefaultOccurrenceGenerator.java:72-74 | each candidate of a date lies on that date |
| GeneratorProperties.SweepFires | src/main/java/com/treatment/schedulerservice/service/recurrence/DefaultOccurrenceGenerator.java:40-51 | the loop adds only in-window firings of the pattern |
| GeneratorProperties.RepeatingFires | src/main/java/com/treatment/schedulerservice/service/recurrence/DefaultOccurrenceGenerator.java:32-53 | every DAILY, WEEKLY or MONTHLY occurrence is an in-window firing |
| GeneratorProperties.OnceOccurrences | src/main/java/com/treatment/schedulerservice/service/recurrence/DefaultOccurrenceGenerator.java:24-30 | ONCE yields the plan start date at the first time, exactly when that is inside the window, and nothing else |
| GeneratorProperties.OccurrencesInWindow | src/main/java/com/treatment/schedulerservice/service/recurrence/DefaultOccurrenceGenerator.java:17-54 | every occurrence is a valid date-time in [from, to), not after the plan's end, at one of the pattern's times |
| GeneratorProperties.WeeklyOnWeekday | src/main/java/com/treatment/schedulerservice/service/recurrence/DefaultOccurrenceGenerator.java:61 | every WEEKLY occurrence falls on the pattern's weekday |
| GeneratorProperties.MonthlyOnDay | src/main/java/com/treatment/schedulerservice/service/recurrence/DefaultOccurrenceGenerator.java:62-67 | every MONTHLY occurrence falls on the desired day, clamped to the month's length |
| GeneratorProperties.SweepLength | src/main/java/com/treatment/schedulerservice/service/recurrence/DefaultOccurrenceGenerator.java:37-41 | the loop adds at most one date's worth of times per remaining iteration |
| GeneratorProperties.OccurrencesBound | src/main/java/com/treatment/schedulerservice/service/recurrence/DefaultOccurrenceGenerator.java:37-51 | at most 1000 times the number of pattern times occurrences |
| GeneratorProperties.SweepInOrder | src/main/java/com/treatment/schedulerservice/service/recurrence/DefaultOccurrenceGenerator.java:40-51 | the loop keeps the list in date order |
| GeneratorProperties.OccurrencesInOrder | src/main/java/com/treatment/schedulerservice/service/recurrence/DefaultOccurrenceGenerator.java:17-54 | the returned list is in date order, and two occurrences on the same date carry pattern times at increasing positions of the pattern's list |
| Generator.AdmittedKeepsOrder | src/main/java/com/treatment/schedulerservice/service/recurrence/DefaultOccurrenceGenerator.java:44-48 | the window filter returns a subsequence of a date's candidates: any two results are candidates at increasing positions |
| GeneratorProperties.ChunkTimesInOrder | src/main/java/com/treatment/schedulerservice/service/recurrence/DefaultOccurrenceGenerator.java:43-48 | the admitted candidates of one date follow the order of the pattern's times |
| GeneratorProperties.AppendTimesInOrder | src/main/java/com/treatment/schedulerservice/service/recurrence/DefaultOccurrenceGenerator.java:40-51 | appending one date's occurrences after strictly earlier dates keeps the within-date order |
| GeneratorProperties.SweepTimesInOrder | src/main/java/com/treatment/schedulerservice/service/recurrence/DefaultOccurrenceGenerator.java:40-51 | the while loop keeps the within-date order of pattern times |
| GeneratorProperties.DailyStep | src/main/java/com/treatment/schedulerservice/service/recurrence/DefaultOccurrenceGenerator.java:82 | DAILY steps to the next day |
| GeneratorProperties.WeeklyStep | src/main/java/com/treatment/schedulerservice/service/recurrence/DefaultOccurrenceGenerator.java:83 | WEEKLY steps 1..7 days ahead to the pattern's weekday and skips no such day |
| GeneratorProperties.MonthlyStep | src/main/java/com/treatment/schedulerservice/service/recurrence/DefaultOccurrenceGenerator.java:84 | MONTHLY steps to the next month, on the clamped day |
| GeneratorProperties.SweepKeeps | src/main/java/com/treatment/schedulerservice/service/recurrence/DefaultOccurrenceGenerator.java:46 | the loop never removes an occurrence it has added |
| GeneratorProperties.AdmittedKeeps | src/main/java/com/treatment/schedulerservice/service/recurrence/DefaultOccurrenceGenerator.java:44-48 | every in-window candidate is admitted |
| GeneratorProperties.SweepUnfold | src/main/java/com/treatment/schedulerservice/service/recurrence/DefaultOccurrenceGenerator.java:40-51 | one loop iteration adds the date's admitted candidates and moves to the next date |
| GeneratorProperties.CollectedOnCurrent | src/main/java/com/treatment/schedulerservice/service/recurrence/DefaultOccurrenceGenerator.java:43-48 | an in-window firing on the examined date is in the result |
| GeneratorProperties.DailySweepComplete | src/main/java/com/treatment/schedulerservice/service/recurrence/DefaultOccurrenceGenerator.java:40-51 | for DAILY, every in-window firing on a date the loop reaches is collected |
| GeneratorProperties.DailySweepSound | src/main/java/com/treatment/schedulerservice/service/recurrence/DefaultOccurrenceGenerator.java:40-51 | for DAILY, every collected occurrence lies on a date the loop reaches |
| GeneratorProperties.DailySound | src/main/java/com/treatment/schedulerservice/service/recurrence/DefaultOccurrenceGenerator.java:17-54 | every DAILY occurrence lies on an examined date, at a pattern time, inside the window |
| GeneratorProperties.DailyComplete | src/main/java/com/treatment/schedulerservice/service/recurrence/DefaultOccurrenceGenerator.java:17-54 | every in-window pattern time on an examined date is returned for DAILY |
| GeneratorExamples.DailyTwoDays | src/test/java/com/treatment/schedulerservice/unit/recurrence/DefaultOccurrenceGeneratorTest.java:21-30 | 08:00 and 16:00 over two days gives the four date-times in order |
| GeneratorExamples.NewYear2024IsMonday | src/test/java/com/treatment/schedulerservice/unit/recurrence/DefaultOccurrenceGeneratorTest.java:74-83 | 1 January 2024 is a Monday |
| GeneratorExamples.February2024StartsOnThursday | src/test/java/com/treatment/schedulerservice/unit/recurrence/DefaultOccurrenceGeneratorTest.java:32-36 | 1 February 2024 is a Thursday |
| GeneratorExamples.WeeklyTwoSteps | src/test/java/com/treatment/schedulerservice/unit/recurrence/DefaultOccurrenceGeneratorTest.java:32-57 | from a date on the weekday up to two weekday steps later there are exactly two occurrences |
| GeneratorExamples.WeeklyStep | src/main/java/com/treatment/schedulerservice/service/recurrence/DefaultOccurrenceGenerator.java:40-51 | one pass of the loop for WEEKLY on a date that falls on the weekday and lies in the window adds that date's occurrence and moves on to the next date on the weekday, which is later |
| GeneratorExamples.WeeklyLastPass | src/main/java/com/treatment/schedulerservice/service/recurrence/DefaultOccurrenceGenerator.java:40-51 | when the window ends on the next date on the weekday, the pass adds exactly this date's occurrence and the loop stops |
| GeneratorExamples.WeeklyLastTwoPasses | src/main/java/com/treatment/schedulerservice/service/recurrence/DefaultOccurrenceGenerator.java:40-51 | from a date on the weekday, two passes add that date's and the next week's occurrences, after whatever was collected before, and the loop stops |
| GeneratorExamples.WeeklyThreeSweep | src/main/java/com/treatment/schedulerservice/service/recurrence/DefaultOccurrenceGenerator.java:40-51 | from a date on the weekday, three passes add the occurrences of that date and of the next two weeks, after whatever was collected before |
| GeneratorExamples.WeeklyThreeSteps | src/test/java/com/treatment/schedulerservice/unit/recurrence/DefaultOccurrenceGeneratorTest.java:32-57 | from a date on the weekday up to three weekday steps later there are exactly three occurrences |
| GeneratorExamples.ThursdaysOfFebruary2024 | src/test/java/com/treatment/schedulerservice/unit/recurrence/DefaultOccurrenceGeneratorTest.java:35 | THURSDAY at 07:30 from 2024-02-01 to 2024-02-22 gives the 1st, 8th and 15th |
| GeneratorExamples.WeeklyTwoWeeks | src/test/java/com/treatment/schedulerservice/unit/recurrence/DefaultOccurrenceGeneratorTest.java:74-83 | a 14-day window starting on the weekday gives that day and the one a week later |
| GeneratorExamples.MonthlyFirstQuarter | src/test/java/com/treatment/schedulerservice/unit/recurrence/DefaultOccurrenceGeneratorTest.java:59-72 | day 31 over January to March gives 31 Jan, the last day of February (28 or 29) and 31 Mar |
| GeneratorExamples.OnceOnPlanStartDate | src/test/java/com/treatment/schedulerservice/unit/recurrence/DefaultOccurrenceGeneratorTest.java:94-103 | ONCE at 10:30 yields the plan start date at 10:30 |
| GeneratorExamples.PlanEndCutsOff | src/test/java/com/treatment/schedulerservice/unit/recurrence/DefaultOccurrenceGeneratorTest.java:105-114 | with the plan ending at midnight of day 3, day 2 at 08:00 is returned and day 3 at 08:00 is not |
| Scheduler.ActiveValidPlans | src/main/java/com/treatment/schedulerservice/repository/TreatmentPlanRepository.java:14-17 | the query returns exactly the plans that are active, started at or before now and not yet ended (end absent or after now) |
| Scheduler.TaskStore.FindByTreatmentPlanIdAndStartTime | src/main/java/com/treatment/schedulerservice/repository/TreatmentTaskRepository.java:16-20 | the task stored under (plan id, start time), none, or the lookup's exception |
| Scheduler.TaskStore.Save | src/main/java/com/treatment/schedulerservice/entity/TreatmentTask.java:16-21 | a save stores the task unless the unique constraint rejects it or it fails; otherwise the table is unchanged; the store keeps every row under its own (plan id, start time) key |
| Scheduler.TreatmentSchedulerService.GenerateTasksNow | src/main/java/com/treatment/schedulerservice/service/TreatmentSchedulerService.java:38-53 | the new table and the returned total are those of Run: the selected plans one after another over [now, now + lookAheadHours) |
| Scheduler.TreatmentSchedulerService.GenerateTasksForPlan | src/main/java/com/treatment/schedulerservice/service/TreatmentSchedulerService.java:55-79 | the new table and the count are those of PlanRun: parse, generate, then the occurrence loop, with 0 on any exception |
| Scheduler.TreatmentSchedulerService.CreateTreatmentTask | src/main/java/com/treatment/schedulerservice/service/TreatmentSchedulerService.java:81-96 | saves the plan's ACTIVE task at the start time, swallows a unique-constraint rejection, and reports any other failure |
| SchedulerProperties.PlanRunByOccurrences | src/main/java/com/treatment/schedulerservice/service/TreatmentSchedulerService.java:55-79 | a plan whose pattern fails to parse or expand leaves the table unchanged and counts 0; otherwise the table is the occurrence loop's |
| SchedulerProperties.CreateTasksInserts | src/main/java/com/treatment/schedulerservice/service/TreatmentSchedulerService.java:62-67 | the loop only inserts, each new row is the plan's task at one of the occurrences under its own key, and an aborted loop keeps its earlier inserts |
| SchedulerProperties.CreateTasksCounts | src/main/java/com/treatment/schedulerservice/service/TreatmentSchedulerService.java:62-67 | with a store that raises nothing, the loop finishes and counts exactly the rows it adds |
| SchedulerProperties.CreateTasksMaterializes | src/main/java/com/treatment/schedulerservice/service/TreatmentSchedulerService.java:62-67 | with a store that raises nothing, every occurrence ends with a row |
| SchedulerProperties.CreateTasksSkipsStored | src/main/java/com/treatment/schedulerservice/service/TreatmentSchedulerService.java:62-67 | deduplication: occurrences that all have rows change nothing and count nothing |
| SchedulerProperties.PlanRunInserts | src/main/java/com/treatment/schedulerservice/service/TreatmentSchedulerService.java:55-79 | one plan only inserts, and each new row is its own ACTIVE task at one of the occurrences its pattern expands to; with a generator that keeps to the window (DefaultGeneratesWithin), that start lies in the window and not after the plan's end |
| SchedulerProperties.PlanRunCovers | src/main/java/com/treatment/schedulerservice/service/TreatmentSchedulerService.java:55-79 | when the store raises nothing for the plan's own keys, a plan that parses and expands has a row for each occurrence |
| SchedulerProperties.CreateTasksUnfaulted | src/main/java/com/treatment/schedulerservice/service/TreatmentSchedulerService.java:62-67 | the loop behaves as with a faultless store when no key of the plan is faulty |
| SchedulerProperties.CreateTasksCountsRejections | src/main/java/com/treatment/schedulerservice/service/TreatmentSchedulerService.java:62-67 | when the only fault is a rejected save, the loop finishes and counts the rows it adds plus each occurrence whose save was rejected |
| SchedulerProperties.PlanRunCountsRejections | src/main/java/com/treatment/schedulerservice/service/TreatmentSchedulerService.java:55-79 | when the only fault is a rejected save, a plan's count is its added rows plus its rejected saves |
| SchedulerProperties.RunPlansInserts | src/main/java/com/treatment/schedulerservice/service/TreatmentSchedulerService.java:46-49 | the plan loop only inserts; each new row is the task of one of the remaining plans at one of that plan's occurrences, inside the window when the generator keeps to it; the total never drops |
| SchedulerProperties.RunPlansCounts | src/main/java/com/treatment/schedulerservice/service/TreatmentSchedulerService.java:46-49 | with a store that raises nothing, the total equals the number of rows added |
| SchedulerProperties.RunPlansCovers | src/main/java/com/treatment/schedulerservice/service/TreatmentSchedulerService.java:46-49 | failure isolation: every remaining plan that parses and expands, and for whose keys the store raises nothing, ends covered, whatever the other plans and the store do for them |
| SchedulerProperties.RunPlansSkipsCovered | src/main/java/com/treatment/schedulerservice/service/TreatmentSchedulerService.java:46-49 | plans that are already covered change nothing and add nothing |
| SchedulerProperties.RunInserts | src/main/java/com/treatment/schedulerservice/service/TreatmentSchedulerService.java:38-53 | a run only inserts, and every new row is the ACTIVE task of a selected plan at one of that plan's occurrences; with a generator that keeps to the window (DefaultGeneratesWithin), that start is in [now, now + lookAheadHours) and not after the plan's end |
| SchedulerProperties.RunCounts | src/main/java/com/treatment/schedulerservice/service/TreatmentSchedulerService.java:38-53 | with a store that raises nothing, the returned total is the number of rows added |
| SchedulerProperties.RunCovers | src/main/java/com/treatment/schedulerservice/service/TreatmentSchedulerService.java:38-53 | every selected plan that parses and expands, and for whose keys the store raises nothing, has all its occurrences stored |
| SchedulerProperties.RunIdempotent | src/main/java/com/treatment/schedulerservice/service/TreatmentSchedulerService.java:38-53 | after a first run whose store raised nothing, a second run at the same now changes nothing and returns 0, whatever the store raises in the second run |
| SchedulerProperties.NothingSelected | src/main/java/com/treatment/schedulerservice/repository/TreatmentPlanRepository.java:14-17 | the query returns no plan when none meets its condition |
| SchedulerProperties.RunWithoutActivePlans | src/main/java/com/treatment/schedulerservice/service/TreatmentSchedulerService.java:43-52 | with no active plan a run leaves the table unchanged and returns 0 |
| SchedulerProperties.DefaultGeneratesWithin | src/main/java/com/treatment/schedulerservice/service/recurrence/DefaultOccurrenceGenerator.java:95-103 | the default generator returns only occurrences in the window and not after the plan's end |
| SchedulerProperties.ParsedIsGenerable | src/main/java/com/treatment/schedulerservice/service/recurrence/DefaultRecurrencePatternParser.java:19-42 | every pattern the parser returns has what generate needs |
| SchedulerProperties.DefaultParserFeedsGenerator | src/main/java/com/treatment/schedulerservice/service/RecurrencePatternService.java:19-29 | a plan whose pattern the default parser accepts is expanded by the default generator without an exception |
| SchedulerExamples.SinglePlanRun | src/main/java/com/treatment/schedulerservice/service/TreatmentSchedulerService.java:46-49 | a run with one active plan is that plan's run over the window |
| SchedulerExamples.GeneratesTaskForOccurrenceWithinWindow | src/test/java/com/treatment/schedulerservice/unit/service/TreatmentSchedulerServiceTest.java:61-80 | one fresh occurrence gives one ACTIVE task of the plan at that time, and the run returns 1 |
| SchedulerExamples.DoesNotCreateDuplicateIfTaskExists | src/test/java/com/treatment/schedulerservice/unit/service/TreatmentSchedulerServiceTest.java:82-96 | an occurrence that already has a task saves nothing and returns 0 |
| SchedulerExamples.HandlesUniqueConstraintViolationGracefully | src/test/java/com/treatment/schedulerservice/unit/service/TreatmentSchedulerServiceTest.java:98-113 | a save the unique constraint rejects is swallowed and counted: returns 1, the table is unchanged |
| SchedulerExamples.AllowsOccurrenceExactlyAtEndTime | src/test/java/com/treatment/schedulerservice/unit/service/TreatmentSchedulerServiceTest.java:115-138 | an occurrence at the plan's end time becomes a task |
| SchedulerExamples.FailedLookupEndsThePlan | src/main/java/com/treatment/schedulerservice/service/TreatmentSchedulerService.java:62-78 | a lookup exception on the second occurrence makes the plan count 0; the first occurrence's task stays stored |

## Left out

- The clock, the plan table and the look-ahead setting are parameters. `now` stands for `LocalDateTime.now()`, and the plan sequence stands for the rows of treatment_plans.
- Logging is left out, as are the `@Scheduled` trigger (`generateScheduledTasks`) and the controller that calls `generateTasksNow`.
- `@Transactional` commit and rollback semantics are left out. Each successful save is kept.
  - In particular, a lookup or save exception inside a plan does not undo that plan's earlier inserts.
  - Spring marking the transaction rollback-only after a repository exception is not modelled.
- Concurrency is left out. Another writer appears only as the `faults` map:
  - a `SaveRejected` key stands for a row a concurrent run stored first;
  - that row itself is not added to the model's table.
- Generated ids and the `createdAt`/`updatedAt`/`completedAt` timestamps are left out. So are the `TreatmentAction` enum, which is modelled as its name, and the `TaskStatus` constants other than ACTIVE.
- The database's order of plans is taken as the sequence's order. The query condition is modelled exactly.
- Scheduler.TreatmentSchedulerService.GenerateTasksForPlan: the generator is called as a function value, not through the imperative `Generator.Generate`. `Generate` is proved equal to `Occurrences`, which `DefaultGenerator` returns.
- Generator.Generate: requires the arguments on which the Java code does not throw (`Arguments`); `DefaultGenerator` returns None for the others.
  - The Java throws a NullPointerException or NoSuchElementException for ONCE without times or plan start, and for MONTHLY without a day.
  - WEEKLY without a weekday is also treated as throwing. The Java throws only when the loop runs at least once.
  - A pattern with an extra field its kind does not use is also treated as throwing.
  - The parser never produces any of these patterns.
- Generator.Occurrences: `LocalDate` year limits (±999,999,999) are not modelled; years are unbounded integers.
- Parser.ParseTime: `LocalTime.parse` is modelled for `HH:MM` and `HH:MM:SS` only. Fractional seconds are left out and rejected.
- Text.ParseInt: ASCII digits only; Unicode decimal digits, which `Integer.parseInt` also accepts, are rejected.
- Text.ToUpper: only ASCII letters are upper-cased. Unicode case mapping is left out.
- Text.Trim: removes characters at or below U+0020, as `String.trim` does. Other Unicode whitespace is not special.
- The exception messages are modelled as error constructors carrying the raw text and the cause, not as message strings.
- SchedulerProperties.RunPlansCounts: the run's total is related to the rows added only for a store that raises nothing. With rejected saves the count is proved plan by plan, in PlanRunCountsRejections.
- Counts are unbounded naturals. A Java `int` overflow of the total would need over 2^31 tasks in one run and is not modelled.
- The unit tests' Mockito verifications of call counts are stated as table contents. For example, "save is never called" becomes "the table is unchanged".
- The generator examples are stated for any year or date, or for the dates of the tests.
