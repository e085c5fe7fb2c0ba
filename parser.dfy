/**
 * The recurrence pattern parser: text of the form KIND:[WEEKDAY:|DAY:]HH:MM[,HH:MM...]
 * to a RecurrencePattern, or the exception the parser throws.
 */
module Parser {
  import opened Wrappers
  import opened Calendar
  import opened Text
  import opened Pattern

  /** Why a step inside the parser's try block gave up. */
  datatype Cause =
    | UnknownKind(name: string)            // RecurrenceType.valueOf found no constant
    | MissingSegments(kind: RecurrenceType) // too few ':'-segments for the kind
    | UnknownWeekday(name: string)         // DayOfWeek.valueOf found no constant
    | NotANumber(text: string)             // Integer.parseInt threw NumberFormatException
    | DayOutOfRange(day: int)              // day of month outside 1..31
    | NoTimes                              // no time token at all
    | BadTime(text: string)                // LocalTime.parse threw DateTimeParseException

  /** What leaves parse(). */
  datatype ParseError =
    | NullOrEmpty                                    // null or blank input, thrown before the try
    | InvalidFormat(pattern: string)                 // fewer than two segments, thrown before the try
    | InvalidPattern(pattern: string, cause: Cause)  // an IllegalArgumentException, rethrown with the raw text
    | UnparsableTime(text: string)                   // a DateTimeParseException, which the catch does not wrap

  // ---------------------------------------------------------------------------
  // Enum names

  function KindName(k: RecurrenceType): string {
    match k
    case ONCE => "ONCE"
    case DAILY => "DAILY"
    case WEEKLY => "WEEKLY"
    case MONTHLY => "MONTHLY"
  }

  /** RecurrenceType.valueOf: exact constant names only. */
  function KindNamed(name: string): (r: Option<RecurrenceType>)
    ensures r.Some? ==> KindName(r.value) == name
  {
    if name == "ONCE" then Some(ONCE)
    else if name == "DAILY" then Some(DAILY)
    else if name == "WEEKLY" then Some(WEEKLY)
    else if name == "MONTHLY" then Some(MONTHLY)
    else None
  }

  function DayOfWeekName(d: DayOfWeek): string {
    match d
    case MONDAY => "MONDAY"
    case TUESDAY => "TUESDAY"
    case WEDNESDAY => "WEDNESDAY"
    case THURSDAY => "THURSDAY"
    case FRIDAY => "FRIDAY"
    case SATURDAY => "SATURDAY"
    case SUNDAY => "SUNDAY"
  }

  /** DayOfWeek.valueOf: exact constant names only. */
  function DayOfWeekNamed(name: string): (r: Option<DayOfWeek>)
    ensures r.Some? ==> DayOfWeekName(r.value) == name
  {
    if name == "MONDAY" then Some(MONDAY)
    else if name == "TUESDAY" then Some(TUESDAY)
    else if name == "WEDNESDAY" then Some(WEDNESDAY)
    else if name == "THURSDAY" then Some(THURSDAY)
    else if name == "FRIDAY" then Some(FRIDAY)
    else if name == "SATURDAY" then Some(SATURDAY)
    else if name == "SUNDAY" then Some(SUNDAY)
    else None
  }

  /** Upper-casing a kind's name and looking it up gives the kind back. */
  lemma KindNameRoundTrip(k: RecurrenceType)
    ensures KindNamed(ToUpper(KindName(k))) == Some(k)
  {
    match k
    case ONCE => UpperKeepsUpper("ONCE");
    case DAILY => UpperKeepsUpper("DAILY");
    case WEEKLY => UpperKeepsUpper("WEEKLY");
    case MONTHLY => UpperKeepsUpper("MONTHLY");
  }

  /** Upper-casing a weekday's name and looking it up gives the weekday back. */
  lemma DayOfWeekNameRoundTrip(d: DayOfWeek)
    ensures DayOfWeekNamed(ToUpper(DayOfWeekName(d))) == Some(d)
  {
    match d
    case MONDAY => UpperKeepsUpper("MONDAY");
    case TUESDAY => UpperKeepsUpper("TUESDAY");
    case WEDNESDAY => UpperKeepsUpper("WEDNESDAY");
    case THURSDAY => UpperKeepsUpper("THURSDAY");
    case FRIDAY => UpperKeepsUpper("FRIDAY");
    case SATURDAY => UpperKeepsUpper("SATURDAY");
    case SUNDAY => UpperKeepsUpper("SUNDAY");
  }

  lemma UpperKeepsUpper(s: string)
    requires forall i :: 0 <= i < |s| ==> 'A' <= s[i] <= 'Z'
    ensures ToUpper(s) == s
  {
  }

  // ---------------------------------------------------------------------------
  // Clock times

  /**
   * LocalTime.parse for the forms HH:MM and HH:MM:SS, two ASCII digits per field,
   * hour 0-23, minute and second 0-59.
   */
  function ParseTime(text: string): (r: Option<LocalTime>)
    ensures r.Some? ==> ValidTime(r.value) && r.value.nano == 0
  {
    if (|text| == 5 || |text| == 8) && IsDigit(text[0]) && IsDigit(text[1]) && text[2] == ':'
      && IsDigit(text[3]) && IsDigit(text[4])
      && (|text| == 8 ==> text[5] == ':' && IsDigit(text[6]) && IsDigit(text[7]))
    then
      var hour := DigitValue(text[0]) * 10 + DigitValue(text[1]);
      var minute := DigitValue(text[3]) * 10 + DigitValue(text[4]);
      var second := if |text| == 8 then DigitValue(text[6]) * 10 + DigitValue(text[7]) else 0;
      if hour < 24 && minute < 60 && second < 60 then Some(LocalTime(hour, minute, second, 0)) else None
    else None
  }

  /** A clock time with whole minutes, written HH:MM. */
  function FormatTime(t: LocalTime): (s: string)
    requires ValidTime(t)
    ensures |s| == 5 && s[2] == ':' && IsDigit(s[0]) && IsDigit(s[4]) && ',' !in s
  {
    [DigitChar(t.hour / 10), DigitChar(t.hour % 10), ':', DigitChar(t.minute / 10), DigitChar(t.minute % 10)]
  }

  /** Valid clock times with no seconds, the ones HH:MM can write. */
  predicate WholeMinutes(times: seq<LocalTime>) {
    (forall i :: 0 <= i < |times| ==> ValidTime(times[i])) &&
    (forall i :: 0 <= i < |times| ==> times[i].second == 0 && times[i].nano == 0)
  }

  lemma TimeRoundTrip(t: LocalTime)
    requires ValidTime(t) && t.second == 0 && t.nano == 0
    ensures ParseTime(FormatTime(t)) == Some(t)
  {
  }

  // ---------------------------------------------------------------------------
  // The time list

  /**
   * Parses already trimmed tokens in order; the first one LocalTime.parse rejects ends the
   * list with BadTime.
   */
  function ParseEach(tokens: seq<string>): (r: Result<seq<LocalTime>, Cause>)
    ensures r.Success? <==> forall i :: 0 <= i < |tokens| ==> ParseTime(tokens[i]).Some?
    ensures r.Success? ==> (|r.value| == |tokens| &&
      forall i :: 0 <= i < |tokens| ==> Some(r.value[i]) == ParseTime(tokens[i]))
    ensures r.Failure? ==> r.error.BadTime? && r.error.text in tokens && ParseTime(r.error.text).None?
  {
    if |tokens| == 0 then Success([])
    else
      match ParseTime(tokens[0])
      case None => Failure(BadTime(tokens[0]))
      case Some(t) =>
        var rest := ParseEach(tokens[1..]);
        assert forall i :: 1 <= i < |tokens| ==> tokens[1..][i - 1] == tokens[i];
        if rest.Failure? then rest else Success([t] + rest.value)
  }

  /** Each token with surrounding white space removed, as timeString.trim() does. */
  function TrimAll(texts: seq<string>): (r: seq<string>)
    ensures |r| == |texts|
  {
    seq(|texts|, i requires 0 <= i < |texts| => Trim(texts[i]))
  }

  lemma TrimAllAt(texts: seq<string>)
    ensures forall i :: 0 <= i < |texts| ==> TrimAll(texts)[i] == Trim(texts[i])
  {
  }

  /** The comma-separated tokens of the ':'-segments from `startIndex` on, joined back with ':'. */
  function TimeTokens(parts: seq<string>, startIndex: nat): seq<string> {
    if startIndex < |parts| then Split(Join(":", parts[startIndex..]), ',') else []
  }

  /** parseTimesFromParts: every trimmed token must parse, and there must be at least one. */
  function TimesFromParts(parts: seq<string>, startIndex: nat): (r: Result<seq<LocalTime>, Cause>)
    ensures r.Success? ==> |r.value| > 0 && forall i :: 0 <= i < |r.value| ==> ValidTime(r.value[i])
    ensures var tokens := TimeTokens(parts, startIndex);
      r.Success? <==> (|tokens| > 0 && forall i :: 0 <= i < |tokens| ==> ParseTime(Trim(tokens[i])).Some?)
    ensures var tokens := TimeTokens(parts, startIndex);
      r.Success? ==> (|r.value| == |tokens| &&
        forall i :: 0 <= i < |tokens| ==> Some(r.value[i]) == ParseTime(Trim(tokens[i])))
    ensures r.Failure? ==> r.error == NoTimes || (r.error.BadTime? && ParseTime(r.error.text).None?)
  {
    var tokens := TimeTokens(parts, startIndex);
    TrimAllAt(tokens);
    match ParseEach(TrimAll(tokens))
    case Failure(c) => Failure(c)
    case Success(times) => if |times| == 0 then Failure(NoTimes) else Success(times)
  }

  function PrependTimes(prefix: seq<LocalTime>, r: Result<seq<LocalTime>, Cause>): Result<seq<LocalTime>, Cause> {
    match r
    case Success(times) => Success(prefix + times)
    case Failure(c) => r
  }

  lemma ParseEachStep(tokens: seq<string>, i: nat)
    requires i < |tokens|
    ensures ParseEach(tokens[i..]) ==
      match ParseTime(tokens[i])
      case None => Failure(BadTime(tokens[i]))
      case Some(t) => PrependTimes([t], ParseEach(tokens[i + 1..]))
  {
    assert tokens[i..][1..] == tokens[i + 1..];
  }

  lemma PrependNothing(r: Result<seq<LocalTime>, Cause>)
    ensures PrependTimes([], r) == r
  {
    if r.Success? {
      assert [] + r.value == r.value;
    }
  }

  lemma PrependTwice(prefix: seq<LocalTime>, t: LocalTime, r: Result<seq<LocalTime>, Cause>)
    ensures PrependTimes(prefix, PrependTimes([t], r)) == PrependTimes(prefix + [t], r)
  {
    if r.Success? {
      assert prefix + ([t] + r.value) == prefix + [t] + r.value;
    }
  }

  /** parseTimesFromParts as the source writes it: a for loop that trims, parses and appends. */
  method ParseTimesFromParts(parts: seq<string>, startIndex: nat) returns (r: Result<seq<LocalTime>, Cause>)
    ensures r == TimesFromParts(parts, startIndex)
  {
    var times: seq<LocalTime> := [];
    var timeStrings := TimeTokens(parts, startIndex);
    ghost var tokens := TrimAll(timeStrings);
    assert tokens[0..] == tokens;
    PrependNothing(ParseEach(tokens));
    for i := 0 to |timeStrings|
      invariant ParseEach(tokens) == PrependTimes(times, ParseEach(tokens[i..]))
    {
      ParseEachStep(tokens, i);
      var token := Trim(timeStrings[i]);
      assert token == tokens[i];
      var parsed := ParseTime(token);
      if parsed.None? {
        return Failure(BadTime(token));
      }
      PrependTwice(times, parsed.value, ParseEach(tokens[i + 1..]));
      times := times + [parsed.value];
    }
    assert tokens[|tokens|..] == [];
    assert times + [] == times;
    if |times| == 0 {
      return Failure(NoTimes);
    }
    return Success(times);
  }

  // ---------------------------------------------------------------------------
  // The four kinds

  /** What the parser guarantees of every pattern it returns. */
  predicate Usable(p: RecurrencePattern) {
    WellFormed(p) && |p.times| > 0 &&
    (forall i :: 0 <= i < |p.times| ==> ValidTime(p.times[i])) &&
    (p.kind == MONTHLY ==> 1 <= p.dayOfMonth.value <= 31)
  }

  /** Number of ':'-segments a kind needs: the kind, the day field if any, and a time's two halves. */
  function MinSegments(k: RecurrenceType): nat {
    if k == WEEKLY || k == MONTHLY then 4 else 3
  }

  function ParseDaily(parts: seq<string>): (r: Result<RecurrencePattern, Cause>)
    ensures r.Success? ==> Usable(r.value) && r.value.kind == DAILY && |parts| >= MinSegments(DAILY)
    ensures r.Success? <==> |parts| >= 3 && TimesFromParts(parts, 1).Success?
    ensures r.Success? ==> r.value.times == TimesFromParts(parts, 1).value
    ensures |parts| < 3 ==> r == Failure(MissingSegments(DAILY))
  {
    if |parts| < 3 then Failure(MissingSegments(DAILY))
    else
      match TimesFromParts(parts, 1)
      case Failure(c) => Failure(c)
      case Success(times) => Success(Daily(times))
  }

  function ParseWeekly(parts: seq<string>): (r: Result<RecurrencePattern, Cause>)
    ensures r.Success? ==> Usable(r.value) && r.value.kind == WEEKLY && |parts| >= MinSegments(WEEKLY)
    ensures r.Success? <==> |parts| >= 4 && DayOfWeekNamed(ToUpper(parts[1])).Some? && TimesFromParts(parts, 2).Success?
    ensures r.Success? ==> (Some(r.value.dayOfWeek.value) == DayOfWeekNamed(ToUpper(parts[1])) &&
      r.value.times == TimesFromParts(parts, 2).value)
    ensures |parts| < 4 ==> r == Failure(MissingSegments(WEEKLY))
    ensures |parts| >= 4 && DayOfWeekNamed(ToUpper(parts[1])).None? ==> r == Failure(UnknownWeekday(ToUpper(parts[1])))
  {
    if |parts| < 4 then Failure(MissingSegments(WEEKLY))
    else
      match DayOfWeekNamed(ToUpper(parts[1]))
      case None => Failure(UnknownWeekday(ToUpper(parts[1])))
      case Some(dayOfWeek) =>
        match TimesFromParts(parts, 2)
        case Failure(c) => Failure(c)
        case Success(times) => Success(Weekly(dayOfWeek, times))
  }

  function ParseMonthly(parts: seq<string>): (r: Result<RecurrencePattern, Cause>)
    ensures r.Success? ==> Usable(r.value) && r.value.kind == MONTHLY && |parts| >= MinSegments(MONTHLY)
    ensures r.Success? <==> (|parts| >= 4 && ParseInt(parts[1]).Some? && 1 <= ParseInt(parts[1]).value <= 31 &&
      TimesFromParts(parts, 2).Success?)
    ensures r.Success? ==> (Some(r.value.dayOfMonth.value) == ParseInt(parts[1]) &&
      r.value.times == TimesFromParts(parts, 2).value)
    ensures |parts| < 4 ==> r == Failure(MissingSegments(MONTHLY))
    ensures |parts| >= 4 && ParseInt(parts[1]).None? ==> r == Failure(NotANumber(parts[1]))
  {
    if |parts| < 4 then Failure(MissingSegments(MONTHLY))
    else
      match ParseInt(parts[1])
      case None => Failure(NotANumber(parts[1]))
      case Some(dayOfMonth) =>
        if dayOfMonth < 1 || dayOfMonth > 31 then Failure(DayOutOfRange(dayOfMonth))
        else
          match TimesFromParts(parts, 2)
          case Failure(c) => Failure(c)
          case Success(times) => Success(Monthly(dayOfMonth, times))
  }

  function ParseOnce(parts: seq<string>): (r: Result<RecurrencePattern, Cause>)
    ensures r.Success? ==> Usable(r.value) && r.value.kind == ONCE && |parts| >= MinSegments(ONCE)
    ensures r.Success? <==> |parts| >= 3 && TimesFromParts(parts, 1).Success?
    ensures r.Success? ==> r.value.times == TimesFromParts(parts, 1).value
    ensures |parts| < 3 ==> r == Failure(MissingSegments(ONCE))
  {
    if |parts| < 3 then Failure(MissingSegments(ONCE))
    else
      match TimesFromParts(parts, 1)
      case Failure(c) => Failure(c)
      case Success(times) => Success(Once(times))
  }

  /** The switch on the kind named by the first segment. */
  function ParseKind(kind: RecurrenceType, parts: seq<string>): (r: Result<RecurrencePattern, Cause>)
    ensures r.Success? ==> Usable(r.value) && r.value.kind == kind && |parts| >= MinSegments(kind)
  {
    match kind
    case DAILY => ParseDaily(parts)
    case WEEKLY => ParseWeekly(parts)
    case MONTHLY => ParseMonthly(parts)
    case ONCE => ParseOnce(parts)
  }

  /** The catch block: IllegalArgumentExceptions are rethrown with the raw text, others pass. */
  function Rethrow(raw: string, r: Result<RecurrencePattern, Cause>): (e: Result<RecurrencePattern, ParseError>)
    ensures r.Success? <==> e.Success?
    ensures r.Success? ==> e.value == r.value
    ensures r.Failure? && r.error.BadTime? ==> e == Failure(UnparsableTime(r.error.text))
    ensures r.Failure? && !r.error.BadTime? ==> e == Failure(InvalidPattern(raw, r.error))
  {
    match r
    case Success(p) => Success(p)
    case Failure(BadTime(text)) => Failure(UnparsableTime(text))
    case Failure(c) => Failure(InvalidPattern(raw, c))
  }

  /** The ':'-segments of the trimmed input. */
  function Segments(raw: string): seq<string> {
    Split(Trim(raw), ':')
  }

  /**
   * A pattern the parser may return for these segments: it is usable, the first segment
   * names its kind, and there were enough segments for that kind.
   */
  predicate ReadFrom(parts: seq<string>, p: RecurrencePattern) {
    Usable(p) && |parts| >= MinSegments(p.kind) && |parts| > 0 &&
    KindNamed(ToUpper(parts[0])) == Some(p.kind)
  }

  /** Everything parse() does after the split: the try block and its catch. */
  function ParseSegments(raw: string, parts: seq<string>): (r: Result<RecurrencePattern, ParseError>)
    requires |parts| >= 2
    ensures r.Success? ==> ReadFrom(parts, r.value)
    ensures r.Failure? ==> r.error.UnparsableTime? || (r.error.InvalidPattern? && r.error.pattern == raw && !r.error.cause.BadTime?)
  {
    match KindNamed(ToUpper(parts[0]))
    case None => Failure(InvalidPattern(raw, UnknownKind(ToUpper(parts[0]))))
    case Some(kind) => Rethrow(raw, ParseKind(kind, parts))
  }

  /**
   * The kind is matched after toUpperCase: a first segment that upper-cases to the same text
   * gives the same result.
   */
  lemma KindCaseIgnored(raw: string, parts: seq<string>, other: seq<string>)
    requires |parts| >= 2 && |other| == |parts| && other[1..] == parts[1..]
    requires ToUpper(other[0]) == ToUpper(parts[0])
    ensures ParseSegments(raw, other) == ParseSegments(raw, parts)
  {
    assert other[1] == parts[1];
    assert other[2..] == parts[1..][1..] == parts[2..];
  }

  /**
   * The weekday is matched after toUpperCase: in a weekly pattern, a second segment that
   * upper-cases to the same text gives the same result.
   */
  lemma WeekdayCaseIgnored(raw: string, parts: seq<string>, other: seq<string>)
    requires |parts| >= 2 && |other| == |parts| && other[0] == parts[0] && other[2..] == parts[2..]
    requires KindNamed(ToUpper(parts[0])) == Some(WEEKLY)
    requires ToUpper(other[1]) == ToUpper(parts[1])
    ensures ParseSegments(raw, other) == ParseSegments(raw, parts)
  {
  }

  /** parse() on a string that is not blank: the split, the segment count, then the try block. */
  function ParseText(raw: string): (r: Result<RecurrencePattern, ParseError>)
    ensures r.Success? ==> ReadFrom(Segments(raw), r.value)
    ensures r.Failure? ==> !r.error.NullOrEmpty?
    ensures r.Failure? && r.error.InvalidFormat? ==> r.error.pattern == raw && |Segments(raw)| < 2
    ensures r.Failure? && r.error.InvalidPattern? ==> r.error.pattern == raw && !r.error.cause.BadTime?
  {
    var parts := Segments(raw);
    if |parts| < 2 then Failure(InvalidFormat(raw))
    else ParseSegments(raw, parts)
  }

  /** DefaultRecurrencePatternParser.parse; `None` is a null argument. */
  function Parse(input: Option<string>): (r: Result<RecurrencePattern, ParseError>)
    ensures input.None? || Trim(input.value) == [] <==> r == Failure(NullOrEmpty)
    ensures r.Success? ==> ReadFrom(Segments(input.value), r.value)
    ensures r.Failure? && r.error.InvalidFormat? ==> r.error.pattern == input.value && |Segments(input.value)| < 2
    ensures r.Failure? && r.error.InvalidPattern? ==> r.error.pattern == input.value && !r.error.cause.BadTime?
  {
    if input.None? || Trim(input.value) == [] then Failure(NullOrEmpty)
    else ParseText(input.value)
  }

  // ---------------------------------------------------------------------------
  // Formatting, and the round trip

  /** What a pattern needs to be written in the grammar: whole-minute times, a day of 1..31. */
  predicate Formattable(p: RecurrencePattern) {
    WellFormed(p) && |p.times| > 0 && WholeMinutes(p.times) &&
    (p.kind == MONTHLY ==> 1 <= p.dayOfMonth.value <= 31)
  }

  function FormatTimes(times: seq<LocalTime>): (r: seq<string>)
    requires forall i :: 0 <= i < |times| ==> ValidTime(times[i])
    ensures |r| == |times|
  {
    seq(|times|, i requires 0 <= i < |times| => FormatTime(times[i]))
  }

  /** The time list, written HH:MM and separated by commas. */
  function FormatBody(times: seq<LocalTime>): string
    requires forall i :: 0 <= i < |times| ==> ValidTime(times[i])
  {
    Join(",", FormatTimes(times))
  }

  /** The weekday or day-of-month segment with its ':' (nothing for DAILY and ONCE). */
  function DayField(p: RecurrencePattern): string
    requires Formattable(p)
  {
    match p.kind
    case WEEKLY => DayOfWeekName(p.dayOfWeek.value) + ":"
    case MONTHLY => Decimal(p.dayOfMonth.value) + ":"
    case _ => ""
  }

  /** Writes a pattern in the text form parse() reads, e.g. "WEEKLY:MONDAY:10:00,18:30". */
  function Format(p: RecurrencePattern): string
    requires Formattable(p)
  {
    KindName(p.kind) + ":" + DayField(p) + FormatBody(p.times)
  }

  lemma KindNameShape(k: RecurrenceType)
    ensures KindName(k) != [] && 'A' <= KindName(k)[0] <= 'Z' && ':' !in KindName(k)
  {
    match k
    case ONCE => assert KindName(k) == "ONCE";
    case DAILY => assert KindName(k) == "DAILY";
    case WEEKLY => assert KindName(k) == "WEEKLY";
    case MONTHLY => assert KindName(k) == "MONTHLY";
  }

  lemma DayOfWeekNameShape(d: DayOfWeek)
    ensures ':' !in DayOfWeekName(d)
  {
    match d
    case MONDAY => assert DayOfWeekName(d) == "MONDAY";
    case TUESDAY => assert DayOfWeekName(d) == "TUESDAY";
    case WEDNESDAY => assert DayOfWeekName(d) == "WEDNESDAY";
    case THURSDAY => assert DayOfWeekName(d) == "THURSDAY";
    case FRIDAY => assert DayOfWeekName(d) == "FRIDAY";
    case SATURDAY => assert DayOfWeekName(d) == "SATURDAY";
    case SUNDAY => assert DayOfWeekName(d) == "SUNDAY";
  }

  /** A written time list holds a ':' and ends with a digit. */
  lemma BodyShape(times: seq<LocalTime>)
    requires |times| > 0 && forall i :: 0 <= i < |times| ==> ValidTime(times[i])
    ensures var body := FormatBody(times);
      |body| >= 5 && body[2] == ':' && IsDigit(body[|body| - 1])
  {
    JoinEnds(",", FormatTimes(times));
  }

  /** The comma-separated tokens of a written time list are the written times. */
  lemma TokensOfBody(times: seq<LocalTime>, parts: seq<string>, start: nat)
    requires |times| > 0 && WholeMinutes(times)
    requires start <= |parts| && parts[start..] == Pieces(FormatBody(times), ':')
    ensures TimeTokens(parts, start) == FormatTimes(times)
  {
    var texts := FormatTimes(times);
    var body := FormatBody(times);
    BodyShape(times);
    JoinPieces(body, ':');
    assert start < |parts|;
    assert TimeTokens(parts, start) == Split(body, ',');
    SplitKeepsAllPieces(body, ',');
    PiecesOfJoin(texts, ',');
  }

  /** One written time, trimmed and parsed, gives the time back. */
  lemma WrittenTimeParses(t: LocalTime)
    requires ValidTime(t) && t.second == 0 && t.nano == 0
    ensures ParseTime(Trim(FormatTime(t))) == Some(t)
  {
    TrimKeeps(FormatTime(t));
    TimeRoundTrip(t);
  }

  /** Parsing the written times, trimmed, gives the times back. */
  lemma ParseWrittenTimes(times: seq<LocalTime>)
    requires WholeMinutes(times)
    ensures ParseEach(TrimAll(FormatTimes(times))) == Success(times)
  {
    var texts := FormatTimes(times);
    forall i | 0 <= i < |texts|
      ensures Trim(texts[i]) == texts[i]
    {
      TrimKeeps(texts[i]);
    }
    assert TrimAll(texts) == texts;
    forall i | 0 <= i < |texts|
      ensures ParseTime(texts[i]) == Some(times[i])
    {
      TimeRoundTrip(times[i]);
    }
    assert ParseEach(texts).value == times;
  }

  /** Reading the time segments of a written time list gives the times back. */
  lemma TimesRoundTrip(times: seq<LocalTime>, parts: seq<string>, start: nat)
    requires |times| > 0 && WholeMinutes(times)
    requires start <= |parts| && parts[start..] == Pieces(FormatBody(times), ':')
    ensures TimesFromParts(parts, start) == Success(times)
  {
    TokensOfBody(times, parts, start);
    ParseWrittenTimes(times);
  }

  /** The written text starts with a letter and ends with a digit. */
  lemma FormatEnds(p: RecurrencePattern)
    requires Formattable(p)
    ensures var text := Format(p);
      text == KindName(p.kind) + [':'] + (DayField(p) + FormatBody(p.times)) &&
      'A' <= text[0] <= 'Z' && IsDigit(text[|text| - 1])
  {
    var name := KindName(p.kind);
    var body := FormatBody(p.times);
    var rest := DayField(p) + body;
    BodyShape(p.times);
    KindNameShape(p.kind);
    assert rest[|rest| - 1] == body[|body| - 1];
    assert Format(p) == name + [':'] + rest;
  }

  /** The written text is its own trim and splits into the kind's name and the pieces after it. */
  lemma SegmentsOfFormat(p: RecurrencePattern)
    requires Formattable(p)
    ensures Trim(Format(p)) == Format(p) != []
    ensures Segments(Format(p)) == [KindName(p.kind)] + Pieces(DayField(p) + FormatBody(p.times), ':')
  {
    var text := Format(p);
    FormatEnds(p);
    KindNameShape(p.kind);
    TrimKeeps(text);
    SplitKeepsAllPieces(text, ':');
    PiecesAfterFirst(KindName(p.kind), DayField(p) + FormatBody(p.times), ':');
  }

  /** The time list alone splits on ':' into at least two pieces. */
  lemma BodyPieces(times: seq<LocalTime>)
    requires |times| > 0 && WholeMinutes(times)
    ensures |Pieces(FormatBody(times), ':')| >= 2
  {
    var body := FormatBody(times);
    BodyShape(times);
    assert ':' in body by { assert body[2] == ':'; }
    PiecesAtLeastTwo(body, ':');
  }

  /** After the kind's name come the day segment, if any, then the pieces of the time list. */
  lemma DatedPieces(day: string, body: string)
    requires ':' !in day
    ensures Pieces(day + ":" + body, ':') == [day] + Pieces(body, ':')
  {
    assert day + ":" + body == day + [':'] + body;
    PiecesAfterFirst(day, body, ':');
  }

  lemma ParseUndatedParts(times: seq<LocalTime>, parts: seq<string>)
    requires |times| > 0 && WholeMinutes(times)
    requires |parts| >= 1 && parts[1..] == Pieces(FormatBody(times), ':')
    ensures ParseDaily(parts) == Success(Daily(times))
    ensures ParseOnce(parts) == Success(Once(times))
  {
    BodyPieces(times);
    TimesRoundTrip(times, parts, 1);
  }

  lemma ParseWeeklyParts(dayOfWeek: DayOfWeek, times: seq<LocalTime>, parts: seq<string>)
    requires |times| > 0 && WholeMinutes(times)
    requires |parts| >= 2 && parts[1] == DayOfWeekName(dayOfWeek)
    requires parts[2..] == Pieces(FormatBody(times), ':')
    ensures ParseWeekly(parts) == Success(Weekly(dayOfWeek, times))
  {
    BodyPieces(times);
    DayOfWeekNameRoundTrip(dayOfWeek);
    TimesRoundTrip(times, parts, 2);
  }

  lemma ParseMonthlyParts(dayOfMonth: int, times: seq<LocalTime>, parts: seq<string>)
    requires |times| > 0 && WholeMinutes(times) && 1 <= dayOfMonth <= 31
    requires |parts| >= 2 && parts[1] == Decimal(dayOfMonth)
    requires parts[2..] == Pieces(FormatBody(times), ':')
    ensures ParseMonthly(parts) == Success(Monthly(dayOfMonth, times))
  {
    BodyPieces(times);
    ParseIntDecimal(dayOfMonth);
    TimesRoundTrip(times, parts, 2);
  }

  /** The segments of a written pattern: the kind's name, then the pieces after it. */
  predicate WrittenParts(p: RecurrencePattern, parts: seq<string>)
    requires Formattable(p)
  {
    parts == [KindName(p.kind)] + Pieces(DayField(p) + FormatBody(p.times), ':')
  }

  lemma ParseUndatedOfParts(p: RecurrencePattern, parts: seq<string>)
    requires Formattable(p) && (p.kind == DAILY || p.kind == ONCE) && WrittenParts(p, parts)
    ensures ParseKind(p.kind, parts) == Success(p)
  {
    var body := FormatBody(p.times);
    assert DayField(p) + body == body;
    assert parts[1..] == Pieces(body, ':');
    ParseUndatedParts(p.times, parts);
    WellFormedIsFactoryMade(p);
  }

  lemma ParseWeeklyOfParts(p: RecurrencePattern, parts: seq<string>)
    requires Formattable(p) && p.kind == WEEKLY && WrittenParts(p, parts)
    ensures ParseKind(p.kind, parts) == Success(p)
  {
    var body := FormatBody(p.times);
    var day := DayOfWeekName(p.dayOfWeek.value);
    DayOfWeekNameShape(p.dayOfWeek.value);
    DatedPieces(day, body);
    assert parts[1..] == [day] + Pieces(body, ':');
    ParseWeeklyParts(p.dayOfWeek.value, p.times, parts);
    WellFormedIsFactoryMade(p);
  }

  lemma ParseMonthlyOfParts(p: RecurrencePattern, parts: seq<string>)
    requires Formattable(p) && p.kind == MONTHLY && WrittenParts(p, parts)
    ensures ParseKind(p.kind, parts) == Success(p)
  {
    var body := FormatBody(p.times);
    var day := Decimal(p.dayOfMonth.value);
    assert ':' !in day;
    DatedPieces(day, body);
    assert parts[1..] == [day] + Pieces(body, ':');
    ParseMonthlyParts(p.dayOfMonth.value, p.times, parts);
    WellFormedIsFactoryMade(p);
  }

  /** The segments of a written pattern are read back as that pattern. */
  lemma SegmentsParseBack(p: RecurrencePattern)
    requires Formattable(p)
    ensures |Segments(Format(p))| >= 2 && ParseSegments(Format(p), Segments(Format(p))) == Success(p)
  {
    var parts := Segments(Format(p));
    SegmentsOfFormat(p);
    KindNameRoundTrip(p.kind);
    match p.kind {
      case DAILY => ParseUndatedOfParts(p, parts);
      case ONCE => ParseUndatedOfParts(p, parts);
      case WEEKLY => ParseWeeklyOfParts(p, parts);
      case MONTHLY => ParseMonthlyOfParts(p, parts);
    }
  }

  /** Writing a pattern and parsing the text gives the pattern back. */
  lemma ParseFormat(p: RecurrencePattern)
    requires Formattable(p)
    ensures Parse(Some(Format(p))) == Success(p)
  {
    var text := Format(p);
    SegmentsOfFormat(p);
    SegmentsParseBack(p);
    assert ParseText(text) == Success(p);
  }
}
