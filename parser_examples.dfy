/** The parser's behaviour on the inputs its unit tests use. */
module ParserExamples {
  import opened Wrappers
  import opened Calendar
  import opened Text
  import opened Pattern
  import opened Parser

  function At(hour: int, minute: int): LocalTime {
    LocalTime(hour, minute, 0, 0)
  }

  lemma ParsesDaily()
    ensures Parse(Some("DAILY:08:00,16:00")) == Success(Daily([At(8, 0), At(16, 0)]))
  {
    var p := Daily([At(8, 0), At(16, 0)]);
    assert FormatTimes(p.times) == ["08:00", "16:00"];
    assert Format(p) == "DAILY:08:00,16:00";
    ParseFormat(p);
  }

  lemma ParsesWeekly()
    ensures Parse(Some("WEEKLY:MONDAY:12:00")) == Success(Weekly(MONDAY, [At(12, 0)]))
  {
    var p := Weekly(MONDAY, [At(12, 0)]);
    assert FormatTimes(p.times) == ["12:00"];
    assert Format(p) == "WEEKLY:MONDAY:12:00";
    ParseFormat(p);
  }

  lemma ParsesMonthly()
    ensures Parse(Some("MONTHLY:15:09:00")) == Success(Monthly(15, [At(9, 0)]))
  {
    var p := Monthly(15, [At(9, 0)]);
    assert FormatTimes(p.times) == ["09:00"];
    assert Decimal(15) == "15";
    assert Format(p) == "MONTHLY:15:09:00";
    ParseFormat(p);
  }

  lemma ParsesOnce()
    ensures Parse(Some("ONCE:10:30")) == Success(Once([At(10, 30)]))
  {
    var p := Once([At(10, 30)]);
    assert FormatTimes(p.times) == ["10:30"];
    assert Format(p) == "ONCE:10:30";
    ParseFormat(p);
  }

  lemma RejectsNullAndEmpty()
    ensures Parse(None) == Failure(NullOrEmpty)
    ensures Parse(Some("")) == Failure(NullOrEmpty)
  {
  }

  /** Non-blank text with at least two segments goes straight to the kind dispatch. */
  lemma ParseOfSegments(text: string, parts: seq<string>)
    requires Trim(text) != [] && Segments(text) == parts && |parts| >= 2
    ensures Parse(Some(text)) == ParseSegments(text, parts)
  {
  }

  /** A first segment that names no kind is reported with its upper-cased text. */
  lemma UnknownKindParts(raw: string, parts: seq<string>)
    requires |parts| >= 2 && ToUpper(parts[0]) == parts[0] && KindNamed(parts[0]).None?
    ensures ParseSegments(raw, parts) == Failure(InvalidPattern(raw, UnknownKind(parts[0])))
  {
  }

  /** An upper-case word that is no kind's name, such as "INVALID". */
  predicate UnknownWord(word: string) {
    word != [] && (forall i :: 0 <= i < |word| ==> 'A' <= word[i] <= 'Z') && KindNamed(word).None?
  }

  lemma InvalidIsUnknownWord()
    ensures UnknownWord("INVALID")
  {
  }

  lemma UnknownWordShape(word: string)
    requires UnknownWord(word)
    ensures word[0] > ' ' && ':' !in word && ToUpper(word) == word
  {
    UpperKeepsUpper(word);
  }

  lemma WordSegments(word: string, rest: string)
    requires word != [] && word[0] > ' ' && ':' !in word
    requires rest != [] && rest[|rest| - 1] > ' ' && rest[|rest| - 1] != ':'
    ensures var text := word + ":" + rest;
      Trim(text) != [] && Segments(text) == [word] + Pieces(rest, ':')
  {
    var text := word + ":" + rest;
    assert text == word + [':'] + rest;
    assert text[0] == word[0];
    assert text[|text| - 1] == rest[|rest| - 1];
    TrimKeeps(text);
    SplitKeepsAllPieces(text, ':');
    PiecesAfterFirst(word, rest, ':');
  }

  /** Two texts whose kind words differ only in letter case parse to the same pattern. */
  lemma KindWordCaseIgnored(word: string, other: string, rest: string, text: string, otherText: string)
    requires word != [] && word[0] > ' ' && ':' !in word
    requires other != [] && other[0] > ' ' && ':' !in other
    requires ToUpper(word) == ToUpper(other)
    requires rest != [] && rest[|rest| - 1] > ' ' && rest[|rest| - 1] != ':'
    requires text == word + ":" + rest && otherText == other + ":" + rest
    ensures var r, s := Parse(Some(text)), Parse(Some(otherText));
      r.Success? == s.Success? && (r.Success? ==> r.value == s.value)
  {
    var parts, otherParts := [word] + Pieces(rest, ':'), [other] + Pieces(rest, ':');
    WordSegments(word, rest);
    WordSegments(other, rest);
    ParseOfSegments(text, parts);
    ParseOfSegments(otherText, otherParts);
    assert otherParts[1..] == parts[1..];
    KindCaseIgnored(otherText, parts, otherParts);
    RethrowKeepsPattern(text, otherText, parts);
  }

  /** The parse of the same segments under two raw texts differs at most in the text it reports. */
  lemma RethrowKeepsPattern(raw: string, otherRaw: string, parts: seq<string>)
    requires |parts| >= 2
    ensures var r, s := ParseSegments(raw, parts), ParseSegments(otherRaw, parts);
      r.Success? == s.Success? && (r.Success? ==> r.value == s.value)
  {
  }

  lemma ParsesDailyAtEight()
    ensures Parse(Some("DAILY:08:00")) == Success(Daily([At(8, 0)]))
  {
    var p := Daily([At(8, 0)]);
    assert FormatTimes(p.times) == ["08:00"];
    assert Format(p) == "DAILY:08:00";
    ParseFormat(p);
  }

  lemma LowerCaseDaily()
    ensures ToUpper("daily") == ToUpper("DAILY") == "DAILY"
  {
    UpperKeepsUpper("DAILY");
  }

  /** "daily:08:00": the kind word is matched whatever its letter case. */
  lemma ParsesLowerCaseDaily()
    ensures Parse(Some("daily:08:00")) == Success(Daily([At(8, 0)]))
  {
    LowerCaseDaily();
    assert "daily" + ":" + "08:00" == "daily:08:00";
    assert "DAILY" + ":" + "08:00" == "DAILY:08:00";
    KindWordCaseIgnored("daily", "DAILY", "08:00", "daily:08:00", "DAILY:08:00");
    ParsesDailyAtEight();
  }

  /** "INVALID:PATTERN": a first segment naming no kind is rejected, with the raw text. */
  lemma RejectsUnknownKind(word: string, rest: string)
    requires UnknownWord(word) && rest != [] && rest[|rest| - 1] > ' ' && rest[|rest| - 1] != ':'
    ensures var text := word + ":" + rest;
      Parse(Some(text)) == Failure(InvalidPattern(text, UnknownKind(word)))
  {
    var text := word + ":" + rest;
    var parts := [word] + Pieces(rest, ':');
    assert Trim(text) != [] && Segments(text) == parts by {
      UnknownWordShape(word);
      WordSegments(word, rest);
    }
    assert ParseSegments(text, parts) == Failure(InvalidPattern(text, UnknownKind(word))) by {
      UnknownWordShape(word);
      UnknownKindParts(text, parts);
    }
    ParseOfSegments(text, parts);
  }

  /** The test's own text, "INVALID:PATTERN". */
  lemma RejectsInvalidPattern()
    ensures Parse(Some("INVALID:PATTERN")) == Failure(InvalidPattern("INVALID:PATTERN", UnknownKind("INVALID")))
  {
    InvalidIsUnknownWord();
    assert "INVALID" + ":" + "PATTERN" == "INVALID:PATTERN";
    RejectsUnknownKind("INVALID", "PATTERN");
  }

  /** "MONTHLY:<n>:<times>", a monthly pattern text with any day number. */
  function MonthlyText(n: nat, times: seq<LocalTime>): string
    requires WholeMinutes(times)
  {
    KindName(MONTHLY) + ":" + Decimal(n) + ":" + FormatBody(times)
  }

  lemma MonthlyTextSegments(n: nat, times: seq<LocalTime>)
    requires |times| > 0 && WholeMinutes(times)
    ensures var text := MonthlyText(n, times);
      Trim(text) != [] &&
      Segments(text) == [KindName(MONTHLY), Decimal(n)] + Pieces(FormatBody(times), ':')
  {
    var text := MonthlyText(n, times);
    var name := KindName(MONTHLY);
    var day := Decimal(n);
    var body := FormatBody(times);
    var rest := day + ":" + body;
    BodyShape(times);
    KindNameShape(MONTHLY);
    assert text == name + [':'] + rest;
    assert text[|text| - 1] == body[|body| - 1];
    TrimKeeps(text);
    SplitKeepsAllPieces(text, ':');
    PiecesAfterFirst(name, rest, ':');
    assert ':' !in day;
    DatedPieces(day, body);
    var tail := Pieces(body, ':');
    assert Pieces(text, ':') == [name] + ([day] + tail);
    ConsTwo(name, day, tail);
  }

  lemma ConsTwo(a: string, b: string, tail: seq<string>)
    ensures [a] + ([b] + tail) == [a, b] + tail
  {
  }

  lemma MonthlyDayParts(n: nat, times: seq<LocalTime>, raw: string, parts: seq<string>)
    requires (n == 0 || 31 < n <= MaxInt) && |times| > 0 && WholeMinutes(times)
    requires parts == [KindName(MONTHLY), Decimal(n)] + Pieces(FormatBody(times), ':')
    ensures ParseSegments(raw, parts) == Failure(InvalidPattern(raw, DayOutOfRange(n)))
  {
    ParseIntDecimal(n);
    KindNameRoundTrip(MONTHLY);
    BodyPieces(times);
    assert parts[0] == KindName(MONTHLY) && parts[1] == Decimal(n);
    DayOutOfRangeParts(raw, parts, n);
  }

  lemma DayOutOfRangeParts(raw: string, parts: seq<string>, n: int)
    requires |parts| >= 4 && KindNamed(ToUpper(parts[0])) == Some(MONTHLY)
    requires ParseInt(parts[1]) == Some(n) && (n < 1 || n > 31)
    ensures ParseSegments(raw, parts) == Failure(InvalidPattern(raw, DayOutOfRange(n)))
  {
    assert ParseMonthly(parts) == Failure(DayOutOfRange(n));
  }

  /**
   * A day of the month outside 1..31 ("MONTHLY:32:10:00", "MONTHLY:0:10:00") is rejected,
   * with the raw text in the message.
   */
  lemma RejectsMonthlyDay(n: nat, times: seq<LocalTime>, text: string)
    requires (n == 0 || 31 < n <= MaxInt) && |times| > 0 && WholeMinutes(times)
    requires text == MonthlyText(n, times)
    ensures Parse(Some(text)) == Failure(InvalidPattern(text, DayOutOfRange(n)))
  {
    var parts := [KindName(MONTHLY), Decimal(n)] + Pieces(FormatBody(times), ':');
    assert Trim(text) != [] && Segments(text) == parts && |parts| >= 2 by {
      MonthlyTextSegments(n, times);
    }
    assert Parse(Some(text)) == ParseSegments(text, parts) by {
      ParseOfSegments(text, parts);
    }
    MonthlyDayParts(n, times, text, parts);
  }

}
