/** The scheduled leap-second line, "OFFSET|DD Month YYYY|DD Month YYYY" or
    "OFFSET|DD Month YYYY|Not scheduled": newLastEntryFromString and
    parseScheduled of main.go. */
module Scheduled {
  import opened Wrappers
  import opened Errors
  import opened Numbers
  import opened Text
  import opened Calendar
  import opened DateLayout

  /** The third field when no leap second is announced. */
  const NotScheduled := "Not scheduled"

  /** lastEntry: the TAI-UTC offset in force, the date of the last leap second
      and the date of the next one if announced. Dates are UTC midnight, in
      seconds since the Unix epoch. */
  datatype LastEntry = LastEntry(taiOffset: Uint16, last: int, next: Option<int>)

  /** The offset field, strconv.ParseUint(raw, 10, 16) wrapped on failure:
      it accepts exactly the unsigned decimal numerals below 65536, as their
      value; a failure is a range error when the digits before the first
      non-digit already exceed 65535, and a syntax error otherwise (empty
      text, a sign, any other character). */
  function OffsetField(raw: string): (r: Result<Uint16, Error>)
    ensures r.Success? <==> raw != [] && AllDigits(raw) && DecimalValue(raw) <= 0xFFFF
    ensures r.Success? ==> r.value as nat == DecimalValue(raw)
    ensures r.Failure? ==>
              r.error == FieldParse(TaiOffset, raw, if DecimalValue(raw[..DigitRun(raw)]) > 0xFFFF then Range else Syntax)
  {
    ParseUintOutcome(raw, 16);
    MaxUint16();
    match ParseUint(raw, 16)
    case Failure(c) => Failure(FieldParse(TaiOffset, raw, c))
    case Success(v) => Success(v)
  }

  /** A date field: time.Parse("02 January 2006", raw), wrapped on failure. */
  function DateField(raw: string, field: Field): Result<int, Error> {
    match ParseDate(raw)
    case None => Failure(FieldParse(field, raw, Layout))
    case Some(d) => Success(Seconds(d, 0, 0, 0))
  }

  /** A date field holding a date written in the layout is read as that
      date's midnight; any text the layout rejects is a layout error naming
      the field. */
  lemma DateFieldOfFormatted(d: CivilDate, field: Field, raw: string)
    requires Valid(d) && 0 <= d.year <= 9999
    ensures DateField(FormatDate(d), field) == Success(Seconds(d, 0, 0, 0))
    ensures ParseDate(raw).None? ==> DateField(raw, field) == Failure(FieldParse(field, raw, Layout))
  {
    ParseFormatDate(d);
  }

  /** newLastEntryFromString: split on '|' into exactly three fields, then the
      offset, the last date, and the next date unless the third field is the
      "Not scheduled" sentinel. The first failing step is the error. */
  function NewLastEntry(line: string): Result<LastEntry, Error> {
    var items := Split(line, '|');
    if |items| != 3 then Failure(InvalidScheduledEntry)
    else
      var offset :- OffsetField(items[0]);
      var last :- DateField(items[1], LastDate);
      if items[2] == NotScheduled then Success(LastEntry(offset, last, None))
      else
        var next :- DateField(items[2], NextDate);
        Success(LastEntry(offset, last, Some(next)))
  }

  /** The field count is the first check; an accepted line has the offset of
      its first field, midnight of the date in its second, and a next date
      exactly when the third is not the sentinel. */
  lemma NewLastEntryOutcome(line: string)
    ensures var r := NewLastEntry(line);
      (r == Failure(InvalidScheduledEntry) <==> Count(line, '|') != 2) &&
      (r.Success? ==>
         var items := Split(line, '|');
         |items| == 3 &&
         items[0] != [] && AllDigits(items[0]) && DecimalValue(items[0]) == r.value.taiOffset as nat &&
         ParseDate(items[1]).Some? &&
         r.value.last == Seconds(ParseDate(items[1]).value, 0, 0, 0) &&
         (r.value.next.None? <==> items[2] == NotScheduled) &&
         (r.value.next.Some? ==>
            ParseDate(items[2]).Some? &&
            r.value.next.value == Seconds(ParseDate(items[2]).value, 0, 0, 0)))
  {
    SplitCount(line, '|');
    var items := Split(line, '|');
    if |items| == 3 {
      var o := OffsetField(items[0]);
      var l := DateField(items[1], LastDate);
      var n := DateField(items[2], NextDate);
      if o.Success? && l.Success? && (items[2] == NotScheduled || n.Success?) {
        assert NewLastEntry(line).Success?;
      } else {
        assert NewLastEntry(line).Failure? && NewLastEntry(line).error.FieldParse?;
      }
    }
  }

  /** On three bar-free fields, the first field that fails to parse gives the
      error: offset, then last date, then the next date unless it is the
      sentinel. */
  lemma FieldwiseEntry(a: string, b: string, c: string)
    requires '|' !in a && '|' !in b && '|' !in c
    ensures NewLastEntry(a + "|" + b + "|" + c) ==
              if OffsetField(a).Failure? then Failure(OffsetField(a).error)
              else if DateField(b, LastDate).Failure? then Failure(DateField(b, LastDate).error)
              else if c == NotScheduled then
                Success(LastEntry(OffsetField(a).value, DateField(b, LastDate).value, None))
              else if DateField(c, NextDate).Failure? then Failure(DateField(c, NextDate).error)
              else Success(LastEntry(OffsetField(a).value, DateField(b, LastDate).value,
                                     Some(DateField(c, NextDate).value)))
  {
    ThreeFields(a, b, c);
  }

  /** The first line the scanner yields, or "" when there is none. */
  function FirstLine(body: string): string {
    var lines := Lines(body);
    if lines == [] then "" else lines[0]
  }

  /** parseScheduled: only the first line of the body is parsed. */
  function ParseScheduled(body: string): Result<LastEntry, Error> {
    NewLastEntry(FirstLine(body))
  }

  // ---------------------------------------------------------------------------
  // Properties
  // ---------------------------------------------------------------------------

  /** Whatever follows the first line break is never read. */
  lemma ParseScheduledFirstLineOnly(line: string, rest: string)
    requires '\n' !in line
    ensures ParseScheduled(line + "\n" + rest) == NewLastEntry(DropCR(line))
  {
    LinesCons(line, rest);
  }

  /** An empty body is one empty line: one field, so the wrong field count. */
  lemma ParseScheduledEmpty()
    ensures ParseScheduled("") == Failure(InvalidScheduledEntry)
  {
    assert Count("", '|') == 0;
  }

  /** The scheduled line for an offset, the last leap-second date and the next
      one (or the sentinel). */
  function FormatLastEntry(offset: Uint16, last: CivilDate, next: Option<CivilDate>): string
    requires Valid(last) && 0 <= last.year <= 9999
    requires next.Some? ==> Valid(next.value) && 0 <= next.value.year <= 9999
  {
    FormatNat(offset) + "|" + FormatDate(last) + "|" + NextText(next)
  }

  /** Text that holds no field separator and no line break. */
  predicate FieldText(s: string) {
    forall i :: 0 <= i < |s| ==> s[i] != '|' && s[i] != '\n' && s[i] != '\r'
  }

  lemma FieldTextMembers(s: string)
    requires FieldText(s)
    ensures '|' !in s && '\n' !in s && '\r' !in s
  {
  }

  /** The sentinel is a field of its own: no bar and no line break. */
  lemma SentinelText()
    ensures '|' !in NotScheduled && '\n' !in NotScheduled && '\r' !in NotScheduled
  {
    assert FieldText(NotScheduled);
    FieldTextMembers(NotScheduled);
  }

  lemma NumeralText(n: nat)
    ensures FieldText(FormatNat(n))
  {
    var s := FormatNat(n);
    forall i | 0 <= i < |s| ensures s[i] != '|' && s[i] != '\n' && s[i] != '\r' {
      assert IsDigit(s[i]);
    }
  }

  lemma DateText(d: CivilDate)
    requires Valid(d) && 0 <= d.year <= 9999
    ensures FieldText(FormatDate(d)) && FormatDate(d) != NotScheduled
  {
    var s := FormatDate(d);
    var name := MonthNames[d.month - 1];
    MonthNameShape(d.month);
    assert s == DayText(d.day) + (" " + name + " " + YearText(d.year));
    assert IsDigit(s[0]);
    YearTextValue(d.year);
    MonthNameLetters(d.month);
    DigitsFieldText(DayText(d.day));
    LettersFieldText(name);
    DigitsFieldText(YearText(d.year));
    FieldTextAppend(" ", name);
    FieldTextAppend(" " + name, " ");
    FieldTextAppend(" " + name + " ", YearText(d.year));
    FieldTextAppend(DayText(d.day), " " + name + " " + YearText(d.year));
  }

  lemma FieldTextAppend(a: string, b: string)
    requires FieldText(a) && FieldText(b)
    ensures FieldText(a + b)
  {
    forall i | 0 <= i < |a + b| ensures (a + b)[i] != '|' && (a + b)[i] != '\n' && (a + b)[i] != '\r' {
      if i >= |a| {
        assert (a + b)[i] == b[i - |a|];
      }
    }
  }

  lemma DigitsFieldText(s: string)
    requires AllDigits(s)
    ensures FieldText(s)
  {
  }

  lemma LettersFieldText(s: string)
    requires AllLetters(s)
    ensures FieldText(s)
  {
  }

  predicate AllLetters(s: string) {
    forall i :: 0 <= i < |s| ==> IsAsciiLetter(s[i])
  }

  /** Month names are made of letters only. */
  lemma MonthNameLetters(m: int)
    requires 1 <= m <= 12
    ensures AllLetters(MonthNames[m - 1])
  {
  }

  /** The text of a date field: the formatted date, or the sentinel. */
  function NextText(next: Option<CivilDate>): string
    requires next.Some? ==> Valid(next.value) && 0 <= next.value.year <= 9999
  {
    if next.Some? then FormatDate(next.value) else NotScheduled
  }

  lemma OffsetAccepted(text: string, offset: Uint16)
    requires ParseUint(text, 16) == Success(offset as nat)
    ensures OffsetField(text) == Success(offset)
  {
  }

  /** A line whose offset text is accepted and whose dates are written in the
      layout is read as that offset and the midnights of those dates. */
  lemma AcceptedEntry(text: string, offset: Uint16, last: CivilDate, next: Option<CivilDate>)
    requires '|' !in text && ParseUint(text, 16) == Success(offset as nat)
    requires Valid(last) && 0 <= last.year <= 9999
    requires next.Some? ==> Valid(next.value) && 0 <= next.value.year <= 9999
    ensures NewLastEntry(text + "|" + FormatDate(last) + "|" + NextText(next)) ==
              Success(LastEntry(offset, Seconds(last, 0, 0, 0),
                                if next.Some? then Some(Seconds(next.value, 0, 0, 0)) else None))
  {
    OffsetAccepted(text, offset);
    assert '|' !in FormatDate(last) by {
      DateText(last);
      FieldTextMembers(FormatDate(last));
    }
    assert DateField(FormatDate(last), LastDate) == Success(Seconds(last, 0, 0, 0)) by {
      ParseFormatDate(last);
    }
    if next.Some? {
      var t := FormatDate(next.value);
      assert '|' !in t && t != NotScheduled by {
        DateText(next.value);
        FieldTextMembers(t);
      }
      assert DateField(t, NextDate) == Success(Seconds(next.value, 0, 0, 0)) by {
        ParseFormatDate(next.value);
      }
      FieldwiseEntry(text, FormatDate(last), t);
    } else {
      SentinelText();
      FieldwiseEntry(text, FormatDate(last), NotScheduled);
    }
  }

  /** Parsing the formatted line gives back the offset and the UTC midnights of
      both dates; the sentinel gives no next date. */
  lemma ScheduledRoundTrip(offset: Uint16, last: CivilDate, next: Option<CivilDate>)
    requires Valid(last) && 0 <= last.year <= 9999
    requires next.Some? ==> Valid(next.value) && 0 <= next.value.year <= 9999
    ensures NewLastEntry(FormatLastEntry(offset, last, next)) ==
              Success(LastEntry(offset, Seconds(last, 0, 0, 0),
                                if next.Some? then Some(Seconds(next.value, 0, 0, 0)) else None))
  {
    NumeralText(offset);
    FieldTextMembers(FormatNat(offset));
    MaxUint16();
    ParseFormatNat(offset, 16);
    AcceptedEntry(FormatNat(offset), offset, last, next);
  }

  /** The formatted line is read by the scanner as it is. */
  lemma FormatLastEntryPlain(offset: Uint16, last: CivilDate, next: Option<CivilDate>)
    requires Valid(last) && 0 <= last.year <= 9999
    requires next.Some? ==> Valid(next.value) && 0 <= next.value.year <= 9999
    ensures PlainLine(FormatLastEntry(offset, last, next))
  {
    var line := FormatLastEntry(offset, last, next);
    NumeralText(offset);
    FieldTextMembers(FormatNat(offset));
    DateText(last);
    FieldTextMembers(FormatDate(last));
    if next.Some? {
      DateText(next.value);
      FieldTextMembers(FormatDate(next.value));
    }
    SentinelText();
    assert '\r' !in line;
    assert line[|line| - 1] in line;
  }

  lemma DecemberText()
    ensures FormatDate(CivilDate(2016, 12, 31)) == "31 December 2016"
  {
    assert DayText(31) == "31" && YearText(2016) == "2016";
  }

  lemma JuneText()
    ensures FormatDate(CivilDate(2015, 6, 30)) == "30 June 2015"
  {
    assert DayText(30) == "30" && YearText(2015) == "2015";
  }

  lemma SmallOffsets()
    ensures ParseUint("37", 16) == Success(37) && ParseUint("36", 16) == Success(36)
    ensures ParseUint("10", 16) == Success(10)
  {
    MaxUint16();
    assert DigitRun("37") == 2 && "37"[..2] == "37";
    assert DigitRun("36") == 2 && "36"[..2] == "36";
    assert DigitRun("10") == 2 && "10"[..2] == "10";
  }

  lemma FooIsNoDate()
    ensures ParseDate("foo") == None
  {
  }

  /** Tests of newLastEntryFromString: no leap second announced. The dates
      are written by FormatDate; DecemberText and JuneText give their text. */
  lemma NotScheduledExample()
    ensures NewLastEntry("37" + "|" + FormatDate(CivilDate(2016, 12, 31)) + "|" + NotScheduled) ==
              Success(LastEntry(37, Seconds(CivilDate(2016, 12, 31), 0, 0, 0), None))
  {
    SmallOffsets();
    AcceptedEntry("37", 37, CivilDate(2016, 12, 31), None);
  }

  /** Tests of newLastEntryFromString: a leap second announced. */
  lemma NextScheduledExample()
    ensures NewLastEntry("36" + "|" + FormatDate(CivilDate(2015, 6, 30)) + "|" +
                         FormatDate(CivilDate(2016, 12, 31))) ==
              Success(LastEntry(36, Seconds(CivilDate(2015, 6, 30), 0, 0, 0),
                                Some(Seconds(CivilDate(2016, 12, 31), 0, 0, 0))))
  {
    SmallOffsets();
    AcceptedEntry("36", 36, CivilDate(2015, 6, 30), Some(CivilDate(2016, 12, 31)));
  }

  /** Fields without a bar, joined by bars, split back into those fields. */
  lemma BarFields(parts: seq<string>)
    requires |parts| >= 1 && forall i :: 0 <= i < |parts| ==> '|' !in parts[i]
    ensures Split(Join(parts, '|'), '|') == parts && Count(Join(parts, '|'), '|') == |parts| - 1
  {
    SplitJoin(parts, '|');
    SplitCount(Join(parts, '|'), '|');
  }

  /** Tests of newLastEntryFromString: an empty line is one empty field. */
  lemma EmptyLineExample()
    ensures NewLastEntry("") == Failure(InvalidScheduledEntry)
  {
    assert Count("", '|') == 0;
  }

  /** Tests of newLastEntryFromString: two fields instead of three. */
  lemma TwoFieldsExample()
    ensures NewLastEntry("10" + "|" + "31 December 2016") == Failure(InvalidScheduledEntry)
  {
    assert "10" + "|" + "31 December 2016" == Join(["10", "31 December 2016"], '|');
    BarFields(["10", "31 December 2016"]);
  }

  /** Tests of newLastEntryFromString: four fields instead of three. */
  lemma FourFieldsExample()
    ensures NewLastEntry("10" + "|" + "31 December 2016" + "|" + NotScheduled + "|" + "foo")
            == Failure(InvalidScheduledEntry)
  {
    var parts := ["10", "31 December 2016", NotScheduled, "foo"];
    assert Join(parts[3..], '|') == "foo";
    assert Join(parts[2..], '|') == NotScheduled + "|" + "foo";
    assert Join(parts[1..], '|') == "31 December 2016" + "|" + NotScheduled + "|" + "foo";
    assert Join(parts, '|') == "10" + "|" + "31 December 2016" + "|" + NotScheduled + "|" + "foo";
    BarFields(parts);
  }

  /** A line of three fields without bars splits into those fields. */
  lemma ThreeFields(a: string, b: string, c: string)
    requires '|' !in a && '|' !in b && '|' !in c
    ensures Split(a + "|" + b + "|" + c, '|') == [a, b, c]
  {
    var parts := [a, b, c];
    assert Join(parts[2..], '|') == c;
    assert Join(parts[1..], '|') == b + "|" + c;
    assert Join(parts, '|') == a + "|" + b + "|" + c;
    BarFields(parts);
  }

  lemma NonDigitStart(s: string)
    requires s != [] && !IsDigit(s[0])
    ensures ParseUint(s, 16) == Failure(Syntax)
  {
  }

  /** Tests of newLastEntryFromString: an offset that is not a number, and a
      negative offset, which ParseUint rejects as a syntax error. */
  lemma OffsetSyntaxExamples()
    ensures NewLastEntry("foo" + "|" + "31 December 2016" + "|" + NotScheduled) ==
              Failure(FieldParse(TaiOffset, "foo", Syntax))
    ensures NewLastEntry("-10" + "|" + "31 December 2016" + "|" + NotScheduled) ==
              Failure(FieldParse(TaiOffset, "-10", Syntax))
  {
    FieldwiseEntry("foo", "31 December 2016", NotScheduled);
    NonDigitStart("foo");
    FieldwiseEntry("-10", "31 December 2016", NotScheduled);
    NonDigitStart("-10");
  }

  lemma TooLarge()
    ensures ParseUint("65536", 16) == Failure(Range)
  {
    MaxUint16();
    assert DigitRun("65536") == 5;
    assert "65536"[..5] == "65536";
  }

  /** An offset that does not fit in 16 bits is a range error. */
  lemma OffsetTooLargeExample()
    ensures NewLastEntry("65536" + "|" + "31 December 2016" + "|" + NotScheduled) ==
              Failure(FieldParse(TaiOffset, "65536", Range))
  {
    FieldwiseEntry("65536", "31 December 2016", NotScheduled);
    TooLarge();
  }

  /** Tests of newLastEntryFromString: a last date that is not a date. */
  lemma InvalidLastDateExample()
    ensures NewLastEntry("10" + "|" + "foo" + "|" + NotScheduled) == Failure(FieldParse(LastDate, "foo", Layout))
  {
    SmallOffsets();
    FooIsNoDate();
    FieldwiseEntry("10", "foo", NotScheduled);
  }

  /** A malformed next date is reported once the offset and the last date
      have been read. */
  lemma NextDateChecked(offset: string, last: string, next: string)
    requires '|' !in offset && '|' !in last && '|' !in next && next != NotScheduled
    requires ParseUint(offset, 16).Success? && ParseDate(last).Some? && ParseDate(next).None?
    ensures NewLastEntry(offset + "|" + last + "|" + next) == Failure(FieldParse(NextDate, next, Layout))
  {
    FieldwiseEntry(offset, last, next);
  }

  /** Tests of newLastEntryFromString: a next date that is not a date (the
      last date, 31 December 2016, is written by FormatDate). */
  lemma InvalidNextDateExample()
    ensures NewLastEntry("10" + "|" + FormatDate(CivilDate(2016, 12, 31)) + "|" + "foo") ==
              Failure(FieldParse(NextDate, "foo", Layout))
  {
    var last := CivilDate(2016, 12, 31);
    DateText(last);
    FieldTextMembers(FormatDate(last));
    ParseFormatDate(last);
    SmallOffsets();
    FooIsNoDate();
    NextDateChecked("10", FormatDate(last), "foo");
  }
}
