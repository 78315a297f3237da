/** The historical leap-second file (the IERS Leap_Second.dat format): one
    record "MJD DD MM YYYY OFFSET" per line, with comments introduced by '#'.
    This covers newLeapSecondDataFromString, newLeapSecondDataFromItems,
    updateDate, parseDataFile and fetchDataFileFromReader of main.go. */
module Historical {
  import opened Wrappers
  import opened Errors
  import opened Numbers
  import opened Text
  import opened Calendar

  /** leapSecondData. The Modified Julian Date is kept as the token
      strconv.ParseFloat accepted; `date` is the instant of the leap second in
      seconds since the Unix epoch. */
  datatype LeapSecond = LeapSecond(mjd: string, day: Uint8, month: Uint8, year: Uint16,
                                   taiOffset: Uint16, date: int)

  /** updateDate: a record names the first day under the new offset, so the
      leap second is one second before midnight of that day, computed by
      time.Date (which normalises a day or month out of range). */
  function EffectiveInstant(year: int, month: int, day: int): (t: int)
    ensures var d := CivilDate(year, month, day);
      Valid(d) ==> Valid(PreviousDay(d)) && t == Seconds(PreviousDay(d), 23, 59, 59)
  {
    var d := CivilDate(year, month, day);
    var t := DateMidnight(year, month, day) - 1;
    if Valid(d) then MidnightMinusOneSecond(d); t else t
  }

  /** Day and month are not range-checked: a day past the end of its month is
      the first of the next month, and month 13 is January of the next year. */
  lemma EffectiveInstantNormalises(year: int, month: int, day: int)
    requires 1 <= month <= 12
    ensures EffectiveInstant(year, month, DaysIn(year, month) + 1) ==
              if month < 12 then EffectiveInstant(year, month + 1, 1) else EffectiveInstant(year + 1, 1, 1)
    ensures EffectiveInstant(year, month + 12, day) == EffectiveInstant(year + 1, month, day)
  {
    DayOverflowRollsOver(year, month);
    MonthCarry(year, month, day);
  }

  /** A record as the parsers build it: an accepted MJD token, and the leap
      second placed by updateDate. */
  predicate WellFormed(rec: LeapSecond) {
    IsFloatToken(rec.mjd) && rec.date == EffectiveInstant(rec.year, rec.month, rec.day)
  }

  /** strconv.ParseUint(items[k], 10, bitSize): a present item is accepted
      exactly when it is a non-empty decimal numeral whose value fits in
      `bitSize` bits, and is read as that value; a rejected one is a range
      error when its leading digits already exceed the width, and a syntax
      error otherwise. Indexing past the end of `items` is Go's
      index-out-of-range panic. */
  function UintField(items: seq<string>, k: nat, bitSize: nat, field: Field): (r: Result<nat, Error>)
    ensures k >= |items| ==> r == Failure(IndexPanic(k))
    ensures k < |items| ==>
              (r.Success? <==> items[k] != [] && AllDigits(items[k]) && DecimalValue(items[k]) <= MaxUint(bitSize))
    ensures r.Success? ==> k < |items| && r.value == DecimalValue(items[k]) <= MaxUint(bitSize)
    ensures r.Failure? && k < |items| ==>
              r.error == FieldParse(field, items[k],
                                    if DecimalValue(items[k][..DigitRun(items[k])]) > MaxUint(bitSize)
                                    then Range else Syntax)
  {
    if k >= |items| then Failure(IndexPanic(k))
    else
      ParseUintOutcome(items[k], bitSize);
      match ParseUint(items[k], bitSize)
      case Failure(c) => Failure(FieldParse(field, items[k], c))
      case Success(v) => Success(v)
  }

  /** newLeapSecondDataFromItems: MJD, day (8 bits), month (8 bits), year
      (16 bits), TAI offset (16 bits), in that order; the first field that
      fails is the error. Nothing checks how many items there are: a missing
      one panics, extra ones are ignored. */
  function ParseItems(items: seq<string>): (r: Result<LeapSecond, Error>)
    ensures r.Failure? ==> r.error.IndexPanic? || r.error.FieldParse?
    ensures r.Failure? && r.error.IndexPanic? ==> r.error.index == |items| < 5
    ensures r.Success? ==>
              |items| >= 5 && WellFormed(r.value) && r.value.mjd == items[0] &&
              ParseUint(items[1], 8) == Success(r.value.day as nat) &&
              ParseUint(items[2], 8) == Success(r.value.month as nat) &&
              ParseUint(items[3], 16) == Success(r.value.year as nat) &&
              ParseUint(items[4], 16) == Success(r.value.taiOffset as nat)
  {
    if |items| == 0 then Failure(IndexPanic(0))
    else if !IsFloatToken(items[0]) then Failure(FieldParse(Mjd, items[0], Syntax))
    else
      var day :- UintField(items, 1, 8, Day);
      var month :- UintField(items, 2, 8, Month);
      var year :- UintField(items, 3, 16, Year);
      var offset :- UintField(items, 4, 16, TaiOffset);
      MaxUint8();
      MaxUint16();
      Success(LeapSecond(items[0], day, month, year, offset, EffectiveInstant(year, month, day)))
  }

  /** The position of a field's item on a data line (5 for the fields of the
      scheduled entry, which a data line does not have). */
  function ItemIndex(f: Field): nat {
    match f
    case Mjd => 0
    case Day => 1
    case Month => 2
    case Year => 3
    case TaiOffset => 4
    case _ => 5
  }

  /** The bit size ParseUint reads item k with: 8 for day and month, 16 for
      year and offset. */
  function ItemWidth(k: nat): nat {
    if k <= 2 then 8 else 16
  }

  /** Item k of a data line is present and its parser accepts it: ParseFloat
      for the MJD, ParseUint at the field's width for the other four. */
  predicate ItemAccepted(items: seq<string>, k: nat) {
    k < |items| && k < 5 &&
    if k == 0 then IsFloatToken(items[0]) else ParseUint(items[k], ItemWidth(k)).Success?
  }

  /** The field item k of a data line holds. */
  function ItemField(k: nat): Field
    requires k < 5
  {
    [Mjd, Day, Month, Year, TaiOffset][k]
  }

  /** The error newLeapSecondDataFromItems reports for a rejected item k: the
      panic when it is missing, otherwise its field, its text, and the cause
      its parser gives. */
  function ItemError(items: seq<string>, k: nat): Error
    requires k < 5 && !ItemAccepted(items, k)
  {
    if k >= |items| then IndexPanic(k)
    else FieldParse(ItemField(k), items[k], if k == 0 then Syntax else ParseUint(items[k], ItemWidth(k)).error)
  }

  /** When item k is the first one rejected, its error is the outcome. */
  lemma {:induction false} FirstRejectedItem(items: seq<string>, k: nat)
    requires k < 5 && !ItemAccepted(items, k)
    requires forall j :: 0 <= j < k ==> ItemAccepted(items, j)
    ensures ParseItems(items) == Failure(ItemError(items, k))
  {
    if k == 1 {
      assert ItemAccepted(items, 0);
    } else if k == 2 {
      assert ItemAccepted(items, 0) && ItemAccepted(items, 1);
    } else if k == 3 {
      assert ItemAccepted(items, 0) && ItemAccepted(items, 1) && ItemAccepted(items, 2);
    } else if k == 4 {
      assert ItemAccepted(items, 0) && ItemAccepted(items, 1) && ItemAccepted(items, 2);
      assert ItemAccepted(items, 3);
    }
  }

  /** newLeapSecondDataFromItems over all inputs: it succeeds exactly when the
      first five items are present and accepted. */
  lemma ParseItemsSucceeds(items: seq<string>)
    ensures ParseItems(items).Success? <==>
              |items| >= 5 && forall k :: 0 <= k < 5 ==> ItemAccepted(items, k)
  {
    if forall k :: 0 <= k < 5 ==> ItemAccepted(items, k) {
      AllItemsAccepted(items);
    } else if ParseItems(items).Success? {
      SuccessAcceptsItems(items);
    }
  }

  lemma SuccessAcceptsItems(items: seq<string>)
    requires ParseItems(items).Success?
    ensures forall k :: 0 <= k < 5 ==> ItemAccepted(items, k)
  {
    var r := ParseItems(items).value;
    assert ItemAccepted(items, 0) by { assert WellFormed(r) && r.mjd == items[0]; }
    assert ParseUint(items[1], ItemWidth(1)).Success? && ParseUint(items[2], ItemWidth(2)).Success?;
    assert ParseUint(items[3], ItemWidth(3)).Success? && ParseUint(items[4], ItemWidth(4)).Success?;
    assert ItemAccepted(items, 1) && ItemAccepted(items, 2) && ItemAccepted(items, 3) && ItemAccepted(items, 4);
  }

  /** The outcome `r` of newLeapSecondDataFromItems, when it fails: a missing
      item panics only once every present item was accepted, and a field
      error names the first rejected item, with its text and its parser's
      cause, after accepted ones. */
  predicate ItemsErrorShape(items: seq<string>, r: Result<LeapSecond, Error>) {
    (r.Failure? && r.error.IndexPanic? ==>
       r.error.index == |items| < 5 && forall j :: 0 <= j < |items| ==> ItemAccepted(items, j)) &&
    (r.Failure? && r.error.FieldParse? ==>
       var k := ItemIndex(r.error.field);
       k < 5 && k < |items| && r.error.raw == items[k] && !ItemAccepted(items, k) &&
       r.error.cause == (if k == 0 then Syntax else ParseUint(items[k], ItemWidth(k)).error) &&
       forall j :: 0 <= j < k ==> ItemAccepted(items, j))
  }

  /** Otherwise the items are tried in the order MJD, day, month, year,
      offset, and the first one missing or rejected decides the error. */
  lemma ParseItemsFirstError(items: seq<string>)
    ensures ItemsErrorShape(items, ParseItems(items))
  {
    FirstErrorFrom(items, 0);
  }

  /** The items before k are accepted: the first rejected item from k on, if
      any, decides the error. */
  lemma {:induction false} FirstErrorFrom(items: seq<string>, k: nat)
    requires k <= 5 && forall j :: 0 <= j < k ==> ItemAccepted(items, j)
    ensures ItemsErrorShape(items, ParseItems(items))
    decreases 5 - k
  {
    if k == 5 {
      AllItemsAccepted(items);
    } else if !ItemAccepted(items, k) {
      RejectedItemShape(items, k);
    } else {
      FirstErrorFrom(items, k + 1);
    }
  }

  lemma RejectedItemShape(items: seq<string>, k: nat)
    requires k < 5 && !ItemAccepted(items, k)
    requires forall j :: 0 <= j < k ==> ItemAccepted(items, j)
    ensures ItemsErrorShape(items, ParseItems(items))
  {
    FirstRejectedItem(items, k);
    RejectedItemError(items, k);
  }

  lemma RejectedItemError(items: seq<string>, k: nat)
    requires k < 5 && !ItemAccepted(items, k)
    requires forall j :: 0 <= j < k ==> ItemAccepted(items, j)
    ensures ItemsErrorShape(items, Failure(ItemError(items, k)))
  {
    assert ItemIndex(ItemField(k)) == k;
    if k > 0 && k >= |items| {
      assert ItemAccepted(items, k - 1);
    }
  }

  lemma AllItemsAccepted(items: seq<string>)
    requires forall k :: 0 <= k < 5 ==> ItemAccepted(items, k)
    ensures ParseItems(items).Success?
  {
    assert ItemAccepted(items, 0) && ItemAccepted(items, 1) && ItemAccepted(items, 2);
    assert ItemAccepted(items, 3) && ItemAccepted(items, 4);
  }

  /** newLeapSecondDataFromString: exactly five whitespace-separated fields. */
  function ParseRecordLine(line: string): (r: Result<LeapSecond, Error>)
    ensures r == Failure(InvalidLeapSecondData) <==> |Fields(line)| != 5
    ensures r.Failure? ==> !r.error.IndexPanic?
  {
    var items := Fields(line);
    if |items| != 5 then Failure(InvalidLeapSecondData) else ParseItems(items)
  }

  // ---------------------------------------------------------------------------
  // parseDataFile
  // ---------------------------------------------------------------------------

  /** The fields of a scanned line once everything from its first '#' on is
      removed. */
  function LineItems(line: string): seq<string> {
    Fields(StripComment(line))
  }

  /** What parseDataFile returns: the records read so far and, if it stopped
      early, the error. */
  datatype FileParse = FileParse(records: seq<LeapSecond>, error: Option<Error>)

  function Prepend(records: seq<LeapSecond>, p: FileParse): FileParse {
    FileParse(records + p.records, p.error)
  }

  /** What one scanned line contributes: nothing, a record, or an error. */
  datatype LineKind = Blank | Record(rec: LeapSecond) | Bad(error: Error)

  function Classify(line: string): LineKind {
    var items := LineItems(line);
    if items == [] then Blank
    else
      match ParseItems(items)
      case Failure(e) => Bad(e)
      case Success(rec) => Record(rec)
  }

  /** parseDataFile over the scanned lines: lines without fields are skipped,
      every other line must parse, and the first one that does not ends the
      scan. */
  function ParseLines(lines: seq<string>): (p: FileParse)
    decreases |lines|
  {
    if lines == [] then FileParse([], None)
    else
      match Classify(lines[0])
      case Blank => ParseLines(lines[1..])
      case Bad(e) => FileParse([], Some(e))
      case Record(rec) => Prepend([rec], ParseLines(lines[1..]))
  }

  /** The scan from line i on is decided by line i and the scan after it. */
  lemma ParseLinesAt(lines: seq<string>, i: nat)
    requires i < |lines|
    ensures ParseLines(lines[i..]) ==
              match Classify(lines[i])
              case Blank => ParseLines(lines[i + 1..])
              case Bad(e) => FileParse([], Some(e))
              case Record(rec) => Prepend([rec], ParseLines(lines[i + 1..]))
  {
    assert lines[i..][0] == lines[i] && lines[i..][1..] == lines[i + 1..];
  }

  /** A data line holding a record puts that record in front. */
  lemma ParseLinesRecord(line: string, rest: seq<string>, rec: LeapSecond)
    requires Classify(line) == Record(rec)
    ensures ParseLines([line] + rest) == Prepend([rec], ParseLines(rest))
  {
    assert ([line] + rest)[0] == line && ([line] + rest)[1..] == rest;
  }

  lemma PrependTwice(records: seq<LeapSecond>, rec: LeapSecond, p: FileParse)
    ensures Prepend(records, Prepend([rec], p)) == Prepend(records + [rec], p)
  {
    assert records + ([rec] + p.records) == (records + [rec]) + p.records;
  }

  /** parseDataFile: scan the body line by line, appending one record per data
      line; on an error, return what was read so far with the error. */
  method ParseDataFile(body: string) returns (records: seq<LeapSecond>, err: Option<Error>)
    ensures FileParse(records, err) == ParseLines(Lines(body))
  {
    var lines := Lines(body);
    records := [];
    var i := 0;
    while i < |lines|
      invariant 0 <= i <= |lines|
      invariant ParseLines(lines) == Prepend(records, ParseLines(lines[i..]))
    {
      ParseLinesAt(lines, i);
      var items := LineItems(lines[i]);
      if |items| > 0 {
        var parsed := ParseItems(items);
        if parsed.Failure? {
          assert records + [] == records;
          return records, Some(parsed.error);
        }
        assert Classify(lines[i]) == Record(parsed.value);
        PrependTwice(records, parsed.value, ParseLines(lines[i + 1..]));
        records := records + [parsed.value];
      } else {
        assert Classify(lines[i]) == Blank;
      }
      i := i + 1;
    }
    assert lines[i..] == [];
    err := None;
  }

  /** fetchDataFileFromReader: the records of the whole body, or the error
      alone (the records read before it are dropped). */
  function DataFile(body: string): Result<seq<LeapSecond>, Error> {
    var p := ParseLines(Lines(body));
    if p.error.Some? then Failure(p.error.value) else Success(p.records)
  }

  method FetchDataFileFromReader(body: string) returns (r: Result<seq<LeapSecond>, Error>)
    ensures r == DataFile(body)
  {
    var records, err := ParseDataFile(body);
    if err.Some? {
      return Failure(err.value);
    }
    return Success(records);
  }

  // ---------------------------------------------------------------------------
  // Properties of the file parser
  // ---------------------------------------------------------------------------

  /** The field lists of the lines that hold fields, in order. */
  function DataLines(lines: seq<string>): seq<seq<string>>
    decreases |lines|
  {
    if lines == [] then []
    else if LineItems(lines[0]) == [] then DataLines(lines[1..])
    else [LineItems(lines[0])] + DataLines(lines[1..])
  }

  /** The records are the parses of the data lines in order: all of them when
      there is no error, otherwise those before the first data line that fails,
      whose error is the one reported. */
  predicate FirstErrorShape(p: FileParse, d: seq<seq<string>>) {
    |p.records| <= |d| &&
    (forall j :: 0 <= j < |p.records| ==> ParseItems(d[j]) == Success(p.records[j])) &&
    (p.error.None? ==> |p.records| == |d|) &&
    (p.error.Some? ==> |p.records| < |d| && ParseItems(d[|p.records|]) == Failure(p.error.value))
  }

  /** A data line that parses puts its record in front and keeps the shape. */
  lemma RecordStep(items: seq<string>, rec: LeapSecond, p: FileParse, d: seq<seq<string>>)
    requires ParseItems(items) == Success(rec) && FirstErrorShape(p, d)
    ensures FirstErrorShape(Prepend([rec], p), [items] + d)
  {
    var p', d' := Prepend([rec], p), [items] + d;
    forall j | 0 <= j < |p'.records| ensures ParseItems(d'[j]) == Success(p'.records[j]) {
      if j > 0 { assert d'[j] == d[j - 1] && p'.records[j] == p.records[j - 1]; }
    }
    if p.error.Some? {
      assert d'[|p'.records|] == d[|p.records|];
    }
  }

  /** What parseDataFile reads is decided by the data lines alone. */
  lemma {:induction false} ParseLinesFirstError(lines: seq<string>)
    ensures FirstErrorShape(ParseLines(lines), DataLines(lines))
    decreases |lines|
  {
    if lines != [] {
      ParseLinesFirstError(lines[1..]);
      var p', d' := ParseLines(lines[1..]), DataLines(lines[1..]);
      var items := LineItems(lines[0]);
      match Classify(lines[0])
      case Blank =>
        assert ParseLines(lines) == p' && DataLines(lines) == d';
      case Bad(e) =>
        assert ParseLines(lines) == FileParse([], Some(e));
        assert DataLines(lines) == [items] + d';
      case Record(rec) =>
        assert ParseLines(lines) == Prepend([rec], p');
        assert DataLines(lines) == [items] + d';
        RecordStep(items, rec, p', d');
    }
  }

  /** Every record the file parser returns was built by the record parser:
      its MJD is a number and its instant is the one updateDate computes. */
  lemma DataFileWellFormed(body: string)
    ensures DataFile(body).Success? ==>
              forall j :: 0 <= j < |DataFile(body).value| ==> WellFormed(DataFile(body).value[j])
  {
    var lines := Lines(body);
    ParseLinesFirstError(lines);
    var p, d := ParseLines(lines), DataLines(lines);
    forall j | 0 <= j < |p.records| ensures WellFormed(p.records[j]) {
      assert ParseItems(d[j]) == Success(p.records[j]);
    }
  }

  /** Scanning two pieces one after the other: nothing after an error is
      read, otherwise the records of both pieces are concatenated. */
  lemma {:induction false} ParseLinesAppend(a: seq<string>, b: seq<string>)
    ensures ParseLines(a + b) ==
              if ParseLines(a).error.Some? then ParseLines(a)
              else Prepend(ParseLines(a).records, ParseLines(b))
    decreases |a|
  {
    if a == [] {
      assert a + b == b;
    } else {
      assert (a + b)[0] == a[0];
      assert (a + b)[1..] == a[1..] + b;
      ParseLinesAppend(a[1..], b);
      match Classify(a[0])
      case Blank =>
      case Bad(e) =>
      case Record(rec) =>
        assert [rec] + (ParseLines(a[1..]).records + ParseLines(b).records) ==
               ([rec] + ParseLines(a[1..]).records) + ParseLines(b).records;
    }
  }

  /** A line whose text starts with '#' holds no record and is skipped. */
  lemma CommentLineSkipped(comment: string, rest: seq<string>)
    ensures ParseLines(["#" + comment] + rest) == ParseLines(rest)
  {
    assert StripComment("#" + comment) == [];
    assert (["#" + comment] + rest)[1..] == rest;
  }

  /** A trailing comment after the fields of a line changes nothing. */
  lemma TrailingCommentSkipped(line: string, comment: string)
    requires '#' !in line
    ensures LineItems(line + " #" + comment) == Fields(line)
  {
    TrailingCommentIgnored(line, comment);
  }

  /** Items past the fifth are never looked at. */
  lemma ExtraItemsIgnored(items: seq<string>)
    requires |items| >= 5
    ensures ParseItems(items) == ParseItems(items[..5])
  {
    var p := items[..5];
    assert p[0] == items[0] && p[1] == items[1] && p[2] == items[2];
    assert p[3] == items[3] && p[4] == items[4];
  }

  // ---------------------------------------------------------------------------
  // Round trip: a record and a file written in the data-file format
  // ---------------------------------------------------------------------------

  /** A record as a line of the data file: its five fields joined by spaces. */
  function RecordItems(rec: LeapSecond): seq<string> {
    [rec.mjd, FormatNat(rec.day), FormatNat(rec.month), FormatNat(rec.year), FormatNat(rec.taiOffset)]
  }

  function FormatRecord(rec: LeapSecond): string {
    Join(RecordItems(rec), ' ')
  }

  /** Records that can be written out and read back: an MJD token without
      white space or '#'. */
  predicate Writable(rec: LeapSecond) {
    WellFormed(rec) && NoSpace(rec.mjd) && '#' !in rec.mjd
  }

  lemma DigitsAreWordChars(s: string)
    requires AllDigits(s)
    ensures NoSpace(s) && '#' !in s
  {
    forall i | 0 <= i < |s| ensures !IsSpace(s[i]) && s[i] != '#' {
      assert IsDigit(s[i]);
    }
  }

  lemma FloatTokenNotEmpty(s: string)
    requires IsFloatToken(s)
    ensures s != []
  {
  }

  /** Each field parses back to the value it was written from. */
  lemma {:induction false} ParseRecordItems(rec: LeapSecond)
    requires WellFormed(rec)
    ensures ParseItems(RecordItems(rec)) == Success(rec)
  {
    MaxUint8();
    MaxUint16();
    ParseFormatNat(rec.day, 8);
    ParseFormatNat(rec.month, 8);
    ParseFormatNat(rec.year, 16);
    ParseFormatNat(rec.taiOffset, 16);
  }

  lemma RecordItemsAreWords(rec: LeapSecond)
    requires Writable(rec)
    ensures forall i :: 0 <= i < 5 ==> RecordItems(rec)[i] != [] && NoSpace(RecordItems(rec)[i])
                                       && '#' !in RecordItems(rec)[i]
  {
    FloatTokenNotEmpty(rec.mjd);
    DigitsAreWordChars(FormatNat(rec.day));
    DigitsAreWordChars(FormatNat(rec.month));
    DigitsAreWordChars(FormatNat(rec.year));
    DigitsAreWordChars(FormatNat(rec.taiOffset));
  }

  /** newLeapSecondDataFromString reads back every record written as a line. */
  lemma RecordRoundTrip(rec: LeapSecond)
    requires Writable(rec)
    ensures ParseRecordLine(FormatRecord(rec)) == Success(rec)
  {
    RecordItemsAreWords(rec);
    FieldsJoin(RecordItems(rec));
    ParseRecordItems(rec);
  }

  /** Every character of a space-joined line is the separator or a character
      of one of the parts. */
  lemma {:induction false} JoinedWordChars(parts: seq<string>)
    requires forall j :: 0 <= j < |parts| ==> NoSpace(parts[j]) && '#' !in parts[j]
    ensures var s := Join(parts, ' ');
      '#' !in s && forall i :: 0 <= i < |s| ==> s[i] == ' ' || !IsSpace(s[i])
    decreases |parts|
  {
    if |parts| > 1 {
      JoinedWordChars(parts[1..]);
      var s, t := Join(parts, ' '), Join(parts[1..], ' ');
      assert s == parts[0] + [' '] + t;
      forall i | 0 <= i < |s| ensures s[i] != '#' && (s[i] == ' ' || !IsSpace(s[i])) {
        if i < |parts[0]| {
          assert s[i] == parts[0][i];
        } else if i > |parts[0]| {
          assert s[i] == t[i - |parts[0]| - 1];
        }
      }
    }
  }

  /** A join ends with the last character of its last part. */
  lemma {:induction false} JoinEndsWithLastPart(parts: seq<string>, sep: char)
    requires |parts| >= 1 && parts[|parts| - 1] != []
    ensures var s, l := Join(parts, sep), parts[|parts| - 1];
      s != [] && s[|s| - 1] == l[|l| - 1]
    decreases |parts|
  {
    if |parts| > 1 {
      JoinEndsWithLastPart(parts[1..], sep);
    }
  }

  lemma NoCommentLeavesLine(line: string)
    requires '#' !in line
    ensures StripComment(line) == line
  {
  }

  /** The line of a record is scanned unchanged and parses back to it. */
  lemma RecordLineItems(rec: LeapSecond)
    requires Writable(rec)
    ensures PlainLine(FormatRecord(rec))
    ensures LineItems(FormatRecord(rec)) == RecordItems(rec)
  {
    var items, line := RecordItems(rec), FormatRecord(rec);
    RecordItemsAreWords(rec);
    JoinedWordChars(items);
    NoCommentLeavesLine(line);
    FieldsJoin(items);
    JoinEndsWithLastPart(items, ' ');
    assert IsDigit(items[4][|items[4]| - 1]);
  }

  /** The line of a record is a data line holding that record. */
  lemma RecordLineClassified(rec: LeapSecond)
    requires Writable(rec)
    ensures Classify(FormatRecord(rec)) == Record(rec)
  {
    RecordLineItems(rec);
    ParseRecordItems(rec);
  }

  function FormatLines(recs: seq<LeapSecond>): (ls: seq<string>)
    ensures |ls| == |recs|
    ensures forall j :: 0 <= j < |recs| ==> ls[j] == FormatRecord(recs[j])
    decreases |recs|
  {
    if recs == [] then [] else [FormatRecord(recs[0])] + FormatLines(recs[1..])
  }

  /** The data file holding these records, one per line. */
  function FormatFile(recs: seq<LeapSecond>): string {
    Unlines(FormatLines(recs))
  }

  lemma {:induction false} ParseFormattedLines(recs: seq<LeapSecond>)
    requires forall j :: 0 <= j < |recs| ==> Writable(recs[j])
    ensures ParseLines(FormatLines(recs)) == FileParse(recs, None)
    decreases |recs|
  {
    if recs != [] {
      FormattedLinesStep(recs);
      ParseFormattedLines(recs[1..]);
      assert [recs[0]] + recs[1..] == recs;
    }
  }

  lemma FormattedLinesStep(recs: seq<LeapSecond>)
    requires recs != [] && Writable(recs[0])
    ensures ParseLines(FormatLines(recs)) == Prepend([recs[0]], ParseLines(FormatLines(recs[1..])))
  {
    RecordLineClassified(recs[0]);
    assert FormatLines(recs) == [FormatRecord(recs[0])] + FormatLines(recs[1..]);
    ParseLinesRecord(FormatRecord(recs[0]), FormatLines(recs[1..]), recs[0]);
  }

  /** fetchDataFileFromReader reads back every file of records written one
      per line, all of them and in order. */
  lemma FileRoundTrip(recs: seq<LeapSecond>)
    requires forall j :: 0 <= j < |recs| ==> Writable(recs[j])
    ensures DataFile(FormatFile(recs)) == Success(recs)
  {
    var ls := FormatLines(recs);
    forall j | 0 <= j < |ls| ensures PlainLine(ls[j]) {
      RecordLineItems(recs[j]);
    }
    LinesUnlines(ls);
    ParseFormattedLines(recs);
  }
}

/** The table-driven tests of newLeapSecondDataFromString, and the lines
    parseDataFile treats differently from it. */
module HistoricalExamples {
  import opened Wrappers
  import opened Errors
  import opened Numbers
  import opened Text
  import opened Calendar
  import opened Historical

  predicate AllBlanks(pad: string) {
    forall i :: 0 <= i < |pad| ==> pad[i] == ' '
  }

  /** Leading spaces are not part of any field. */
  lemma {:induction false} FieldsAfterBlanks(pad: string, s: string)
    requires AllBlanks(pad)
    ensures Fields(pad + s) == Fields(s)
    decreases |pad|
  {
    var x := pad + s;
    if pad == [] {
      assert x == s;
    } else {
      assert x[0] == ' ' && IsSpace(x[0]);
      assert Fields(x) == Fields(x[1..]);
      assert x[1..] == pad[1..] + s;
      FieldsAfterBlanks(pad[1..], s);
    }
  }

  /** A word after some spaces and before a space is the next field. */
  lemma PaddedWord(pad: string, w: string, s: string)
    requires AllBlanks(pad) && w != [] && NoSpace(w)
    ensures Fields(pad + w + " " + s) == [w] + Fields(s)
  {
    assert pad + w + " " + s == pad + (w + [' '] + s);
    FieldsAfterBlanks(pad, w + [' '] + s);
    FieldsAtSpace(w, ' ', s);
    FieldsOfWord(w);
  }

  lemma PaddedLastWord(pad: string, w: string)
    requires AllBlanks(pad) && w != [] && NoSpace(w)
    ensures Fields(pad + w) == [w]
  {
    FieldsAfterBlanks(pad, w);
    FieldsOfWord(w);
  }

  /** Words separated by a space, each preceded by some extra blanks. */
  function Padded(words: seq<string>, gaps: seq<string>): string
    requires |gaps| == |words|
    decreases |words|
  {
    if words == [] then ""
    else if |words| == 1 then gaps[0] + words[0]
    else gaps[0] + words[0] + " " + Padded(words[1..], gaps[1..])
  }

  lemma {:induction false} FieldsPadded(words: seq<string>, gaps: seq<string>)
    requires |gaps| == |words|
    requires forall i :: 0 <= i < |words| ==> words[i] != [] && NoSpace(words[i]) && AllBlanks(gaps[i])
    ensures Fields(Padded(words, gaps)) == words
    decreases |words|
  {
    if |words| == 1 {
      PaddedLastWord(gaps[0], words[0]);
    } else if |words| > 1 {
      FieldsPadded(words[1..], gaps[1..]);
      PaddedWord(gaps[0], words[0], Padded(words[1..], gaps[1..]));
      assert [words[0]] + words[1..] == words;
    }
  }

  /** The fields of the test's valid line, written word by word. */
  lemma ValidFields()
    ensures Fields("41317.0" + "    " + "1" + "  " + "1" + " " + "1972" + "       " + "10")
            == ["41317.0", "1", "1", "1972", "10"]
  {
    var w := ["41317.0", "1", "1", "1972", "10"];
    var g := ["", "   ", " ", "", "      "];
    var p3 := Padded(["1972", "10"], ["", "      "]);
    var p2 := Padded(["1", "1972", "10"], [" ", "", "      "]);
    var p1 := Padded(["1", "1", "1972", "10"], ["   ", " ", "", "      "]);
    assert p3 == "1972" + " " + ("      " + "10");
    assert p2 == " " + "1" + " " + p3;
    assert p1 == "   " + "1" + " " + p2;
    assert w[1..] == ["1", "1", "1972", "10"] && g[1..] == ["   ", " ", "", "      "];
    assert Padded(w, g) == "" + "41317.0" + " " + p1;
    assert "41317.0" + "    " + "1" + "  " + "1" + " " + "1972" + "       " + "10" == Padded(w, g);
    FieldsPadded(w, g);
  }

  /** A five-word test line parses as its words. */
  lemma FiveFieldLine(words: seq<string>, gaps: seq<string>)
    requires |words| == 5 && |gaps| == 5
    requires forall i :: 0 <= i < 5 ==> words[i] != [] && NoSpace(words[i]) && AllBlanks(gaps[i])
    ensures ParseRecordLine(Padded(words, gaps)) == ParseItems(words)
  {
    FieldsPadded(words, gaps);
  }

  lemma TokenFacts()
    ensures IsFloatToken("41317.0") && IsFloatToken("10.0") && IsFloatToken("0.0")
    ensures !IsFloatToken("foo")
  {
    MjdToken();
    TenToken();
    ZeroToken();
    FooToken();
  }

  lemma MjdToken() ensures IsFloatToken("41317.0") {
    assert "41317.0" == "41317" + "." + "0";
    DecimalFloatToken("41317", "0");
  }

  lemma TenToken() ensures IsFloatToken("10.0") {
    assert "10.0" == "10" + "." + "0";
    DecimalFloatToken("10", "0");
  }

  lemma ZeroToken() ensures IsFloatToken("0.0") {
    assert "0.0" == "0" + "." + "0";
    DecimalFloatToken("0", "0");
  }

  lemma FooToken() ensures !IsFloatToken("foo") {
    assert MantissaRun("foo", false) == 0;
    assert CountMantissaDigits([], false) == 0;
  }

  /** ParseFloat also takes Go's hexadecimal literals with a 'p' exponent and
      underscores between digits, but a hexadecimal mantissa without an
      exponent, doubled underscores or a leading one are syntax errors. */
  lemma MjdTokenExamples()
    ensures IsFloatToken("0x1p-2") && IsFloatToken("1_000.5")
    ensures !IsFloatToken("0x1") && !IsFloatToken("1__000") && !IsFloatToken("_1")
  {
    HexToken();
    UnderscoreToken();
    HexWithoutExponent();
    DoubleUnderscore();
    LeadingUnderscore();
  }

  lemma HexToken() ensures IsFloatToken("0x1p-2") {
    var m := "0x1p-2"[2..];
    assert m == "1p-2";
    assert MantissaRun(m, true) == 1 by {
      assert m[1..] == "p-2";
      assert MantissaRun(m[1..], true) == 0;
    }
    assert m[..1] == "1" && m[1..] == "p-2";
    assert CountMantissaDigits("1", true) == 1 && CountDots("1") == 0;
    assert IsExponentPart("p-2", 'p') by { assert "p-2"[2..] == "2"; }
    assert '_' !in "0x1p-2";
  }

  lemma UnderscoreToken() ensures IsFloatToken("1_000.5") {
    var s := "1_000.5";
    UnderscoreMantissa();
    assert s[..|s|] == s && s[|s|..] == [];
    UnderscoreScanExample();
  }

  lemma UnderscoreMantissa()
    ensures MantissaRun("1_000.5", false) == 7
    ensures CountDots("1_000.5") == 1 && CountMantissaDigits("1_000.5", false) == 5
  {
    UnderscoreRun();
    UnderscoreCounts();
  }

  lemma UnderscoreRun()
    ensures MantissaRun("1_000.5", false) == 7
  {
    var s := "1_000.5";
    assert forall i :: 0 <= i < |s| ==> IsMantissaChar(s[i], false);
    MantissaRunAll(s, false);
  }

  lemma UnderscoreCounts()
    ensures CountDots("1_000.5") == 1 && CountMantissaDigits("1_000.5", false) == 5
  {
    var s := "1_000.5";
    assert s[1..] == "_000.5" && s[2..] == "000.5";
    var t := "000.5";
    assert t[1..] == "00.5" && t[2..] == "0.5" && t[3..] == ".5" && t[4..] == "5" && t[5..] == [];
  }

  lemma UnderscoreScanExample()
    ensures UnderscoreScan("1_000.5", false, Start)
  {
    var s := "1_000.5";
    assert s[1..] == "_000.5" && s[2..] == "000.5";
    var t := "000.5";
    assert t[1..] == "00.5" && t[2..] == "0.5" && t[3..] == ".5" && t[4..] == "5" && t[5..] == [];
  }

  lemma HexWithoutExponent() ensures !IsFloatToken("0x1") {
    var m := "0x1"[2..];
    assert m == "1";
    assert MantissaRun(m, true) == 1 by { assert m[1..] == []; }
    assert m[1..] == [];
  }

  lemma DoubleUnderscore() ensures !IsFloatToken("1__000") {
    var s := "1__000";
    assert s[0] == '1' && s[1] == '_' && '_' in s;
    assert !UnderscoreScan(s, false, Start) by {
      assert s[1..] == "__000" && s[2..] == "_000";
      assert !UnderscoreScan("_000", false, Underscore);
    }
    assert !EqualFoldString(s, "nan") && !EqualFoldString(s, "inf") && !EqualFoldString(s, "infinity");
  }

  lemma LeadingUnderscore() ensures !IsFloatToken("_1") {
    var s := "_1";
    assert s[0] == '_' && !Sign(s[0]);
    assert !UnderscoreScan(s, false, Start);
    assert !EqualFoldString(s, "nan") && !EqualFoldString(s, "inf") && !EqualFoldString(s, "infinity");
  }


  lemma FooNotUint(n: nat)
    ensures ParseUint("foo", n) == Failure(Syntax)
  {
  }

  lemma ValidNumerals()
    ensures FormatNat(1) == "1" && FormatNat(1972) == "1972" && FormatNat(10) == "10"
  {
  }

  /** The record the valid test line describes. */
  lemma ValidItems()
    ensures ParseItems(["41317.0", "1", "1", "1972", "10"]) ==
              Success(LeapSecond("41317.0", 1, 1, 1972, 10, Seconds(CivilDate(1971, 12, 31), 23, 59, 59)))
  {
    TokenFacts();
    var rec := LeapSecond("41317.0", 1, 1, 1972, 10, EffectiveInstant(1972, 1, 1));
    ValidNumerals();
    assert RecordItems(rec) == ["41317.0", "1", "1", "1972", "10"];
    ParseRecordItems(rec);
  }

  /** The spacing of the five-field test lines after their first field. */
  const TestGaps: seq<string> := ["", "    ", " ", "", "      "]

  /** A five-field line spaced like the invalid-field tests. */
  function TestLine(w0: string, w1: string, w2: string, w3: string, w4: string): string {
    w0 + "     " + w1 + "  " + w2 + " " + w3 + "       " + w4
  }

  lemma TestLineTail(w2: string, w3: string, w4: string)
    ensures Padded([w2, w3, w4], [" ", "", "      "]) == " " + w2 + " " + w3 + " " + "      " + w4
  {
    var p4 := Padded([w4], ["      "]);
    var p3 := Padded([w3, w4], ["", "      "]);
    assert p4 == "      " + w4;
    assert p3 == "" + w3 + " " + p4;
  }

  /** The test lines' spacing as padded words. */
  lemma TestLinePadded(w0: string, w1: string, w2: string, w3: string, w4: string)
    ensures TestLine(w0, w1, w2, w3, w4) == Padded([w0, w1, w2, w3, w4], TestGaps)
  {
    var w := [w0, w1, w2, w3, w4];
    var g := TestGaps;
    var p2 := Padded([w2, w3, w4], [" ", "", "      "]);
    var p1 := Padded([w1, w2, w3, w4], ["    ", " ", "", "      "]);
    TestLineTail(w2, w3, w4);
    assert p1 == "    " + w1 + " " + p2;
    assert w[1..] == [w1, w2, w3, w4] && g[1..] == ["    ", " ", "", "      "];
    assert Padded(w, g) == "" + w0 + " " + p1;
  }

  lemma TestLineItems(w0: string, w1: string, w2: string, w3: string, w4: string)
    requires w0 != [] && NoSpace(w0) && w1 != [] && NoSpace(w1) && w2 != [] && NoSpace(w2)
    requires w3 != [] && NoSpace(w3) && w4 != [] && NoSpace(w4)
    ensures ParseRecordLine(TestLine(w0, w1, w2, w3, w4)) == ParseItems([w0, w1, w2, w3, w4])
  {
    TestLinePadded(w0, w1, w2, w3, w4);
    FiveFieldLine([w0, w1, w2, w3, w4], TestGaps);
  }

  /** The valid test line: the leap second of 1 January 1972 is the last
      second of 31 December 1971. */
  lemma ValidRecordExample()
    ensures ParseRecordLine("41317.0" + "    " + "1" + "  " + "1" + " " + "1972" + "       " + "10")
            == Success(LeapSecond("41317.0", 1, 1, 1972, 10, Seconds(CivilDate(1971, 12, 31), 23, 59, 59)))
  {
    ValidFields();
    ValidItems();
  }

  /** Tests of newLeapSecondDataFromString: the empty line has no fields. */
  lemma EmptyRecordLineExample()
    ensures ParseRecordLine("") == Failure(InvalidLeapSecondData)
  {
  }

  /** Tests of newLeapSecondDataFromString: four fields are too few. */
  lemma FourFieldsLineExample()
    ensures ParseRecordLine("0.0" + " " + "1" + " " + "2" + " " + "1903") == Failure(InvalidLeapSecondData)
  {
    var four := ["0.0", "1", "2", "1903"];
    assert "0.0" + " " + "1" + " " + "2" + " " + "1903" == Padded(four, ["", "", "", ""]);
    FieldsPadded(four, ["", "", "", ""]);
  }

  lemma SevenTail()
    ensures Padded(["1903", "4", "5", "6"], ["", "", "", ""]) == "1903" + " " + "4" + " " + "5" + " " + "6"
  {
    var p5 := Padded(["5", "6"], ["", ""]);
    var p4 := Padded(["4", "5", "6"], ["", "", ""]);
    assert p5 == "5" + " " + "6";
    assert p4 == "4" + " " + p5;
  }

  lemma SevenPadded()
    ensures "0.0" + " " + "1" + " " + "2" + " " + "1903" + " " + "4" + " " + "5" + " " + "6"
            == Padded(["0.0", "1", "2", "1903", "4", "5", "6"], ["", "", "", "", "", "", ""])
  {
    var p3 := Padded(["1903", "4", "5", "6"], ["", "", "", ""]);
    var p2 := Padded(["2", "1903", "4", "5", "6"], ["", "", "", "", ""]);
    var p1 := Padded(["1", "2", "1903", "4", "5", "6"], ["", "", "", "", "", ""]);
    SevenTail();
    assert p2 == "2" + " " + p3;
    assert p1 == "1" + " " + p2;
    assert Padded(["0.0", "1", "2", "1903", "4", "5", "6"], ["", "", "", "", "", "", ""]) == "0.0" + " " + p1;
  }

  lemma SevenWords()
    ensures var words, gaps := ["0.0", "1", "2", "1903", "4", "5", "6"], ["", "", "", "", "", "", ""];
      forall i :: 0 <= i < |words| ==> words[i] != [] && NoSpace(words[i]) && AllBlanks(gaps[i])
  {
    assert NoSpace("0.0") && NoSpace("1903");
    assert NoSpace("1") && NoSpace("2") && NoSpace("4") && NoSpace("5") && NoSpace("6");
  }

  /** Tests of newLeapSecondDataFromString: seven fields are too many. */
  lemma SevenFieldsLineExample()
    ensures ParseRecordLine("0.0" + " " + "1" + " " + "2" + " " + "1903" + " " + "4" + " " + "5" + " " + "6")
            == Failure(InvalidLeapSecondData)
  {
    SevenPadded();
    SevenWords();
    FieldsPadded(["0.0", "1", "2", "1903", "4", "5", "6"], ["", "", "", "", "", "", ""]);
  }

  lemma SmallNumbers()
    ensures ParseUint("1", 8) == Success(1) && ParseUint("2", 8) == Success(2)
    ensures ParseUint("1903", 16) == Success(1903) && ParseUint("4", 16) == Success(4)
  {
    MaxUint8();
    MaxUint16();
  }

  /** parseDataFile does not count the fields: with four of them it indexes
      past the end. */
  lemma ShortDataLineExample()
    ensures ParseItems(["0.0", "1", "2", "1903"]) == Failure(IndexPanic(4))
  {
    ZeroToken();
    SmallNumbers();
  }

  /** parseDataFile does not count the fields: of seven, the first five are
      read and the rest ignored. */
  lemma LongDataLineExample()
    ensures ParseItems(["0.0", "1", "2", "1903", "4", "5", "6"]).Success?
  {
    ZeroToken();
    SmallNumbers();
  }

  lemma MoreNumbers()
    ensures ParseUint("1972", 16) == Success(1972) && ParseUint("10", 16) == Success(10)
  {
    MaxUint16();
  }

  /** Tests of newLeapSecondDataFromString: an MJD that is not a number. */
  lemma InvalidMjdExample()
    ensures ParseRecordLine(TestLine("foo", "1", "1", "1972", "10"))
            == Failure(FieldParse(Mjd, "foo", Syntax))
  {
    TestLineItems("foo", "1", "1", "1972", "10");
    FooToken();
  }

  lemma DayItems()
    ensures ParseItems(["10.0", "foo", "1", "1972", "10"]) == Failure(FieldParse(Day, "foo", Syntax))
  {
    TenToken();
    FooNotUint(8);
  }

  /** Tests of newLeapSecondDataFromString: a day that is not a number. */
  lemma InvalidDayExample()
    ensures ParseRecordLine(TestLine("10.0", "foo", "1", "1972", "10"))
            == Failure(FieldParse(Day, "foo", Syntax))
  {
    TestLineItems("10.0", "foo", "1", "1972", "10");
    DayItems();
  }

  lemma MonthItems()
    ensures ParseItems(["10.0", "1", "foo", "1972", "10"]) == Failure(FieldParse(Month, "foo", Syntax))
  {
    var items := ["10.0", "1", "foo", "1972", "10"];
    TenToken();
    assert UintField(items, 1, 8, Day) == Success(1) by { SmallNumbers(); }
    assert UintField(items, 2, 8, Month) == Failure(FieldParse(Month, "foo", Syntax)) by { FooNotUint(8); }
  }

  /** Tests of newLeapSecondDataFromString: a month that is not a number. */
  lemma InvalidMonthExample()
    ensures ParseRecordLine(TestLine("10.0", "1", "foo", "1972", "10"))
            == Failure(FieldParse(Month, "foo", Syntax))
  {
    TestLineItems("10.0", "1", "foo", "1972", "10");
    MonthItems();
  }

  lemma YearItems()
    ensures ParseItems(["10.0", "1", "1", "foo", "10"]) == Failure(FieldParse(Year, "foo", Syntax))
  {
    var items := ["10.0", "1", "1", "foo", "10"];
    TenToken();
    assert UintField(items, 1, 8, Day) == Success(1) by { SmallNumbers(); }
    assert UintField(items, 2, 8, Month) == Success(1) by { SmallNumbers(); }
    assert UintField(items, 3, 16, Year) == Failure(FieldParse(Year, "foo", Syntax)) by { FooNotUint(16); }
  }

  /** Tests of newLeapSecondDataFromString: a year that is not a number. */
  lemma InvalidYearExample()
    ensures ParseRecordLine(TestLine("10.0", "1", "1", "foo", "10"))
            == Failure(FieldParse(Year, "foo", Syntax))
  {
    TestLineItems("10.0", "1", "1", "foo", "10");
    YearItems();
  }

  lemma OffsetItems()
    ensures ParseItems(["10.0", "1", "1", "1972", "foo"]) == Failure(FieldParse(TaiOffset, "foo", Syntax))
  {
    var items := ["10.0", "1", "1", "1972", "foo"];
    TenToken();
    assert UintField(items, 1, 8, Day) == Success(1) by { SmallNumbers(); }
    assert UintField(items, 2, 8, Month) == Success(1) by { SmallNumbers(); }
    assert UintField(items, 3, 16, Year) == Success(1972) by { MoreNumbers(); }
    assert UintField(items, 4, 16, TaiOffset) == Failure(FieldParse(TaiOffset, "foo", Syntax)) by {
      FooNotUint(16);
    }
  }

  /** Tests of newLeapSecondDataFromString: a TAI offset that is not a number. */
  lemma InvalidOffsetExample()
    ensures ParseRecordLine(TestLine("10.0", "1", "1", "1972", "foo"))
            == Failure(FieldParse(TaiOffset, "foo", Syntax))
  {
    TestLineItems("10.0", "1", "1", "1972", "foo");
    OffsetItems();
  }
}
