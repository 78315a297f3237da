# leapseconds in Dafny

A model of the Go package `leapseconds`. The package reads two kinds of leap-second data published by the IERS:

- **The scheduled entry.** This is a single line `OFFSET|LAST DATE|NEXT DATE`. It gives the current TAI−UTC offset, the date of the most recent leap second, and the date of the next announced one, or the text `Not scheduled`.
- **The historical data file** (`Leap_Second.dat`). It has one record `MJD DD MM YYYY OFFSET` per line, and `#` starts a comment.

An `Information` value holds the records and the entry. It loads them from two URIs. It can optionally fall back to a data file embedded in the binary. It answers the `LeapSeconds` queries: `All`, `Last`, `Scheduled` and `TAIOffset`.

The Dafny modules follow the structure of `main.go`:

| module | file | what it holds |
|---|---|---|
| `Wrappers`, `Errors` | `wrappers.dfy`, `errors.dfy` | `Option`/`Result`, and the package's errors with the field each parse error came from |
| `Text` | `text.dfy` | `strings.Split`, `strings.Fields`, the `#` comment cut and `bufio.ScanLines`, with their algebra |
| `Numbers` | `numbers.dfy` | `strconv.ParseUint(s, 10, bits)` exactly (syntax and range errors), decimal formatting, and the syntax of the tokens `strconv.ParseFloat` accepts (decimal and hexadecimal literals, underscores, `inf`, `nan`) |
| `Calendar` | `calendar.dfy` | proleptic Gregorian day numbers, `time.Date` normalisation, "midnight minus one second" |
| `DateLayout` | `date_layout.dfy` | `time.Parse("02 January 2006", …)` and the matching formatter |
| `Scheduled` | `scheduled.dfy` | `newLastEntryFromString`, `parseScheduled`, and the package's test table for them |
| `Historical`, `HistoricalExamples` | `historical.dfy` | the records: `newLeapSecondDataFromString`, `newLeapSecondDataFromItems`, `updateDate`, `parseDataFile`, `fetchDataFileFromReader`, and the package's test table for them |
| `Leapseconds` | `information.dfy` | the `Information` class with its loaders and accessors |

Instants (`time.Time`) are whole seconds since 1970-01-01T00:00:00Z. A `time.Duration` is a count of nanoseconds. The HTTP GET of a URI is represented by what it delivered: a response body, or a transport error. The embedded data file is a parameter.

`parseDataFile` is specified by a function over the scanned lines (`Historical.ParseLines`). The method `Historical.ParseDataFile` scans the body with a loop, as the Go code does, and is proved equal to that function. `Information` is a class whose methods update its fields. Each method is specified by a function of the old state and what the fetch delivered (`Leapseconds.LoadHistoricalSpec`, `Leapseconds.ScheduledFromURL`). The lemmas beside these functions prove what loading promises.

## Model

| member | source | states |
|---|---|---|
| Text.SplitCount | main.go:143-146 | `strings.Split` on the bar separator gives one more piece than there are separators, and no piece contains a separator |
| Text.JoinSplit | main.go:143 | joining the pieces with the separator gives the line back |
| Text.SplitJoin | main.go:143 | splitting separator-free pieces joined by the separator gives back exactly those pieces |
| Text.Fields | main.go:208 | `strings.Fields` yields only non-empty words without white space |
| Text.FieldsAtSpace | main.go:254 | a white-space character splits the fields: the fields of `a c b` are the fields of `a` followed by those of `b` |
| Text.FieldsJoin | main.go:208 | the fields of space-joined words are those words |
| Text.StripComment | main.go:248-252 | the comment regexp leaves the line's prefix before its first `#`, which holds no `#` |
| Text.TrailingCommentIgnored | main.go:251-254 | a trailing `#` comment does not change the fields of a line |
| Text.Lines | main.go:249-250 | `bufio.ScanLines` never yields a line containing a newline |
| Text.LinesCons | main.go:169-173 | the first scanned line is the text before the first newline, minus a trailing carriage return |
| Text.LinesUnlines | main.go:249-250 | scanning newline-terminated lines gives those lines back |
| Numbers.ParseUint | main.go:147 | `ParseUint(s, 10, bits)` has a syntax error on empty input. It has a range error when the leading digits exceed `2^bits - 1`, a syntax error on any other non-digit, and otherwise the decimal value |
| Numbers.ParseUintOutcome | main.go:221-240 | parsing succeeds exactly on a non-empty all-digit numeral whose value fits in the bit size, giving its value; a failure is a range error when the digits before the first non-digit already exceed the bound, and a syntax error otherwise |
| Numbers.ParseFormatNat | main.go:147 | every value that fits is read back from its decimal text |
| Numbers.NumeralFloatToken | main.go:219 | `Numbers.IsFloatToken`, the model of the syntax `strconv.ParseFloat` accepts, holds of every plain decimal numeral |
| Numbers.DecimalFloatToken | main.go:219 | `Numbers.IsFloatToken` (the syntax of `strconv.ParseFloat`) holds of every decimal numeral with a fraction, such as `41317.0` or `41317.` |
| Calendar.DaysIn | main.go:153 | every month has 28 to 31 days |
| Calendar.MarchYearLength | main.go:204 | a year counted from March has 366 days exactly when the February in it is a leap February |
| Calendar.MonthStart | main.go:204 | the first of month m comes `DaysIn(m - 1)` days after the first of month m - 1 |
| Calendar.NewYear | main.go:204 | the 1st of January comes 31 days after the 1st of December |
| Calendar.UnixEpoch | main.go:204 | 1970-01-01 is day 0 |
| Calendar.DateMidnightOfValid | main.go:204 | `Calendar.DateMidnight`, the model of `time.Date` at midnight, of an existing date is that date's midnight |
| Calendar.DayOverflowRollsOver | main.go:204 | `time.Date` turns the day after the last of a month into the first of the next month, or of the next year |
| Calendar.MonthCarry | main.go:204 | `time.Date` turns month 13 into January of the next year, and month 0 into December of the previous year |
| Calendar.DayBefore | main.go:204 | the previous day exists and is exactly one day earlier |
| Calendar.MidnightMinusOneSecond | main.go:204 | midnight of a date minus one second is 23:59:59 of the day before, including across month and year boundaries |
| DateLayout.ParseDate | main.go:153 | an accepted date exists in the calendar and has a four-digit year |
| DateLayout.ParseYear | main.go:153 | the year element succeeds exactly when the rest of the text is four digits and the day exists in that month of that year, and the date has that year, month and day |
| DateLayout.ParseMonthYear | main.go:153 | the text after the day gives a valid date with that day |
| DateLayout.LookupNamedMonth | main.go:153 | text starting with a month name is read as that month, with the rest left over |
| DateLayout.LookupMonth | main.go:153 | the month-name lookup finds nothing exactly when no name is a case-insensitive prefix of the text; otherwise it gives the first name in calendar order that is, and the text after it |
| DateLayout.ParseFormatDate | main.go:153-160 | the layout parser reads back every date written in the layout |
| Scheduled.NewLastEntryOutcome | main.go:140-166 | for `Scheduled.NewLastEntry`, the model of `newLastEntryFromString`: `ErrInvalidScheduledEntry` is returned exactly when the line does not contain exactly two bar separators. On success the offset is the 16-bit parse of field 0, the last date is midnight UTC of the date in field 1, and the next date is none exactly when field 2 is `Not scheduled`, otherwise midnight of the date in it |
| Scheduled.OffsetField | main.go:147-151 | the offset field (`strconv.ParseUint(raw, 10, 16)`) accepts exactly the non-empty all-digit texts whose value is below 65536, giving that value; a failure names the offset field and its text, with a range error when the leading digits already exceed 65535 and a syntax error otherwise |
| Scheduled.DateFieldOfFormatted | main.go:153-161 | `Scheduled.DateField` reads a date written in the layout as midnight UTC of that date; a text the layout rejects is a layout error naming the field and its text |
| Scheduled.FieldwiseEntry | main.go:147-163 | for three fields without bars, the error is that of the first field that fails, in the order offset, last date, then next date unless it is `Not scheduled`; with no failure the entry holds the three parsed values |
| Scheduled.AcceptedEntry | main.go:140-166 | a line whose offset text is accepted and whose dates are written in the layout is read as that offset and the midnights of those dates |
| Scheduled.NextDateChecked | main.go:157-161 | when the offset and last date are valid, a next date that is neither `Not scheduled` nor a date is the error |
| Scheduled.ParseScheduledFirstLineOnly | main.go:168-178 | for `Scheduled.ParseScheduled`, the model of `parseScheduled`: only the first line of the scheduled body is parsed, without its carriage return; the rest is ignored |
| Scheduled.ParseScheduledEmpty | main.go:168-178 | an empty body parses as an empty line, which is `ErrInvalidScheduledEntry` |
| Scheduled.ScheduledRoundTrip | main.go:140-166 | every entry written as offset, last date and next date (or `Not scheduled`) joined by bars is parsed back to the same offset, midnight of the last date, and the next date or none |
| Scheduled.FormatLastEntryPlain | main.go:168-173 | such a written entry is a single scanned line |
| Scheduled.NotScheduledExample | main_test.go:65-72 | the fields `37`, the date 2016-12-31 written in the layout, and `Not scheduled` give offset 37, last 2016-12-31, and no next date |
| Scheduled.DecemberText | main_test.go:66 | 2016-12-31 written in the layout is `31 December 2016`, the text of the test line |
| Scheduled.NextScheduledExample | main_test.go:73-80 | the fields `36`, 2015-06-30 and 2016-12-31 written in the layout give offset 36, last 2015-06-30, and next 2016-12-31 |
| Scheduled.JuneText | main_test.go:74 | 2015-06-30 written in the layout is `30 June 2015`, the text of the test line |
| Scheduled.EmptyLineExample | main_test.go:81 | the empty line is `ErrInvalidScheduledEntry` |
| Scheduled.TwoFieldsExample | main_test.go:82 | two fields are `ErrInvalidScheduledEntry` |
| Scheduled.FourFieldsExample | main_test.go:83 | four fields are `ErrInvalidScheduledEntry` |
| Scheduled.OffsetSyntaxExamples | main_test.go:84-85 | offsets `foo` and `-10` are syntax errors in the offset field |
| Scheduled.OffsetTooLargeExample | main.go:147-150 | offset `65536` does not fit in 16 bits and is a range error |
| Scheduled.InvalidLastDateExample | main_test.go:86 | last date `foo` is a layout error in the last-date field |
| Scheduled.InvalidNextDateExample | main_test.go:87 | next date `foo` is a layout error in the next-date field |
| Historical.EffectiveInstant | main.go:203-205 | for an existing date, the leap second is 23:59:59 UTC of the day before it, and that day exists |
| Historical.EffectiveInstantNormalises | main.go:203-205 | day and month are not range-checked: the day after a month's end is the first of the next month, and month 13 is January of the next year |
| Historical.UintField | main.go:221-240 | `strconv.ParseUint(items[k], 10, bitSize)` accepts a present item exactly when it is a non-empty all-digit text whose value fits in the bit size, giving that value; a failure names the field and the item, with a range error when the leading digits already exceed the bound and a syntax error otherwise; a missing item panics at its index |
| Historical.ParseItemsSucceeds | main.go:215-243 | `Historical.ParseItems`, the model of `newLeapSecondDataFromItems`, succeeds exactly when the first five items are present, item 0 is a `ParseFloat` token, and items 1-4 pass `ParseUint` at 8, 8, 16 and 16 bits |
| Historical.ParseItemsFirstError | main.go:215-243 | a failure is decided by the first of MJD, day, month, year and offset that is missing or rejected: a missing one panics at its index after all present items were accepted; a rejected one gives an error naming its field, its text and its parser's cause, with every earlier item accepted |
| Historical.ParseItems | main.go:215-243 | the only errors are a field parse error or an index panic, and a panic happens only with fewer than five items, at the first missing index. On success the MJD is item 0, day, month, year and offset are the 8/8/16/16-bit parses of items 1-4, and the instant is the one `updateDate` computes |
| Historical.ParseRecordLine | main.go:207-213 | `ErrInvalidLeapSecondData` is returned exactly when the line does not have five fields, and this path never panics |
| Historical.ExtraItemsIgnored | main.go:215-243 | items after the fifth are never looked at |
| Historical.ParseDataFile | main.go:246-267 | the scanning loop returns exactly the records and error of the line-by-line specification of `parseDataFile` |
| Historical.FetchDataFileFromReader | main.go:293-299 | on an error no records are returned, and otherwise the parsed records are |
| Historical.ParseLinesFirstError | main.go:250-261 | for `Historical.ParseLines`, the model of `parseDataFile` over the scanned lines (and `Historical.DataFile` over a whole text): the records are the parses of the lines that hold fields, in file order. Without an error every such line is parsed; with one, the first data line that fails gives that error and nothing after it is read |
| Historical.ParseLinesAppend | main.go:250-262 | nothing after an erroneous line is read; otherwise the records of consecutive pieces are concatenated |
| Historical.CommentLineSkipped | main.go:251-255 | a line starting with `#` is skipped |
| Historical.TrailingCommentSkipped | main.go:251-254 | a trailing comment does not change the items of a line |
| Historical.DataFileWellFormed | main.go:293-299 | every record of a loaded file has an accepted MJD token and the instant computed by `updateDate` |
| Historical.ParseRecordItems | main.go:215-243 | the items of a record, written out, are parsed back to that record |
| Historical.RecordLineItems | main.go:251-254 | a record written as a line has exactly its five items |
| Historical.RecordRoundTrip | main.go:207-243 | a record written as a space-separated line is parsed back to the same record |
| Historical.FileRoundTrip | main.go:246-299 | a data file written one record per line is parsed back to exactly those records, in order |
| HistoricalExamples.ValidRecordExample | main_test.go:113-120 | `41317.0    1  1 1972       10` gives day 1, month 1, year 1972, offset 10, and the leap second at 1971-12-31 23:59:59 UTC |
| HistoricalExamples.EmptyRecordLineExample | main_test.go:121 | the empty line is `ErrInvalidLeapSecondData` |
| HistoricalExamples.FourFieldsLineExample | main_test.go:122 | four fields are `ErrInvalidLeapSecondData` |
| HistoricalExamples.SevenFieldsLineExample | main_test.go:123 | seven fields are `ErrInvalidLeapSecondData` |
| HistoricalExamples.ShortDataLineExample | main.go:255-256 | a data line of four items makes the file parser panic at index 4 |
| HistoricalExamples.LongDataLineExample | main.go:255-256 | a data line of seven items is accepted by the file parser |
| HistoricalExamples.InvalidMjdExample | main_test.go:124 | MJD `foo` is a syntax error in the MJD field |
| HistoricalExamples.MjdTokenExamples | main.go:219 | `0x1p-2` and `1_000.5` are MJD tokens, as Go float literals; `0x1` (no exponent), `1__000` and `_1` are syntax errors |
| HistoricalExamples.TestLineItems | main_test.go:124-128 | a five-word line spaced like the invalid-field tests parses as its five words |
| HistoricalExamples.InvalidDayExample | main_test.go:125 | day `foo` is a syntax error in the day field |
| HistoricalExamples.InvalidMonthExample | main_test.go:126 | month `foo` is a syntax error in the month field |
| HistoricalExamples.InvalidYearExample | main_test.go:127 | year `foo` is a syntax error in the year field |
| HistoricalExamples.InvalidOffsetExample | main_test.go:128 | offset `foo` is a syntax error in the TAI offset field |
| Leapseconds.LoadHistoricalSucceeds | main.go:80-93 | for `Leapseconds.LoadHistoricalSpec`, the model of `loadHistorical`: loading succeeds exactly when the URI gives a valid file, or, with failover, when the URI fails without a panic and the embedded file is valid |
| Leapseconds.FailedLoadKeepsNothing | main.go:80-93 | a panic while parsing the fetched body leaves the previous records in place; a panic in the embedded file leaves none, because the failed fetch has already stored nil; any other failure leaves no records, never part of a file |
| Leapseconds.LoadedRecordsWellFormed | main.go:80-93 | after a successful load every record is well formed |
| Leapseconds.FailoverToEmbedded | main.go:83-90 | when the URI cannot be fetched, failover loads the embedded file; without failover the transport error is returned and no records are kept |
| Leapseconds.LoadFromURL | main.go:82 | through `Leapseconds.HistoricalFromURL`, the model of `fetchDataFileFromURL` once the GET has answered, a valid file from the URI is loaded whatever the embedded file holds |
| Leapseconds.ScheduledBodyRoundTrip | main.go:180-190 | `Leapseconds.ScheduledFromURL`, the model of `fetchScheduledFromURL` once the GET has answered, yields the written entry of a body's first line, whatever follows it |
| Leapseconds.Information.constructor | main.go:72-78 | a new `Information` has failover off, no records, and the zero scheduled entry |
| Leapseconds.Information.SetEmbeddedFailover | main.go:59-60 | setting `EmbeddedFailover` changes nothing else |
| Leapseconds.Information.LoadHistorical | main.go:80-93 | the records and error follow the URI, failover, panic and embedded-file cases of `loadHistorical`; the other fields are unchanged |
| Leapseconds.Information.LoadScheduled | main.go:95-102 | the scheduled entry is replaced only by a successfully parsed one; otherwise the error is returned and nothing changes |
| Leapseconds.Information.Load | main.go:104-112 | the historical data is loaded first, and its error stops the load before the scheduled entry; otherwise the scheduled load's outcome decides |
| Leapseconds.Information.All | main.go:114-120 | the instants of all records, one per record, in file order |
| Leapseconds.Information.Last | main.go:122-124 | the last leap second of the scheduled entry |
| Leapseconds.Information.Scheduled | main.go:126-128 | the announced next leap second of the scheduled entry, or none |
| Leapseconds.Information.TAIOffset | main.go:130-132 | the offset is a whole number of seconds, namely the entry's offset, and always fits in a `time.Duration` |

## Left out

- HTTP transport, `context.Context`, `http.Client` and `New`'s URI fields: each loader takes the body or the error the GET produced. The request and response plumbing in `fetchScheduledFromURL` and `fetchDataFileFromURL` is not modelled.
- `fetchDataFileFromEmbedded` and the `//go:embed` asset: the embedded file's text is a parameter of the loaders.
- `scanner.Err()`: reader errors and the scanner's token limit are not modelled. On a line longer than 64 KiB (`bufio.MaxScanTokenSize`) the Go scanner stops with `ErrTooLong`, so `parseDataFile` and `parseScheduled` fail, whereas the model parses the line.
- `strconv.ParseFloat`: the MJD is kept as the token it accepts without a syntax error (decimal or hexadecimal literals with an optional sign and exponent, underscores where `underscoreOK` allows them, `inf`, `infinity`, `nan`). The float value is not modelled.
- Historical.ParseItems: a token whose value overflows a float64 (such as `1e400`) is accepted, where `ParseFloat` returns `ErrRange` and the Go code reports an MJD error, because float values are not modelled.
- `regexp` `(?s)#.*?$`: only its effect on a scanned line is modelled, which is the removal of everything from the first `#`. A scanned line holds no newline, so this is exact.
- Text is a sequence of characters, not UTF-8 bytes. `strings.Fields` uses the Unicode white-space set; `time.Parse` compares month names letter by letter, ignoring ASCII case.
- The Go index-out-of-range panic in `newLeapSecondDataFromItems` (a data line with fewer than five items) is modelled as the error `IndexPanic(k)`, which callers propagate. A panic while parsing the fetched body then leaves `loadHistorical`'s old records in place, as an unwinding panic would. A panic in the embedded file leaves none, because the failed fetch has already stored nil. Recovery and the process dying are not modelled.
- `time.Time` is whole seconds in UTC. Location, monotonic reading and nanoseconds are not modelled, because every instant in this code is a whole second in UTC.
- Error texts from `errors.Wrapf` are not modelled: an error records its field, the raw text and the cause. The code does not wrap the field errors in `ErrParsing`, and neither does the model.
- `parseDataFile` does not require exactly five items on a data line: any line with at least five is accepted and its extra items are ignored, as in the code.
- The code does not require the next scheduled date to be after the last one, and neither does the model.
- Leapseconds.Information.Last: it only returns the stored instant. What that instant is follows from `Information.LoadScheduled` and `Scheduled.NewLastEntryOutcome`.
