/** time.Parse with the layout "02 January 2006", the format of both dates of
    the scheduled line: a two-digit day, the English month name (letters in
    any case), a four-digit year, separated by spaces, in UTC. */
module DateLayout {
  import opened Wrappers
  import opened Numbers
  import opened Calendar

  const MonthNames: seq<string> := ["January", "February", "March", "April", "May", "June",
    "July", "August", "September", "October", "November", "December"]

  predicate IsAsciiLetter(c: char) {
    'a' <= c <= 'z' || 'A' <= c <= 'Z'
  }

  /** The time package's match() on one character: equal, or the same ASCII
      letter in the other case. */
  predicate EqualFoldChar(c1: char, c2: char) {
    c1 == c2 || (IsAsciiLetter(c1) && IsAsciiLetter(c2) && Lower(c1) == Lower(c2))
  }

  /** `name` is a prefix of `s`, ignoring the case of letters. */
  predicate HasPrefixFold(s: string, name: string) {
    |s| >= |name| && forall i :: 0 <= i < |name| ==> EqualFoldChar(s[i], name[i])
  }

  /** time's lookup() over the month names from index `i` on: the month
      (1-based) of the first name `s` starts with, and the text after it. */
  function LookupMonth(s: string, i: nat): (r: Option<(int, string)>)
    requires i <= 12
    ensures r.None? <==> forall j :: i <= j < 12 ==> !HasPrefixFold(s, MonthNames[j])
    ensures r.Some? ==>
              var m := r.value.0;
              i < m <= 12 && HasPrefixFold(s, MonthNames[m - 1]) && r.value.1 == s[|MonthNames[m - 1]|..] &&
              forall j :: i <= j < m - 1 ==> !HasPrefixFold(s, MonthNames[j])
    decreases 12 - i
  {
    if i == 12 then None
    else if HasPrefixFold(s, MonthNames[i]) then Some((i + 1, s[|MonthNames[i]|..]))
    else LookupMonth(s, i + 1)
  }

  /** `s` without its leading ' ' characters (the time package's cutspace). */
  function TrimSpaces(s: string): (r: string)
    ensures r == [] || r[0] != ' '
    ensures |r| <= |s| && r == s[|s| - |r|..]
    ensures forall i :: 0 <= i < |s| - |r| ==> s[i] == ' '
    decreases |s|
  {
    if s != [] && s[0] == ' ' then TrimSpaces(s[1..]) else s
  }

  /** skip() for a single space of the layout: what remains must be empty or
      start with a space, and every leading space is consumed. */
  function SkipSpaces(s: string): Option<string> {
    if s != [] && s[0] != ' ' then None else Some(TrimSpaces(s))
  }

  /** The year "2006" element: exactly four digits (stdLongYear then atoi). */
  function FourDigits(u: string): (y: int)
    requires |u| == 4 && AllDigits(u)
    ensures 0 <= y <= 9999
  {
    1000 * DigitValue(u[0]) + 100 * DigitValue(u[1]) + 10 * DigitValue(u[2]) + DigitValue(u[3])
  }

  /** The rest of the layout once the day is read: " January 2006". */
  function ParseMonthYear(day: int, rest: string): (r: Option<CivilDate>)
    ensures r.Some? ==> Valid(r.value) && 0 <= r.value.year <= 9999 && r.value.day == day
  {
    match SkipSpaces(rest)
    case None => None
    case Some(t) =>
      match LookupMonth(t, 0)
      case None => None
      case Some((month, afterName)) =>
        match SkipSpaces(afterName)
        case None => None
        case Some(u) => ParseYear(day, month, u)
  }

  /** The year element " 2006" and the final checks: four digits, nothing
      after them, and a day that exists in that month. */
  function ParseYear(day: int, month: int, u: string): (r: Option<CivilDate>)
    requires 1 <= month <= 12
    ensures r.Some? <==> |u| == 4 && AllDigits(u) && 1 <= day <= DaysIn(FourDigits(u), month)
    ensures r.Some? ==> r.value == CivilDate(FourDigits(u), month, day) && Valid(r.value)
  {
    if |u| < 4 || !AllDigits(u[..4]) then None
    else if |u| > 4 then None
    else
      assert u[..4] == u;
      var year := FourDigits(u);
      if 1 <= day <= DaysIn(year, month) then Some(CivilDate(year, month, day)) else None
  }

  /** time.Parse("02 January 2006", s), giving the calendar date. The day must
      be exactly two digits, the year exactly four, nothing may follow the
      year, and the day must exist in that month of that year. */
  function ParseDate(s: string): (r: Option<CivilDate>)
    ensures r.Some? ==> Valid(r.value) && 0 <= r.value.year <= 9999
  {
    if |s| < 2 || !IsDigit(s[0]) || !IsDigit(s[1]) then None
    else ParseMonthYear(10 * DigitValue(s[0]) + DigitValue(s[1]), s[2..])
  }

  /** Two digits for the day, "02". */
  function DayText(day: int): string
    requires 0 <= day < 100
  {
    [DigitChar(day / 10), DigitChar(day % 10)]
  }

  /** Four digits for the year, "2006". */
  function YearText(y: int): string
    requires 0 <= y <= 9999
  {
    var r1 := y / 10;
    var r2 := r1 / 10;
    [DigitChar(r2 / 10), DigitChar(r2 % 10), DigitChar(r1 % 10), DigitChar(y % 10)]
  }

  /** Reading the four digits back gives the year. */
  lemma YearTextValue(y: int)
    requires 0 <= y <= 9999
    ensures |YearText(y)| == 4 && AllDigits(YearText(y)) && FourDigits(YearText(y)) == y
  {
    var r1 := y / 10;
    var r2 := r1 / 10;
    assert y == 10 * r1 + y % 10;
    assert r1 == 10 * r2 + r1 % 10;
    assert r2 == 10 * (r2 / 10) + r2 % 10;
    assert r1 < 1000 && r2 < 100 && r2 / 10 < 10;
    var ys := YearText(y);
    assert DigitValue(ys[0]) == r2 / 10 && DigitValue(ys[1]) == r2 % 10;
    assert DigitValue(ys[2]) == r1 % 10 && DigitValue(ys[3]) == y % 10;
  }

  /** The canonical text of a date in this layout. */
  function FormatDate(d: CivilDate): (s: string)
    requires Valid(d) && 0 <= d.year <= 9999
  {
    DayText(d.day) + MonthYearText(d)
  }

  /** " January 2006", the text after the day. */
  function MonthYearText(d: CivilDate): string
    requires Valid(d) && 0 <= d.year <= 9999
  {
    " " + MonthNames[d.month - 1] + " " + YearText(d.year)
  }

  /** No month name is a case-insensitive prefix of a text that starts with
      another month name: their first three letters already differ. */
  lemma MonthNamePrefixUnique(m: int, j: int, rest: string)
    requires 1 <= m <= 12 && 0 <= j < 12 && j != m - 1
    ensures !HasPrefixFold(MonthNames[m - 1] + rest, MonthNames[j])
  {
    var s := MonthNames[m - 1] + rest;
    var n := MonthNames[j];
    assert s[0] == MonthNames[m - 1][0] && s[1] == MonthNames[m - 1][1] && s[2] == MonthNames[m - 1][2];
    assert !EqualFoldChar(s[0], n[0]) || !EqualFoldChar(s[1], n[1]) || !EqualFoldChar(s[2], n[2]);
  }

  /** A text starting with a month name is looked up as that month. */
  lemma LookupNamedMonth(m: int, rest: string)
    requires 1 <= m <= 12
    ensures LookupMonth(MonthNames[m - 1] + rest, 0) == Some((m, rest))
  {
    LookupNamedMonthFrom(m, rest, 0);
  }

  lemma {:induction false} LookupNamedMonthFrom(m: int, rest: string, i: nat)
    requires 1 <= m <= 12 && i <= m - 1
    ensures LookupMonth(MonthNames[m - 1] + rest, i) == Some((m, rest))
    decreases m - 1 - i
  {
    var s := MonthNames[m - 1] + rest;
    if i < m - 1 {
      MonthNamePrefixUnique(m, i, rest);
      LookupNamedMonthFrom(m, rest, i + 1);
    } else {
      assert HasPrefixFold(s, MonthNames[m - 1]);
      assert s[|MonthNames[m - 1]|..] == rest;
    }
  }

  lemma ParseYearText(d: CivilDate)
    requires Valid(d) && 0 <= d.year <= 9999
    ensures ParseYear(d.day, d.month, YearText(d.year)) == Some(d)
  {
    var ys := YearText(d.year);
    YearTextValue(d.year);
    assert ys[..4] == ys;
  }

  /** Every month name is at least three letters and starts with a capital. */
  lemma MonthNameShape(m: int)
    requires 1 <= m <= 12
    ensures |MonthNames[m - 1]| >= 3 && 'A' <= MonthNames[m - 1][0] <= 'Z'
  {
  }

  /** A single layout space in front of a word is skipped. */
  lemma SkipOneSpace(w: string)
    requires w != [] && w[0] != ' '
    ensures SkipSpaces(" " + w) == Some(w)
  {
    assert (" " + w)[1..] == w;
    assert TrimSpaces(w) == w;
  }

  lemma ParseMonthYearText(d: CivilDate)
    requires Valid(d) && 0 <= d.year <= 9999
    ensures ParseMonthYear(d.day, MonthYearText(d)) == Some(d)
  {
    var name, ys := MonthNames[d.month - 1], YearText(d.year);
    MonthNameShape(d.month);
    YearTextValue(d.year);
    var t := name + (" " + ys);
    assert " " + name + " " + ys == " " + t;
    SkipOneSpace(t);
    LookupNamedMonth(d.month, " " + ys);
    SkipOneSpace(ys);
    ParseYearText(d);
  }

  /** The two digits of a day give the day back. */
  lemma DayTextValue(day: int)
    requires 0 <= day < 100
    ensures var t := DayText(day);
      |t| == 2 && IsDigit(t[0]) && IsDigit(t[1]) && 10 * DigitValue(t[0]) + DigitValue(t[1]) == day
  {
    assert day == 10 * (day / 10) + day % 10;
  }

  /** Two digits in front of a text are read as the day. */
  lemma ParseDateDigits(s: string, day: int, rest: string)
    requires |s| >= 2 && IsDigit(s[0]) && IsDigit(s[1]) && s[2..] == rest
    requires 10 * DigitValue(s[0]) + DigitValue(s[1]) == day
    ensures ParseDate(s) == ParseMonthYear(day, rest)
  {
  }

  lemma ParseDayText(day: int, rest: string)
    requires 0 <= day < 100
    ensures ParseDate(DayText(day) + rest) == ParseMonthYear(day, rest)
  {
    var t := DayText(day);
    var s := t + rest;
    DayTextValue(day);
    assert s[0] == t[0] && s[1] == t[1] && s[2..] == rest;
    ParseDateDigits(s, day, rest);
  }

  /** ParseDate reads back every date FormatDate writes. */
  lemma ParseFormatDate(d: CivilDate)
    requires Valid(d) && 0 <= d.year <= 9999
    ensures ParseDate(FormatDate(d)) == Some(d)
  {
    ParseDayText(d.day, MonthYearText(d));
    ParseMonthYearText(d);
  }
}
