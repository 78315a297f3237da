/** strconv.ParseUint in base 10 and the token syntax strconv.ParseFloat
    accepts, as far as the parsers of main.go use them. */
module Numbers {
  import opened Wrappers
  import opened Errors

  type Uint8 = x: int | 0 <= x < 0x100
  type Uint16 = x: int | 0 <= x < 0x1_0000

  function Pow2(n: nat): (r: nat)
    ensures r >= 1
  {
    if n == 0 then 1 else 2 * Pow2(n - 1)
  }

  /** The largest value of an unsigned integer of `bitSize` bits. */
  function MaxUint(bitSize: nat): nat {
    Pow2(bitSize) - 1
  }

  lemma MaxUint8()
    ensures MaxUint(8) == 0xFF
  {
    assert Pow2(4) == 0x10;
  }

  lemma MaxUint16()
    ensures MaxUint(16) == 0xFFFF
  {
    assert Pow2(8) == 0x100;
  }

  predicate IsDigit(c: char) {
    '0' <= c <= '9'
  }

  predicate AllDigits(s: string) {
    forall i :: 0 <= i < |s| ==> IsDigit(s[i])
  }

  function DigitValue(c: char): (d: nat)
    requires IsDigit(c)
    ensures d < 10
  {
    (c as int) - ('0' as int)
  }

  function DigitChar(d: nat): (c: char)
    requires d < 10
    ensures IsDigit(c) && DigitValue(c) == d
  {
    ('0' as int + d) as char
  }

  /** Value of a decimal numeral, most significant digit first. */
  function DecimalValue(s: string): nat
    requires AllDigits(s)
    decreases |s|
  {
    if s == [] then 0 else 10 * DecimalValue(s[..|s| - 1]) + DigitValue(s[|s| - 1])
  }

  /** Length of the leading run of decimal digits. */
  function DigitRun(s: string): (n: nat)
    ensures n <= |s| && AllDigits(s[..n])
    ensures n < |s| ==> !IsDigit(s[n])
    decreases |s|
  {
    if s == [] || !IsDigit(s[0]) then 0
    else
      var m := DigitRun(s[1..]);
      assert s[..1 + m] == [s[0]] + s[1..][..m];
      1 + m
  }

  /** A longer prefix of a numeral never has a smaller value. */
  lemma {:induction false} DecimalValueMonotone(s: string, j: nat, k: nat)
    requires j <= k <= |s| && AllDigits(s[..k])
    ensures AllDigits(s[..j]) && DecimalValue(s[..j]) <= DecimalValue(s[..k])
    decreases k
  {
    assert forall i :: 0 <= i < j ==> s[..j][i] == s[..k][i];
    if j < k {
      assert s[..k][..k - 1] == s[..k - 1];
      DecimalValueMonotone(s, j, k - 1);
    }
  }

  /** The digit loop of strconv.ParseUint from position `i` on, with `acc`
      the value of the digits already read: a non-digit is a syntax error,
      a value above `max` is a range error, reported at the first position
      where either happens. */
  function ScanDigits(s: string, i: nat, acc: nat, max: nat): Result<nat, Cause>
    requires i <= |s| && AllDigits(s[..i]) && acc == DecimalValue(s[..i]) && acc <= max
    decreases |s| - i
  {
    if i == |s| then Success(acc)
    else if !IsDigit(s[i]) then Failure(Syntax)
    else
      var next := 10 * acc + DigitValue(s[i]);
      assert s[..i + 1][..i] == s[..i];
      if next > max then Failure(Range) else ScanDigits(s, i + 1, next, max)
  }

  lemma {:induction false} ScanDigitsOutcome(s: string, i: nat, acc: nat, max: nat)
    requires i <= |s| && AllDigits(s[..i]) && acc == DecimalValue(s[..i]) && acc <= max
    ensures var n := DigitRun(s);
      i <= n &&
      ScanDigits(s, i, acc, max) ==
        if DecimalValue(s[..n]) > max then Failure(Range)
        else if n < |s| then Failure(Syntax)
        else Success(DecimalValue(s))
    decreases |s| - i
  {
    var n := DigitRun(s);
    assert i <= n by {
      assert forall k :: 0 <= k < i ==> s[..i][k] == s[k];
    }
    if i == |s| {
      assert s[..i] == s;
    } else if !IsDigit(s[i]) {
      assert n == i;
    } else {
      assert s[..i + 1][..i] == s[..i];
      var next := 10 * acc + DigitValue(s[i]);
      assert i + 1 <= n;
      DecimalValueMonotone(s[..n], i + 1, n);
      assert s[..n][..i + 1] == s[..i + 1] && s[..n][..n] == s[..n];
      if next <= max {
        ScanDigitsOutcome(s, i + 1, next, max);
      }
    }
  }

  /** strconv.ParseUint(s, 10, bitSize): the value of an all-digit numeral
      that fits in `bitSize` bits; ErrRange when the digits before the first
      non-digit already exceed it, ErrSyntax otherwise (empty input, a sign,
      any other character). */
  function ParseUint(s: string, bitSize: nat): (r: Result<nat, Cause>)
    ensures var n := DigitRun(s);
      r == if s == [] then Failure(Syntax)
           else if DecimalValue(s[..n]) > MaxUint(bitSize) then Failure(Range)
           else if n < |s| then Failure(Syntax)
           else Success(DecimalValue(s))
  {
    if s == [] then Failure(Syntax)
    else
      ScanDigitsOutcome(s, 0, 0, MaxUint(bitSize));
      ScanDigits(s, 0, 0, MaxUint(bitSize))
  }

  /** The outcome of ParseUint in closed form: it accepts exactly the
      non-empty decimal numerals whose value fits, as that value, and rejects
      the rest with a range error when the digits before the first non-digit
      already exceed the bound, and a syntax error otherwise. */
  lemma ParseUintOutcome(s: string, bitSize: nat)
    ensures ParseUint(s, bitSize).Success? <==>
              s != [] && AllDigits(s) && DecimalValue(s) <= MaxUint(bitSize)
    ensures ParseUint(s, bitSize).Success? ==>
              ParseUint(s, bitSize).value == DecimalValue(s) <= MaxUint(bitSize)
    ensures ParseUint(s, bitSize).Failure? ==>
              ParseUint(s, bitSize).error ==
                if DecimalValue(s[..DigitRun(s)]) > MaxUint(bitSize) then Range else Syntax
  {
    var n := DigitRun(s);
    assert n == |s| ==> s[..n] == s;
    if s == [] {
      assert s[..n] == [];
    }
  }

  /** Decimal representation without leading zeros (strconv.FormatUint). */
  function FormatNat(n: nat): (s: string)
    ensures s != [] && AllDigits(s)
    decreases n
  {
    if n < 10 then [DigitChar(n)] else FormatNat(n / 10) + [DigitChar(n % 10)]
  }

  lemma {:induction false} FormatNatValue(n: nat)
    ensures DecimalValue(FormatNat(n)) == n
    decreases n
  {
    if n >= 10 {
      var s := FormatNat(n);
      assert s[..|s| - 1] == FormatNat(n / 10);
      FormatNatValue(n / 10);
    }
  }

  /** ParseUint reads back what FormatNat writes, for every value that fits. */
  lemma ParseFormatNat(n: nat, bitSize: nat)
    requires n <= MaxUint(bitSize)
    ensures ParseUint(FormatNat(n), bitSize) == Success(n)
  {
    FormatNatValue(n);
    ParseUintOutcome(FormatNat(n), bitSize);
  }

  // ---------------------------------------------------------------------------
  // The tokens strconv.ParseFloat(s, 64) accepts
  // ---------------------------------------------------------------------------

  function Lower(c: char): char {
    if 'A' <= c <= 'Z' then (c as int + 32) as char else c
  }

  /** ASCII case-insensitive equality of two strings. */
  predicate EqualFoldString(s: string, t: string)
    decreases |s|
  {
    |s| == |t| && (s == [] || (Lower(s[0]) == Lower(t[0]) && EqualFoldString(s[1..], t[1..])))
  }

  predicate Sign(c: char) {
    c == '+' || c == '-'
  }

  predicate IsHexDigit(c: char) {
    IsDigit(c) || 'a' <= Lower(c) <= 'f'
  }

  /** A digit of the mantissa: decimal, or hexadecimal after a "0x" prefix. */
  predicate IsMantissaDigit(c: char, hex: bool) {
    if hex then IsHexDigit(c) else IsDigit(c)
  }

  predicate IsMantissaChar(c: char, hex: bool) {
    IsMantissaDigit(c, hex) || c == '_' || c == '.'
  }

  /** Length of the leading run of mantissa characters: the part readFloat's
      digit loop reads before the exponent. */
  function MantissaRun(s: string, hex: bool): (n: nat)
    ensures n <= |s|
    decreases |s|
  {
    if s == [] || !IsMantissaChar(s[0], hex) then 0 else 1 + MantissaRun(s[1..], hex)
  }

  function CountDots(s: string): nat
    decreases |s|
  {
    if s == [] then 0 else (if s[0] == '.' then 1 else 0) + CountDots(s[1..])
  }

  function CountMantissaDigits(s: string, hex: bool): nat
    decreases |s|
  {
    if s == [] then 0 else (if IsMantissaDigit(s[0], hex) then 1 else 0) + CountMantissaDigits(s[1..], hex)
  }

  /** Decimal digits and underscores only. */
  predicate DigitsOrUnderscores(s: string)
    decreases |s|
  {
    s == [] || ((IsDigit(s[0]) || s[0] == '_') && DigitsOrUnderscores(s[1..]))
  }

  /** The exponent: `expChar` in either case, an optional sign, a decimal
      digit, then decimal digits and underscores. */
  predicate IsExponentPart(s: string, expChar: char) {
    |s| >= 2 && Lower(s[0]) == expChar &&
    (var t := if Sign(s[1]) then s[2..] else s[1..];
     t != [] && IsDigit(t[0]) && DigitsOrUnderscores(t[1..]))
  }

  /** readFloat consuming all of `body`, the token without its sign: an
      optional "0x" prefix (when something follows it), mantissa digits and
      underscores with at most one '.' and at least one digit, then an
      exponent ('e' for decimal, 'p' for hexadecimal), which a hexadecimal
      mantissa must have. */
  predicate IsNumberBody(body: string) {
    var hex := |body| > 2 && body[0] == '0' && Lower(body[1]) == 'x';
    var m := if hex then body[2..] else body;
    var n := MantissaRun(m, hex);
    CountDots(m[..n]) <= 1 && CountMantissaDigits(m[..n], hex) > 0 &&
    if hex then IsExponentPart(m[n..], 'p') else m[n..] == [] || IsExponentPart(m[n..], 'e')
  }

  /** What the last character of underscoreOK's scan was. */
  datatype Saw = Start | Digit | Underscore | Other

  function UnderscoreScan(s: string, hex: bool, saw: Saw): bool
    decreases |s|
  {
    if s == [] then saw != Underscore
    else if IsMantissaDigit(s[0], hex) then UnderscoreScan(s[1..], hex, Digit)
    else if s[0] == '_' then saw == Digit && UnderscoreScan(s[1..], hex, Underscore)
    else saw != Underscore && UnderscoreScan(s[1..], hex, Other)
  }

  /** strconv's underscoreOK: every underscore stands between two digits, or
      between a base prefix and a digit. */
  predicate UnderscoreOK(s: string) {
    var t := if s != [] && Sign(s[0]) then s[1..] else s;
    if |t| >= 2 && t[0] == '0' && (Lower(t[1]) == 'b' || Lower(t[1]) == 'o' || Lower(t[1]) == 'x') then
      UnderscoreScan(t[2..], Lower(t[1]) == 'x', Digit)
    else
      UnderscoreScan(t, false, Start)
  }

  /** A token strconv.ParseFloat(s, 64) accepts without a syntax error: a
      decimal or hexadecimal literal with an optional sign, whose underscores
      (if any) pass underscoreOK; or "inf" or "infinity" with an optional
      sign, or "nan", letters in any case. */
  predicate IsFloatToken(s: string) {
    var body := if s != [] && Sign(s[0]) then s[1..] else s;
    (IsNumberBody(body) && ('_' in s ==> UnderscoreOK(s))) ||
    EqualFoldString(body, "inf") || EqualFoldString(body, "infinity") ||
    EqualFoldString(s, "nan")
  }

  lemma {:induction false} MantissaRunAll(s: string, hex: bool)
    requires forall i :: 0 <= i < |s| ==> IsMantissaChar(s[i], hex)
    ensures MantissaRun(s, hex) == |s|
    decreases |s|
  {
    if s != [] {
      MantissaRunAll(s[1..], hex);
    }
  }

  lemma {:induction false} CountsAppend(a: string, b: string, hex: bool)
    ensures CountDots(a + b) == CountDots(a) + CountDots(b)
    ensures CountMantissaDigits(a + b, hex) == CountMantissaDigits(a, hex) + CountMantissaDigits(b, hex)
    decreases |a|
  {
    if a != [] {
      assert (a + b)[1..] == a[1..] + b;
      CountsAppend(a[1..], b, hex);
    } else {
      assert a + b == b;
    }
  }

  lemma {:induction false} CountsOfNumeral(s: string)
    requires AllDigits(s)
    ensures CountDots(s) == 0 && CountMantissaDigits(s, false) == |s|
    decreases |s|
  {
    if s != [] {
      assert IsDigit(s[0]);
      CountsOfNumeral(s[1..]);
    }
  }

  lemma {:induction false} MantissaRunAppend(a: string, b: string, hex: bool)
    requires forall i :: 0 <= i < |a| ==> IsMantissaChar(a[i], hex)
    ensures MantissaRun(a + b, hex) == |a| + MantissaRun(b, hex)
    decreases |a|
  {
    if a != [] {
      assert (a + b)[0] == a[0] && (a + b)[1..] == a[1..] + b;
      MantissaRunAppend(a[1..], b, hex);
    } else {
      assert a + b == b;
    }
  }

  /** A plain decimal numeral is a float token. */
  lemma NumeralFloatToken(a: string)
    requires a != [] && AllDigits(a)
    ensures IsFloatToken(a)
  {
    MantissaRunAll(a, false);
    CountsOfNumeral(a);
    assert a[..|a|] == a && a[|a|..] == [];
    assert '_' !in a by {
      forall i | 0 <= i < |a| ensures a[i] != '_' { assert IsDigit(a[i]); }
    }
  }

  /** A decimal numeral with a fraction, "41317.0" or "41317.", is a float
      token. */
  lemma DecimalFloatToken(a: string, b: string)
    requires a != [] && AllDigits(a) && AllDigits(b)
    ensures IsFloatToken(a + "." + b)
  {
    var s := a + "." + b;
    assert s == a + ("." + b) && ("." + b)[1..] == b;
    assert forall i :: 0 <= i < |a| ==> IsMantissaChar(a[i], false);
    assert forall i :: 0 <= i < |b| ==> IsMantissaChar(b[i], false);
    MantissaRunAppend(a, "." + b, false);
    MantissaRunAll(b, false);
    assert MantissaRun(s, false) == |s|;
    CountsAppend(a, "." + b, false);
    CountsOfNumeral(a);
    CountsOfNumeral(b);
    assert s[..|s|] == s && s[|s|..] == [] && s[0] == a[0];
    assert '_' !in s by {
      forall i | 0 <= i < |s| ensures s[i] != '_' {
        if i < |a| { assert s[i] == a[i]; } else if i > |a| { assert s[i] == b[i - |a| - 1]; }
      }
    }
  }
}
