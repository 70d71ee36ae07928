/**
 * String operations the tracker relies on: the code-point order that SQLite's
 * BINARY collation and JavaScript comparisons use, `padStart(2, '0')`,
 * decimal rendering and `parseInt` of non-negative numbers, `trim()`, and the
 * calendar-date strings that `isISO8601` admits and `strftime` picks apart.
 */
module Text {
  import opened Wrappers

  // ---------------------------------------------------------------------------
  // Lexicographic order

  /** `a` sorts at or before `b`, comparing characters by code point. */
  predicate LexLe(a: string, b: string)
    decreases |a|
  {
    if a == [] then true
    else if b == [] then false
    else if a[0] != b[0] then a[0] < b[0]
    else LexLe(a[1..], b[1..])
  }

  lemma {:induction false} LexLeTotal(a: string, b: string)
    ensures LexLe(a, b) || LexLe(b, a)
    decreases |a|
  {
    if a != [] && b != [] && a[0] == b[0] {
      LexLeTotal(a[1..], b[1..]);
    }
  }

  lemma {:induction false} LexLeAntisymmetric(a: string, b: string)
    requires LexLe(a, b) && LexLe(b, a)
    ensures a == b
    decreases |a|
  {
    if a != [] && b != [] {
      LexLeAntisymmetric(a[1..], b[1..]);
      assert a == [a[0]] + a[1..] && b == [b[0]] + b[1..];
    }
  }

  lemma {:induction false} LexLeTransitive(a: string, b: string, c: string)
    requires LexLe(a, b) && LexLe(b, c)
    ensures LexLe(a, c)
    decreases |a|
  {
    if a != [] && b != [] && c != [] && a[0] == b[0] && b[0] == c[0] {
      LexLeTransitive(a[1..], b[1..], c[1..]);
    }
  }

  // ---------------------------------------------------------------------------
  // Digits, decimal rendering and parseInt

  predicate IsDigit(c: char) {
    '0' <= c <= '9'
  }

  function DigitValue(c: char): nat
    requires IsDigit(c)
  {
    (c as int - '0' as int) as nat
  }

  function DigitChar(d: nat): (c: char)
    requires d < 10
    ensures IsDigit(c) && DigitValue(c) == d
  {
    ('0' as int + d) as char
  }

  predicate AllDigits(s: string) {
    forall i :: 0 <= i < |s| ==> IsDigit(s[i])
  }

  /** The number a string of decimal digits denotes. */
  function DigitsValue(s: string): nat
    requires AllDigits(s)
  {
    if s == [] then 0 else DigitsValue(s[..|s| - 1]) * 10 + DigitValue(s[|s| - 1])
  }

  /** `String(n)` for a non-negative integer. */
  function NatToString(n: nat): (r: string)
    ensures |r| >= 1 && AllDigits(r)
    ensures n < 10 <==> |r| == 1
  {
    if n < 10 then [DigitChar(n)] else NatToString(n / 10) + [DigitChar(n % 10)]
  }

  /** Number of leading decimal digits of `s`. */
  function LeadingDigits(s: string): (k: nat)
    ensures k <= |s| && AllDigits(s[..k])
    ensures k == |s| || !IsDigit(s[k])
  {
    if s != [] && IsDigit(s[0]) then
      var k := 1 + LeadingDigits(s[1..]);
      assert s[..k] == [s[0]] + s[1..][..k - 1];
      k
    else 0
  }

  /** The digits of base 16: the decimal digits, then a-f or A-F for 10 to 15. */
  predicate IsHexDigit(c: char) {
    IsDigit(c) || ('a' <= c <= 'f') || ('A' <= c <= 'F')
  }

  predicate AllHexDigits(s: string) {
    forall i :: 0 <= i < |s| ==> IsHexDigit(s[i])
  }

  function HexDigitValue(c: char): (v: nat)
    requires IsHexDigit(c)
    ensures v < 16
  {
    if IsDigit(c) then DigitValue(c)
    else if 'a' <= c <= 'f' then (c as int - 'a' as int + 10) as nat
    else (c as int - 'A' as int + 10) as nat
  }

  /** The number a string of hexadecimal digits denotes. */
  function HexDigitsValue(s: string): nat
    requires AllHexDigits(s)
  {
    if s == [] then 0 else HexDigitsValue(s[..|s| - 1]) * 16 + HexDigitValue(s[|s| - 1])
  }

  /** Number of leading hexadecimal digits of `s`. */
  function LeadingHexDigits(s: string): (k: nat)
    ensures k <= |s| && AllHexDigits(s[..k])
    ensures k == |s| || !IsHexDigit(s[k])
  {
    if s != [] && IsHexDigit(s[0]) then
      var k := 1 + LeadingHexDigits(s[1..]);
      assert s[..k] == [s[0]] + s[1..][..k - 1];
      k
    else 0
  }

  /** The value of the longest run of digits that opens `s`, in base 16 or 10; None (NaN) when there is none. */
  function ParseDigits(s: string, hex: bool): Option<nat> {
    if hex then
      var k := LeadingHexDigits(s);
      if k == 0 then None else Some(HexDigitsValue(s[..k]))
    else
      var k := LeadingDigits(s);
      if k == 0 then None else Some(DigitsValue(s[..k]))
  }

  /** "0x" or "0X", which makes `parseInt` without a radix read base 16. */
  predicate HasHexPrefix(s: string) {
    |s| >= 2 && s[0] == '0' && (s[1] == 'x' || s[1] == 'X')
  }

  /**
   * `parseInt(s)` with no radix: white space at the front is skipped, then
   * one sign, then "0x" or "0X" selects base 16; the longest run of digits
   * that follows gives the value, NaN (None) when there is none. The value
   * is an exact integer where JavaScript rounds to a double.
   */
  function ParseInt(s: string): Option<int> {
    var t := s[LeadingSpace(s)..];
    var negative := t != [] && t[0] == '-';
    var u := if t != [] && (t[0] == '-' || t[0] == '+') then t[1..] else t;
    match (if HasHexPrefix(u) then ParseDigits(u[2..], true) else ParseDigits(u, false))
    case None => None
    case Some(n) => Some(if negative then -(n as int) else n as int)
  }

  lemma {:induction false} AllDigitsLeading(s: string, rest: string)
    requires AllDigits(s) && (rest == [] || !IsDigit(rest[0]))
    ensures LeadingDigits(s + rest) == |s|
    decreases |s|
  {
    if s != [] {
      assert (s + rest)[1..] == s[1..] + rest;
      AllDigitsLeading(s[1..], rest);
    }
  }

  lemma {:induction false} AllHexLeading(s: string)
    requires AllHexDigits(s)
    ensures LeadingHexDigits(s) == |s|
    decreases |s|
  {
    if s != [] {
      AllHexLeading(s[1..]);
    }
  }

  /** A run of decimal digits, ended by the end of the string or by a character that is not a digit, is read as its value. */
  lemma ParseIntOfDigits(s: string, rest: string)
    requires s != [] && AllDigits(s) && (rest == [] || !IsDigit(rest[0])) && !HasHexPrefix(s + rest)
    ensures ParseInt(s + rest) == Some(DigitsValue(s))
  {
    var t := s + rest;
    assert t[0] == s[0];
    assert !IsWhitespace(t[0]);
    assert t[LeadingSpace(t)..] == t;
    AllDigitsLeading(s, rest);
    assert t[..|s|] == s;
  }

  /** White space in front of the number is skipped. */
  lemma ParseIntSkipsSpace(c: char, s: string)
    requires IsWhitespace(c)
    ensures ParseInt([c] + s) == ParseInt(s)
  {
    var t := [c] + s;
    assert t[1..] == s;
    assert t[LeadingSpace(t)..] == s[LeadingSpace(s)..];
  }

  /** One sign in front of the digits: '-' negates the value, '+' keeps it. */
  lemma ParseIntSign(s: string)
    requires s == [] || (!IsWhitespace(s[0]) && s[0] != '-' && s[0] != '+')
    ensures ParseInt("-" + s) == match ParseInt(s) case None => None case Some(n) => Some(-n)
    ensures ParseInt("+" + s) == ParseInt(s)
  {
    assert ("-" + s)[1..] == s && ("+" + s)[1..] == s;
    assert ("-" + s)[LeadingSpace("-" + s)..] == "-" + s;
    assert ("+" + s)[LeadingSpace("+" + s)..] == "+" + s;
    assert s[LeadingSpace(s)..] == s;
  }

  /** After "0x" the digits are read in base 16. */
  lemma ParseIntHex(s: string)
    requires s != [] && AllHexDigits(s)
    ensures ParseInt("0x" + s) == Some(HexDigitsValue(s))
  {
    var t := "0x" + s;
    assert t[LeadingSpace(t)..] == t;
    assert t[2..] == s;
    AllHexLeading(s);
    assert s[..|s|] == s;
  }

  lemma {:induction false} NatToStringValue(n: nat)
    ensures DigitsValue(NatToString(n)) == n
    decreases n
  {
    if n >= 10 {
      var s := NatToString(n);
      assert s[..|s| - 1] == NatToString(n / 10);
      NatToStringValue(n / 10);
    }
  }

  /** parseInt undoes String(n). */
  lemma ParseIntOfNatToString(n: nat)
    ensures ParseInt(NatToString(n)) == Some(n)
  {
    var s := NatToString(n);
    assert s + [] == s;
    ParseIntOfDigits(s, []);
    NatToStringValue(n);
  }

  lemma {:induction false} ZeroPrefixValue(s: string)
    requires AllDigits(s)
    ensures AllDigits("0" + s) && DigitsValue("0" + s) == DigitsValue(s)
    decreases |s|
  {
    if s != [] {
      var t := "0" + s;
      assert t[..|t| - 1] == "0" + s[..|s| - 1];
      ZeroPrefixValue(s[..|s| - 1]);
    }
  }

  // ---------------------------------------------------------------------------
  // padStart(2, '0')

  /** `s.padStart(2, '0')`: strings of two or more characters are kept, shorter ones get leading zeros up to length 2. */
  function PadStart2(s: string): (r: string)
    ensures |s| >= 2 ==> r == s
    ensures |s| < 2 ==> |r| == 2 && r[2 - |s|..] == s
    ensures forall i :: 0 <= i < |r| - |s| ==> r[i] == '0'
  {
    if |s| >= 2 then s else if |s| == 1 then "0" + s else "00"
  }

  /** The two-digit month text `String(m).padStart(2, '0')` that both the client and the filters use. */
  function MonthText(m: nat): string
  {
    PadStart2(NatToString(m))
  }

  /** Two-digit month texts parse back to the month number. */
  lemma MonthTextRoundTrip(m: nat)
    requires 1 <= m <= 12
    ensures |MonthText(m)| == 2 && AllDigits(MonthText(m))
    ensures ParseInt(MonthText(m)) == Some(m)
  {
    var s := NatToString(m);
    ParseIntOfNatToString(m);
    if m < 10 {
      ZeroPrefixValue(s);
      NatToStringValue(m);
      assert ("0" + s) + [] == "0" + s;
      ParseIntOfDigits("0" + s, []);
    }
  }

  // ---------------------------------------------------------------------------
  // trim()

  /**
   * The characters `String.prototype.trim` strips: the ASCII white space, the
   * line terminators, NBSP, BOM and the other Unicode space separators.
   */
  predicate IsWhitespace(c: char) {
    || c == ' ' || c == '\t' || c == '\n' || c == '\r' || c == '\U{000B}' || c == '\U{000C}'
    || c == '\U{00A0}' || c == '\U{FEFF}' || c == '\U{2028}' || c == '\U{2029}'
    || IsSpaceSeparator(c)
  }

  /** The Unicode space separators (category Zs) besides the space and NBSP. */
  predicate IsSpaceSeparator(c: char) {
    c == '\U{1680}' || ('\U{2000}' <= c <= '\U{200A}') || c == '\U{202F}' || c == '\U{205F}' || c == '\U{3000}'
  }

  function LeadingSpace(s: string): (k: nat)
    ensures k <= |s|
    ensures forall i :: 0 <= i < k ==> IsWhitespace(s[i])
    ensures k == |s| || !IsWhitespace(s[k])
  {
    if s != [] && IsWhitespace(s[0]) then 1 + LeadingSpace(s[1..]) else 0
  }

  function TrailingSpace(s: string): (k: nat)
    ensures k <= |s|
    ensures forall i :: |s| - k <= i < |s| ==> IsWhitespace(s[i])
    ensures k == |s| || !IsWhitespace(s[|s| - 1 - k])
  {
    if s != [] && IsWhitespace(s[|s| - 1]) then 1 + TrailingSpace(s[..|s| - 1]) else 0
  }

  /** Has no white space at either end. */
  predicate IsTrimmed(s: string) {
    s == [] || (!IsWhitespace(s[0]) && !IsWhitespace(s[|s| - 1]))
  }

  /** `s.trim()`: the slice of `s` left after dropping white space at both ends. */
  function Trim(s: string): (r: string)
    ensures IsTrimmed(r)
    ensures exists i, j :: 0 <= i <= j <= |s| && r == s[i..j]
              && (forall k :: 0 <= k < i ==> IsWhitespace(s[k]))
              && (forall k :: j <= k < |s| ==> IsWhitespace(s[k]))
  {
    var a := LeadingSpace(s);
    var t := s[a..];
    var b := TrailingSpace(t);
    var r := t[..|t| - b];
    assert r == s[a..a + |t| - b];
    assert forall k :: a + |t| - b <= k < |s| ==> s[k] == t[k - a];
    r
  }

  /** Trimming is idempotent, and trims nothing off a string that is already trimmed. */
  lemma TrimOfTrimmed(s: string)
    requires IsTrimmed(s)
    ensures Trim(s) == s
  {
    assert LeadingSpace(s) == 0;
    assert TrailingSpace(s) == 0;
  }

  lemma TrimIdempotent(s: string)
    ensures Trim(Trim(s)) == Trim(s)
  {
    TrimOfTrimmed(Trim(s));
  }

  // ---------------------------------------------------------------------------
  // Calendar dates "YYYY-MM-DD"

  function TwoDigitValue(c0: char, c1: char): nat
    requires IsDigit(c0) && IsDigit(c1)
  {
    DigitValue(c0) * 10 + DigitValue(c1)
  }

  /** The calendar-date form of ISO 8601 that the date validator admits: "YYYY-MM-DD", month 01-12, day 01-31. */
  predicate IsIsoDate(s: string) {
    && |s| == 10
    && IsDigit(s[0]) && IsDigit(s[1]) && IsDigit(s[2]) && IsDigit(s[3])
    && s[4] == '-' && IsDigit(s[5]) && IsDigit(s[6])
    && s[7] == '-' && IsDigit(s[8]) && IsDigit(s[9])
    && 1 <= TwoDigitValue(s[5], s[6]) <= 12
    && 1 <= TwoDigitValue(s[8], s[9]) <= 31
  }

  /** `strftime('%Y', d)`: the four year characters of a date, NULL (None) for a string that is not a date. */
  function DateYear(d: string): (r: Option<string>)
    ensures r.Some? ==> |r.value| == 4
  {
    if IsIsoDate(d) then Some(d[0..4]) else None
  }

  /** Leap years of the proleptic Gregorian calendar SQLite's date functions compute in. */
  predicate IsLeapYear(y: nat) {
    y % 4 == 0 && (y % 100 != 0 || y % 400 == 0)
  }

  function DaysInMonth(y: nat, m: nat): (n: nat)
    ensures 28 <= n <= 31
    ensures m == 12 ==> n == 31
  {
    if m == 2 then (if IsLeapYear(y) then 29 else 28)
    else if m == 4 || m == 6 || m == 9 || m == 11 then 30
    else 31
  }

  function DateYearValue(d: string): nat
    requires IsIsoDate(d)
  {
    TwoDigitValue(d[0], d[1]) * 100 + TwoDigitValue(d[2], d[3])
  }

  /** Whether the day of a date lies past the end of its month, which the date validator admits ("2023-02-31"). */
  predicate DayPastMonthEnd(d: string)
    requires IsIsoDate(d)
  {
    TwoDigitValue(d[8], d[9]) > DaysInMonth(DateYearValue(d), TwoDigitValue(d[5], d[6]))
  }

  /** The two digits of the month after the month `c0c1`, for the months shorter than 31 days. */
  function NextMonthDigits(c0: char, c1: char): string
    requires IsDigit(c1)
  {
    if c1 == '9' then "10" else [c0, (c1 as int + 1) as char]
  }

  /**
   * `strftime('%m', d)`: the two-digit month of a date, NULL (None) for a
   * string that is not a date. A day past the end of its month rolls over into
   * the next month; December has 31 days, so the year never changes.
   */
  function DateMonth(d: string): (r: Option<string>)
    ensures r.Some? ==> |r.value| == 2 && AllDigits(r.value)
  {
    if !IsIsoDate(d) then None
    else if DayPastMonthEnd(d) then Some(NextMonthDigits(d[5], d[6]))
    else Some(d[5..7])
  }

  /** The month text of two month digits is those digits. */
  lemma MonthTextOfDigits(c0: char, c1: char)
    requires IsDigit(c0) && IsDigit(c1) && 1 <= TwoDigitValue(c0, c1) <= 12
    ensures MonthText(TwoDigitValue(c0, c1)) == [c0, c1]
  {
    var v := TwoDigitValue(c0, c1);
    if DigitValue(c0) == 0 {
      assert c0 == '0';
      assert NatToString(v) == [DigitChar(DigitValue(c1))] == [c1];
    } else {
      assert DigitValue(c0) == 1;
      assert NatToString(v) == NatToString(1) + [DigitChar(v % 10)];
      assert NatToString(1) == [DigitChar(1)] == [c0];
      assert DigitChar(v % 10) == c1;
    }
  }

  /**
   * `strftime('%m', d)` reads the month characters of a date whose day lies in
   * its month, and gives the following month for a day past the month's end.
   */
  lemma DateMonthRollOver(d: string)
    requires IsIsoDate(d)
    ensures !DayPastMonthEnd(d) ==> DateMonth(d) == Some(MonthText(TwoDigitValue(d[5], d[6])))
    ensures DayPastMonthEnd(d) ==>
      TwoDigitValue(d[5], d[6]) < 12 && DateMonth(d) == Some(MonthText(TwoDigitValue(d[5], d[6]) + 1))
  {
    var m := TwoDigitValue(d[5], d[6]);
    MonthTextOfDigits(d[5], d[6]);
    assert d[5..7] == [d[5], d[6]];
    if DayPastMonthEnd(d) {
      var n := NextMonthDigits(d[5], d[6]);
      assert IsDigit(n[0]) && IsDigit(n[1]) && TwoDigitValue(n[0], n[1]) == m + 1;
      MonthTextOfDigits(n[0], n[1]);
      assert n == [n[0], n[1]];
    }
  }
}
