/** Strings as the program's JavaScript sees them: the `\s` white-space
    class, decimal numerals written by `String(n)`, `padStart`, and
    `Number(x) || 0` applied to a form field. Amounts are modelled as
    integers (the number typed, unscaled), so only integer numerals are read
    as numbers. */
module Text {
  import opened Common

  /** ECMAScript WhiteSpace and LineTerminator code points: the `\s` class of
      a regular expression, and what `Number(...)` trims off a string. */
  predicate IsWhitespace(c: char) {
    c == ' ' || c == '\t' || c == '\n' || c == '\U{B}' || c == '\U{C}' || c == '\r'
    || c == '\U{A0}' || c == '\U{1680}' || ('\U{2000}' <= c <= '\U{200A}')
    || c == '\U{2028}' || c == '\U{2029}' || c == '\U{202F}' || c == '\U{205F}'
    || c == '\U{3000}' || c == '\U{FEFF}'
  }

  predicate NoWhitespace(s: string) {
    forall i :: 0 <= i < |s| ==> !IsWhitespace(s[i])
  }

  predicate IsDigit(c: char) { '0' <= c <= '9' }

  predicate AllDigits(s: string) {
    forall i :: 0 <= i < |s| ==> IsDigit(s[i])
  }

  function DigitChar(d: nat): (c: char)
    requires d < 10
    ensures IsDigit(c)
  {
    "0123456789"[d]
  }

  function DigitValue(c: char): (d: nat)
    requires IsDigit(c)
    ensures d < 10
  {
    (c as int - '0' as int) as nat
  }

  lemma DigitCharValue(d: nat)
    requires d < 10
    ensures DigitValue(DigitChar(d)) == d
  {
  }

  /** `String(n)` for a non-negative integer: its shortest decimal numeral. */
  function NatToString(n: nat): (s: string)
    ensures |s| >= 1 && AllDigits(s)
    decreases n
  {
    if n < 10 then [DigitChar(n)] else NatToString(n / 10) + [DigitChar(n % 10)]
  }

  /** `String(i)` for any integer: a minus sign before a negative magnitude. */
  function IntToString(i: int): (s: string)
    ensures |s| >= 1
  {
    if i < 0 then "-" + NatToString(-i) else NatToString(i)
  }

  /** The number a string of decimal digits denotes (leading zeros allowed). */
  function DigitsValue(s: string): nat
    requires AllDigits(s)
  {
    if s == [] then 0 else DigitsValue(s[..|s| - 1]) * 10 + DigitValue(s[|s| - 1])
  }

  /** Reading back what `NatToString` wrote gives the number again. */
  lemma {:induction false} NatToStringValue(n: nat)
    ensures DigitsValue(NatToString(n)) == n
    decreases n
  {
    var s := NatToString(n);
    if n >= 10 {
      NatToStringValue(n / 10);
      assert s[..|s| - 1] == NatToString(n / 10);
      DigitCharValue(n % 10);
    } else {
      DigitCharValue(n);
    }
  }

  /** Numerals of four-digit numbers are four characters long. */
  lemma NatToStringFourDigits(n: nat)
    requires 1000 <= n <= 9999
    ensures |NatToString(n)| == 4
  {
    assert |NatToString(n / 1000)| == 1;
    assert |NatToString(n / 100)| == 2;
    assert |NatToString(n / 10)| == 3;
  }

  /** Numerals of one- and two-digit numbers. */
  lemma NatToStringShort(n: nat)
    requires n < 100
    ensures n < 10 ==> NatToString(n) == [DigitChar(n)]
    ensures 10 <= n ==> NatToString(n) == [DigitChar(n / 10), DigitChar(n % 10)]
  {
  }

  lemma NumeralHasNoWhitespace(i: int)
    ensures NoWhitespace(IntToString(i))
  {
    var s := IntToString(i);
    var m := if i < 0 then -i else i;
    assert AllDigits(NatToString(m));
    forall k | 0 <= k < |s| ensures !IsWhitespace(s[k]) {
      if i < 0 && k > 0 {
        assert s[k] == NatToString(m)[k - 1];
      }
    }
  }

  /** `s.padStart(width, c)` for a one-character `c`: as many copies of `c`
      in front of `s` as it takes to reach `width`. */
  function PadStart(s: string, width: nat, c: char): (r: string)
    ensures |r| == if |s| >= width then |s| else width
    ensures r[|r| - |s|..] == s
    ensures forall k :: 0 <= k < |r| - |s| ==> r[k] == c
  {
    if |s| >= width then s else seq(width - |s|, _ => c) + s
  }

  /** Padding a string one character short of the width is padding the
      string with that character put in front. */
  lemma PadStartStep(s: string, width: nat, c: char)
    requires |s| < width
    ensures PadStart(s, width, c) == PadStart([c] + s, width, c)
  {
    var n := width - |s|;
    assert seq(n, _ => c) == seq(n - 1, _ => c) + [c];
    assert seq(n - 1, _ => c) + ([c] + s) == (seq(n - 1, _ => c) + [c]) + s;
  }

  /** `String(n).padStart(2, '0')`, as the sheet writes months and days. */
  function TwoDigits(n: nat): string {
    PadStart(NatToString(n), 2, '0')
  }

  /** For 1..99 the two written characters are the tens and the units. */
  lemma TwoDigitsAt(n: nat)
    requires n < 100
    ensures TwoDigits(n) == [DigitChar(n / 10), DigitChar(n % 10)]
  {
    NatToStringShort(n);
    if n < 10 {
      assert TwoDigits(n) == PadStart(['0', DigitChar(n)], 2, '0');
    }
  }

  function TrimStart(s: string): (r: string)
    ensures |r| <= |s| && r == s[|s| - |r|..]
    ensures r == [] || !IsWhitespace(r[0])
  {
    if s != [] && IsWhitespace(s[0]) then TrimStart(s[1..]) else s
  }

  function TrimEnd(s: string): (r: string)
    ensures |r| <= |s| && r == s[..|r|]
    ensures r == [] || !IsWhitespace(r[|r| - 1])
  {
    if s != [] && IsWhitespace(s[|s| - 1]) then TrimEnd(s[..|s| - 1]) else s
  }

  /** `s.trim()`. */
  function Trim(s: string): string {
    TrimEnd(TrimStart(s))
  }

  lemma TrimUntouched(s: string)
    requires s != [] && !IsWhitespace(s[0]) && !IsWhitespace(s[|s| - 1])
    ensures Trim(s) == s
  {
  }

  /** `Number(s)` on a form string, for integer numerals: surrounding white
      space is ignored, a blank string is 0, an optional sign may precede the
      digits, and anything else is NaN (here `None`). */
  function ParseNumber(s: string): (r: Option<int>)
    ensures Trim(s) == [] ==> r == Some(0)
  {
    var t := Trim(s);
    if t == [] then Some(0)
    else if |t| > 1 && (t[0] == '-' || t[0] == '+') && AllDigits(t[1..]) then
      var magnitude: int := DigitsValue(t[1..]);
      Some(if t[0] == '-' then -magnitude else magnitude)
    else if AllDigits(t) then Some(DigitsValue(t))
    else None
  }

  /** `Number(x) || 0` for a body field that may be missing: missing, blank
      or non-numeric input is 0, every other number is kept as it is. */
  function NumberOrZero(x: Option<string>): (n: int)
    ensures x.None? ==> n == 0
    ensures x.Some? && ParseNumber(x.value).None? ==> n == 0
    ensures x.Some? && ParseNumber(x.value).Some? ==> n == ParseNumber(x.value).value
  {
    if x.None? then 0
    else match ParseNumber(x.value)
      case None => 0
      case Some(v) => v
  }

  /** `Number(String(i)) == i`: a numeral the client writes is read back as
      the same integer by the server. */
  lemma ParseIntToString(i: int)
    ensures ParseNumber(IntToString(i)) == Some(i)
  {
    var s := IntToString(i);
    var m := if i < 0 then -i else i;
    NumeralHasNoWhitespace(i);
    TrimUntouched(s);
    NatToStringValue(m);
    if i < 0 {
      assert s[1..] == NatToString(m);
    } else {
      assert s == NatToString(m);
      assert !(s[0] == '-' || s[0] == '+');
    }
  }
}
