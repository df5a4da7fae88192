/** Calendar dates as (year, month, day) triples: the Gregorian month lengths
    JavaScript's `Date` uses, month arithmetic with wrap-around, the
    normalisation `new Date(y, m, d)` applies to an out-of-range month, and
    the `YYYY-MM-DD` date strings the client writes and the server reads
    (the extended-format complete calendar date of ISO 8601:2004, section
    4.1.2.2). Time of day and time zones are not modelled. */
module Calendar {
  import opened Common
  import opened Text

  type Month = m: int | 1 <= m <= 12 witness 1
  type Day = d: int | 1 <= d <= 31 witness 1

  datatype Date = Date(year: int, month: Month, day: Day)

  predicate IsLeapYear(y: int) {
    y % 4 == 0 && (y % 100 != 0 || y % 400 == 0)
  }

  /** The Gregorian length of a month. */
  function MonthLength(y: int, m: Month): (n: int)
    ensures 28 <= n <= 31
  {
    if m == 2 then (if IsLeapYear(y) then 29 else 28)
    else if m == 4 || m == 6 || m == 9 || m == 11 then 30
    else 31
  }

  /** A triple that names a day that exists. */
  predicate ValidDate(d: Date) {
    d.day <= MonthLength(d.year, d.month)
  }

  /** `new Date(y, ...)` reads a year 0..99 as 1900..1999. */
  function JsYear(y: int): int {
    if 0 <= y <= 99 then 1900 + y else y
  }

  /** Months counted from year 0: consecutive months differ by one. */
  function MonthOrdinal(y: int, m: Month): int {
    y * 12 + (m - 1)
  }

  lemma MonthOrdinalInjective(y1: int, m1: Month, y2: int, m2: Month)
    requires MonthOrdinal(y1, m1) == MonthOrdinal(y2, m2)
    ensures y1 == y2 && m1 == m2
  {
  }

  /** The month before (y, m): January goes back to December of y - 1. */
  function PrevMonth(y: int, m: Month): (r: (int, Month))
    ensures MonthOrdinal(r.0, r.1) == MonthOrdinal(y, m) - 1
  {
    if m == 1 then (y - 1, 12) else (y, m - 1)
  }

  /** The month after (y, m): December goes on to January of y + 1. */
  function NextMonth(y: int, m: Month): (r: (int, Month))
    ensures MonthOrdinal(r.0, r.1) == MonthOrdinal(y, m) + 1
  {
    if m == 12 then (y + 1, 1) else (y, m + 1)
  }

  /** Stepping back and forward are inverse to each other. */
  lemma PrevNextInverse(y: int, m: Month)
    ensures PrevMonth(NextMonth(y, m).0, NextMonth(y, m).1) == (y, m)
    ensures NextMonth(PrevMonth(y, m).0, PrevMonth(y, m).1) == (y, m)
  {
    var n := NextMonth(y, m);
    MonthOrdinalInjective(PrevMonth(n.0, n.1).0, PrevMonth(n.0, n.1).1, y, m);
    var p := PrevMonth(y, m);
    MonthOrdinalInjective(NextMonth(p.0, p.1).0, NextMonth(p.0, p.1).1, y, m);
  }

  /** What `new Date(y, m0, 1)` lands on for a zero-based month `m0` of any
      size: the month count carries into the year. */
  function NormalizeMonth(y: int, m0: int): (r: (int, Month))
    ensures MonthOrdinal(r.0, r.1) == y * 12 + m0
  {
    (y + m0 / 12, m0 % 12 + 1)
  }

  /** `new Date(y, m, 0).getDate()`: day 0 of the following month is the
      last day of month `m`, in the year `new Date` reads `y` as. */
  function DaysInMonth(y: int, m: Month): int {
    MonthLength(JsYear(y), m)
  }

  /** The day selector's length is the Gregorian month length: 29 exactly
      for February of a leap year, 28 for other Februaries, 30 for April,
      June, September and November, 31 for the rest. */
  lemma DaysInMonthCases(y: int, m: Month)
    ensures DaysInMonth(y, m) == 29 <==> m == 2 && IsLeapYear(JsYear(y))
    ensures DaysInMonth(y, m) == 28 <==> m == 2 && !IsLeapYear(JsYear(y))
    ensures DaysInMonth(y, m) == 30 <==> m in {4, 6, 9, 11}
    ensures DaysInMonth(y, m) == 31 <==> m in {1, 3, 5, 7, 8, 10, 12}
  {
  }

  /** Days in the first `k` months of a year. */
  function DaysBefore(y: int, k: nat): int
    requires k <= 12
  {
    if k == 0 then 0 else DaysBefore(y, k - 1) + MonthLength(y, k)
  }

  /** The twelve month lengths make up a year of 365 or, in a leap year, 366
      days. */
  lemma {:induction false} YearLength(y: int)
    ensures DaysBefore(y, 12) == if IsLeapYear(y) then 366 else 365
  {
    assert DaysBefore(y, 1) == 31;
    assert DaysBefore(y, 2) == 31 + MonthLength(y, 2);
    assert DaysBefore(y, 3) == DaysBefore(y, 2) + 31;
    assert DaysBefore(y, 4) == DaysBefore(y, 3) + 30;
    assert DaysBefore(y, 5) == DaysBefore(y, 4) + 31;
    assert DaysBefore(y, 6) == DaysBefore(y, 5) + 30;
    assert DaysBefore(y, 7) == DaysBefore(y, 6) + 31;
    assert DaysBefore(y, 8) == DaysBefore(y, 7) + 31;
    assert DaysBefore(y, 9) == DaysBefore(y, 8) + 30;
    assert DaysBefore(y, 10) == DaysBefore(y, 9) + 31;
    assert DaysBefore(y, 11) == DaysBefore(y, 10) + 30;
    assert DaysBefore(y, 12) == DaysBefore(y, 11) + 31;
  }

  /** Chronological order of days. */
  predicate DateLe(a: Date, b: Date) {
    a.year < b.year
    || (a.year == b.year && (a.month < b.month || (a.month == b.month && a.day <= b.day)))
  }

  /** The first and the last day a JavaScript `Date` holds: its time value
      stays within 8.64e15 milliseconds, 10^8 days, of 1 January 1970,
      taken at midnight UTC. */
  const FirstJsDay := Date(-271821, 4, 20)
  const LastJsDay := Date(275760, 9, 13)

  /** Midnight of day `d` is a time a `Date` holds. */
  predicate JsDayStart(d: Date) {
    DateLe(FirstJsDay, d) && DateLe(d, LastJsDay)
  }

  /** 23:59:59.999 of day `d` is a time a `Date` holds: that of the last
      day lies past the limit. */
  predicate JsDayEnd(d: Date) {
    JsDayStart(d) && d != LastJsDay
  }

  lemma DateLeTotal(a: Date, b: Date)
    ensures DateLe(a, b) || DateLe(b, a)
  {
  }

  lemma DateLeTransitive(a: Date, b: Date, c: Date)
    requires DateLe(a, b) && DateLe(b, c)
    ensures DateLe(a, c)
  {
  }

  /** The date string the sheet builds:
      `${year}-${String(month).padStart(2, '0')}-${String(day).padStart(2, '0')}`. */
  function DateString(y: int, m: Month, d: Day): string {
    IntToString(y) + "-" + TwoDigits(m) + "-" + TwoDigits(d)
  }

  /** `date.toISOString().split('T')[0]`: the year takes four digits, and a
      year outside 0..9999 takes a sign and six digits. */
  function IsoDateString(d: Date): string {
    var year :=
      if 0 <= d.year <= 9999 then PadStart(NatToString(d.year), 4, '0')
      else if d.year < 0 then "-" + PadStart(NatToString(-d.year), 6, '0')
      else "+" + PadStart(NatToString(d.year), 6, '0');
    year + "-" + TwoDigits(d.month) + "-" + TwoDigits(d.day)
  }

  /** For years of four digits the two writers agree. */
  lemma DateStringIsIso(d: Date)
    requires 1000 <= d.year <= 9999
    ensures DateString(d.year, d.month, d.day) == IsoDateString(d)
  {
    NatToStringFourDigits(d.year);
  }

  /** The day `new Date(y, m - 1, d)` names for a day of the month 1..31:
      a day past the end of the month runs on into the next one. */
  function MakeDate(y: int, m: Month, d: Day): (r: Date)
    ensures ValidDate(r) && r.year == y
    ensures d <= MonthLength(y, m) ==> r == Date(y, m, d)
    ensures d > MonthLength(y, m) ==> m < 12 && r == Date(y, m + 1, d - MonthLength(y, m))
  {
    if d <= MonthLength(y, m) then Date(y, m, d)
    else
      assert m != 12;
      var next := NextMonth(y, m);
      Date(next.0, next.1, d - MonthLength(y, m))
  }

  /** `new Date(s)` on the server for an ISO date-only string `YYYY-MM-DD`
      with month 01..12 and day 01..31; every other string is an invalid
      date (`None`). */
  function ParseIsoDate(s: string): (r: Option<Date>)
    ensures r.Some? ==> ValidDate(r.value) && 0 <= r.value.year <= 9999
  {
    if |s| == 10 && s[4] == '-' && s[7] == '-' && AllDigits(s[..4])
       && AllDigits(s[5..7]) && AllDigits(s[8..])
    then
      DigitsBound(s[..4]);
      assert Pow10(4) == 10000;
      var y := DigitsValue(s[..4]);
      var m := DigitsValue(s[5..7]);
      var d := DigitsValue(s[8..]);
      if 1 <= m <= 12 && 1 <= d <= 31 then Some(MakeDate(y, m, d)) else None
    else None
  }

  lemma TwoDigitsValue(n: nat)
    requires n < 100
    ensures |TwoDigits(n)| == 2
    ensures AllDigits(TwoDigits(n)) && DigitsValue(TwoDigits(n)) == n
  {
    TwoDigitsAt(n);
    PairValue(DigitChar(n / 10), DigitChar(n % 10));
    DigitCharValue(n / 10);
    DigitCharValue(n % 10);
  }

  lemma PairValue(a: char, b: char)
    requires IsDigit(a) && IsDigit(b)
    ensures AllDigits([a, b]) && DigitsValue([a, b]) == DigitValue(a) * 10 + DigitValue(b)
  {
    assert [a, b][..1] == [a];
    assert [a][..0] == [];
    assert DigitsValue([a]) == DigitValue(a);
  }

  /** A zero in front of a numeral does not change its value. */
  lemma {:induction false} LeadingZero(s: string)
    requires AllDigits(s)
    ensures AllDigits("0" + s) && DigitsValue("0" + s) == DigitsValue(s)
    decreases |s|
  {
    var t := "0" + s;
    if s == [] {
      assert t[..0] == [];
    } else {
      LeadingZero(s[..|s| - 1]);
      assert t[..|t| - 1] == "0" + s[..|s| - 1];
    }
  }

  /** `padStart` with zeros keeps the value of a numeral. */
  lemma {:induction false} ZeroPadValue(s: string, width: nat)
    requires AllDigits(s)
    ensures AllDigits(PadStart(s, width, '0'))
    ensures DigitsValue(PadStart(s, width, '0')) == DigitsValue(s)
    decreases width - |s|
  {
    if |s| < width {
      LeadingZero(s);
      PadStartStep(s, width, '0');
      ZeroPadValue("0" + s, width);
    }
  }

  /** A number below 10^k is written with at most k digits. */
  lemma {:induction false} NumeralLength(n: nat, k: nat)
    requires 1 <= k && n < Pow10(k)
    ensures |NatToString(n)| <= k
    decreases k
  {
    if n >= 10 {
      assert NatToString(n) == NatToString(n / 10) + [DigitChar(n % 10)];
      assert Pow10(1) == 10;
      assert k >= 2;
      assert Pow10(k) == 10 * Pow10(k - 1);
      NumeralLength(n / 10, k - 1);
    }
  }

  /** A numeral of k digits denotes a number below 10^k. */
  lemma {:induction false} DigitsBound(s: string)
    requires AllDigits(s)
    ensures DigitsValue(s) < Pow10(|s|)
    decreases |s|
  {
    if s != [] {
      DigitsBound(s[..|s| - 1]);
    }
  }

  function Pow10(k: nat): nat {
    if k == 0 then 1 else 10 * Pow10(k - 1)
  }

  lemma FourDigitsValue(y: nat)
    requires y <= 9999
    ensures |PadStart(NatToString(y), 4, '0')| == 4
    ensures AllDigits(PadStart(NatToString(y), 4, '0'))
    ensures DigitsValue(PadStart(NatToString(y), 4, '0')) == y
  {
    assert Pow10(4) == 10000;
    NumeralLength(y, 4);
    ZeroPadValue(NatToString(y), 4);
    NatToStringValue(y);
  }

  /** Where the three parts of a `YYYY-MM-DD` string sit. */
  lemma DateParts(a: string, b: string, c: string)
    requires |a| == 4 && |b| == 2 && |c| == 2
    ensures var s := a + "-" + b + "-" + c;
      |s| == 10 && s[4] == '-' && s[7] == '-' && s[..4] == a && s[5..7] == b && s[8..] == c
  {
  }

  /** Reading back the date part of `toISOString()` gives the same day, for
      every year the four-digit form covers. */
  lemma IsoDateRoundTrip(d: Date)
    requires ValidDate(d) && 0 <= d.year <= 9999
    ensures ParseIsoDate(IsoDateString(d)) == Some(d)
  {
    IsoDateRead(d);
  }

  /** A `YYYY-MM-DD` string written from a year, a month and a day 1..31
      is read as the day `new Date(y, m - 1, d)` names: a day past the end
      of the month runs on into the next one. */
  lemma IsoDateRead(d: Date)
    requires 0 <= d.year <= 9999
    ensures ParseIsoDate(IsoDateString(d)) == Some(MakeDate(d.year, d.month, d.day))
  {
    var year := PadStart(NatToString(d.year), 4, '0');
    var month, day := TwoDigits(d.month), TwoDigits(d.day);
    assert IsoDateString(d) == year + "-" + month + "-" + day;
    assert ParseIsoDate(year + "-" + month + "-" + day) == Some(MakeDate(d.year, d.month, d.day)) by {
      FourDigitsValue(d.year);
      TwoDigitsValue(d.month);
      TwoDigitsValue(d.day);
      ParseDateParts(year, month, day);
    }
  }

  /** `ParseIsoDate` on a string assembled from its three numerals. */
  lemma ParseDateParts(a: string, b: string, c: string)
    requires |a| == 4 && |b| == 2 && |c| == 2
    requires AllDigits(a) && AllDigits(b) && AllDigits(c)
    requires 1 <= DigitsValue(b) <= 12 && 1 <= DigitsValue(c) <= 31
    ensures ParseIsoDate(a + "-" + b + "-" + c) == Some(MakeDate(DigitsValue(a), DigitsValue(b), DigitsValue(c)))
  {
    DateParts(a, b, c);
  }

  /** The date string the sheet sends is read by the server as exactly the
      day that was selected, for four-digit years. */
  lemma DateStringRoundTrip(d: Date)
    requires ValidDate(d) && 1000 <= d.year <= 9999
    ensures ParseIsoDate(DateString(d.year, d.month, d.day)) == Some(d)
  {
    DateStringIsIso(d);
    IsoDateRoundTrip(d);
  }

  /** The server reads the sheet's date string for any day 1..31 of a
      month as `new Date(y, m - 1, d)` would: a day the month does not have
      becomes a day of the next month. */
  lemma DateStringRead(y: int, m: Month, d: Day)
    requires 1000 <= y <= 9999
    ensures ParseIsoDate(DateString(y, m, d)) == Some(MakeDate(y, m, d))
  {
    DateStringIsIso(Date(y, m, d));
    IsoDateRead(Date(y, m, d));
  }
}
