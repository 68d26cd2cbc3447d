/**
 * `pd.to_datetime(..., format='%d-%m-%Y %H.%M.%S', errors='coerce')` on one
 * string: a strict fixed-width reading of "DD-MM-YYYY HH.MM.SS" with calendar
 * range checks, giving a timestamp in whole seconds, or None (NaT) for a
 * string that does not match.
 */
module DateTime {
  import opened Wrappers

  /** The six calendar fields the format reads. */
  datatype Fields = Fields(day: int, month: int, year: int, hour: int, minute: int, second: int)

  const SECONDS_PER_DAY: int := 86400

  predicate IsLeapYear(y: int) {
    y % 4 == 0 && (y % 100 != 0 || y % 400 == 0)
  }

  function DaysInMonth(y: int, m: int): (n: int)
    requires 1 <= m <= 12
    ensures 28 <= n <= 31
  {
    if m == 2 then (if IsLeapYear(y) then 29 else 28)
    else if m == 4 || m == 6 || m == 9 || m == 11 then 30
    else 31
  }

  function DaysInYear(y: int): int {
    if IsLeapYear(y) then 366 else 365
  }

  /** A real date and time of day in the proleptic Gregorian calendar, with a four-digit year. */
  predicate Valid(f: Fields) {
    && 1 <= f.year <= 9999
    && 1 <= f.month <= 12
    && 1 <= f.day <= DaysInMonth(f.year, f.month)
    && 0 <= f.hour < 24
    && 0 <= f.minute < 60
    && 0 <= f.second < 60
  }

  /** Days from 0001-01-01 to the first day of year y. */
  function DaysBeforeYear(y: int): int
    requires y >= 1
  {
    var p := y - 1;
    365 * p + p / 4 - p / 100 + p / 400
  }

  /** Days from the first of January of year y to the first day of month m. */
  function DaysBeforeMonth(y: int, m: int): int
    requires 1 <= m <= 12
  {
    var cumulative := [0, 31, 59, 90, 120, 151, 181, 212, 243, 273, 304, 334];
    cumulative[m - 1] + (if m > 2 && IsLeapYear(y) then 1 else 0)
  }

  /** Days from 0001-01-01 to the date of f. */
  function DayNumber(f: Fields): int
    requires Valid(f)
  {
    DaysBeforeYear(f.year) + DaysBeforeMonth(f.year, f.month) + f.day - 1
  }

  /** The timestamp of f, in seconds from 0001-01-01 00:00:00. */
  function ToSeconds(f: Fields): int
    requires Valid(f)
  {
    DayNumber(f) * SECONDS_PER_DAY + f.hour * 3600 + f.minute * 60 + f.second
  }

  // ---------------------------------------------------------------- reading

  predicate IsDigit(c: char) {
    '0' <= c <= '9'
  }

  function DigitValue(c: char): (d: int)
    requires IsDigit(c)
    ensures 0 <= d < 10
  {
    c as int - '0' as int
  }

  /** The two-digit number at s[i..i+2]. */
  function Number2(s: string, i: nat): (n: int)
    requires i + 2 <= |s| && IsDigit(s[i]) && IsDigit(s[i + 1])
    ensures 0 <= n < 100
  {
    10 * DigitValue(s[i]) + DigitValue(s[i + 1])
  }

  /** The four-digit number at s[i..i+4]. */
  function Number4(s: string, i: nat): (n: int)
    requires i + 4 <= |s| && IsDigit(s[i]) && IsDigit(s[i + 1]) && IsDigit(s[i + 2]) && IsDigit(s[i + 3])
    ensures 0 <= n < 10000
  {
    100 * Number2(s, i) + Number2(s, i + 2)
  }

  /** s has the layout "DD-MM-YYYY HH.MM.SS": nineteen characters, digits and the fixed separators. */
  predicate Shaped(s: string) {
    && |s| == 19
    && IsDigit(s[0]) && IsDigit(s[1]) && s[2] == '-'
    && IsDigit(s[3]) && IsDigit(s[4]) && s[5] == '-'
    && IsDigit(s[6]) && IsDigit(s[7]) && IsDigit(s[8]) && IsDigit(s[9])
    && s[10] == ' '
    && IsDigit(s[11]) && IsDigit(s[12]) && s[13] == '.'
    && IsDigit(s[14]) && IsDigit(s[15]) && s[16] == '.'
    && IsDigit(s[17]) && IsDigit(s[18])
  }

  /** The fields named by %d, %m, %Y, %H, %M and %S. */
  function ReadFields(s: string): Fields
    requires Shaped(s)
  {
    Fields(Number2(s, 0), Number2(s, 3), Number4(s, 6), Number2(s, 11), Number2(s, 14), Number2(s, 17))
  }

  /** The coerced conversion of one string: the timestamp, or None (NaT) when the string does not match. */
  function Parse(s: string): Option<int> {
    if Shaped(s) && Valid(ReadFields(s)) then Some(ToSeconds(ReadFields(s))) else None
  }

  // ---------------------------------------------------------------- writing

  function DigitChar(d: int): (c: char)
    requires 0 <= d < 10
    ensures IsDigit(c) && DigitValue(c) == d
  {
    ('0' as int + d) as char
  }

  function Pad2(n: int): (s: string)
    requires 0 <= n < 100
  {
    [DigitChar(n / 10), DigitChar(n % 10)]
  }

  function Pad4(n: int): (s: string)
    requires 0 <= n < 10000
  {
    Pad2(n / 100) + Pad2(n % 100)
  }

  /** The string strftime('%d-%m-%Y %H.%M.%S') writes for f. */
  function Format(f: Fields): string
    requires Valid(f)
  {
    Pad2(f.day) + "-" + Pad2(f.month) + "-" + Pad4(f.year) + " "
      + Pad2(f.hour) + "." + Pad2(f.minute) + "." + Pad2(f.second)
  }

  /** The characters of Format(f), position by position. */
  lemma FormatAt(f: Fields)
    requires Valid(f)
    ensures var s := Format(f);
      && |s| == 19
      && s[0] == DigitChar(f.day / 10) && s[1] == DigitChar(f.day % 10) && s[2] == '-'
      && s[3] == DigitChar(f.month / 10) && s[4] == DigitChar(f.month % 10) && s[5] == '-'
      && s[6] == DigitChar(f.year / 100 / 10) && s[7] == DigitChar(f.year / 100 % 10)
      && s[8] == DigitChar(f.year % 100 / 10) && s[9] == DigitChar(f.year % 100 % 10)
      && s[10] == ' '
      && s[11] == DigitChar(f.hour / 10) && s[12] == DigitChar(f.hour % 10) && s[13] == '.'
      && s[14] == DigitChar(f.minute / 10) && s[15] == DigitChar(f.minute % 10) && s[16] == '.'
      && s[17] == DigitChar(f.second / 10) && s[18] == DigitChar(f.second % 10)
  {
  }

  /** Reading back what Format writes gives the same fields. */
  lemma ReadFormat(f: Fields)
    requires Valid(f)
    ensures Shaped(Format(f)) && ReadFields(Format(f)) == f
  {
    FormatAt(f);
    var s := Format(f);
    assert Number4(s, 6) == f.year by {
      assert Number2(s, 6) == f.year / 100;
      assert Number2(s, 8) == f.year % 100;
    }
  }

  /** The two digits of Number2(s, i) are s[i] and s[i + 1]. */
  lemma Number2Digits(s: string, i: nat)
    requires i + 2 <= |s| && IsDigit(s[i]) && IsDigit(s[i + 1])
    ensures DigitChar(Number2(s, i) / 10) == s[i]
    ensures DigitChar(Number2(s, i) % 10) == s[i + 1]
  {
    var a, b := DigitValue(s[i]), DigitValue(s[i + 1]);
    assert Number2(s, i) / 10 == a && Number2(s, i) % 10 == b;
  }

  /** Writing the fields of a well-shaped string gives back the string. */
  lemma FormatRead(s: string)
    requires Shaped(s) && Valid(ReadFields(s))
    ensures Format(ReadFields(s)) == s
  {
    var f := ReadFields(s);
    FormatAt(f);
    assert f.year / 100 == Number2(s, 6) && f.year % 100 == Number2(s, 8);
    Number2Digits(s, 0);
    Number2Digits(s, 3);
    Number2Digits(s, 6);
    Number2Digits(s, 8);
    Number2Digits(s, 11);
    Number2Digits(s, 14);
    Number2Digits(s, 17);
    var t := Format(f);
    assert forall i :: 0 <= i < 19 ==> t[i] == s[i];
  }

  /** Every valid date and time, formatted, parses to its own timestamp. */
  lemma ParseFormat(f: Fields)
    requires Valid(f)
    ensures Parse(Format(f)) == Some(ToSeconds(f))
  {
    ReadFormat(f);
  }

  /** A string parses exactly when it is the formatting of a valid date and time. */
  lemma ParseSucceedsIffFormatted(s: string)
    ensures Parse(s).Some? <==> exists f :: Valid(f) && Format(f) == s
  {
    if Parse(s).Some? {
      FormatRead(s);
    }
    if exists f :: Valid(f) && Format(f) == s {
      var f :| Valid(f) && Format(f) == s;
      ReadFormat(f);
    }
  }

  // ---------------------------------------------------------------- order

  /** f comes strictly before g in calendar order. */
  predicate Before(f: Fields, g: Fields) {
    if f.year != g.year then f.year < g.year
    else if f.month != g.month then f.month < g.month
    else if f.day != g.day then f.day < g.day
    else if f.hour != g.hour then f.hour < g.hour
    else if f.minute != g.minute then f.minute < g.minute
    else f.second < g.second
  }

  /** Counting one more number adds one multiple of d exactly when that number is one. */
  lemma DivStep(p: int, d: int)
    requires p >= 0 && (d == 4 || d == 100 || d == 400)
    ensures (p + 1) / d == p / d + (if (p + 1) % d == 0 then 1 else 0)
  {
    var q, r := p / d, p % d;
    if d == 4 {
      assert p == 4 * q + r && 0 <= r < 4;
    } else if d == 100 {
      assert p == 100 * q + r && 0 <= r < 100;
    } else {
      assert p == 400 * q + r && 0 <= r < 400;
    }
  }

  /** The leap day of year y, counted as the rule counts it: every fourth, not every hundredth, every four hundredth. */
  lemma LeapDay(y: int)
    ensures DaysInYear(y) == 365 + (if y % 4 == 0 then 1 else 0) - (if y % 100 == 0 then 1 else 0) + (if y % 400 == 0 then 1 else 0)
  {
    if y % 400 == 0 {
      assert y == 100 * (4 * (y / 400));
    }
    if y % 100 == 0 {
      assert y == 4 * (25 * (y / 100));
    }
  }

  lemma YearStep(y: int)
    requires y >= 1
    ensures DaysBeforeYear(y + 1) == DaysBeforeYear(y) + DaysInYear(y)
  {
    DivStep(y - 1, 4);
    DivStep(y - 1, 100);
    DivStep(y - 1, 400);
    LeapDay(y);
  }

  /** A whole year separates the first day of y from the first day of any later year. */
  lemma {:induction false} YearsOrdered(y: int, z: int)
    requires 1 <= y < z
    ensures DaysBeforeYear(y) + DaysInYear(y) <= DaysBeforeYear(z)
    decreases z - y
  {
    YearStep(y);
    if y + 1 < z {
      YearsOrdered(y + 1, z);
    }
  }

  /** The days before month m and the days of m itself stay inside the year, and before later months. */
  lemma MonthsOrdered(y: int, m: int, n: int)
    requires 1 <= m <= 12 && m < n <= 13
    ensures n <= 12 ==> DaysBeforeMonth(y, m) + DaysInMonth(y, m) <= DaysBeforeMonth(y, n)
    ensures DaysBeforeMonth(y, m) + DaysInMonth(y, m) <= DaysInYear(y)
  {
  }

  /** Month m ends exactly where month m + 1 begins, and December ends where the year does. */
  lemma MonthStep(y: int, m: int)
    requires 1 <= m <= 12
    ensures m < 12 ==> DaysBeforeMonth(y, m) + DaysInMonth(y, m) == DaysBeforeMonth(y, m + 1)
    ensures m == 12 ==> DaysBeforeMonth(y, m) + DaysInMonth(y, m) == DaysInYear(y)
  {
  }

  /** The calendar order and the order of timestamps agree. */
  lemma ToSecondsOrdered(f: Fields, g: Fields)
    requires Valid(f) && Valid(g)
    requires Before(f, g)
    ensures ToSeconds(f) < ToSeconds(g)
  {
    if f.year < g.year {
      MonthsOrdered(f.year, f.month, 13);
      YearsOrdered(f.year, g.year);
      assert DayNumber(f) < DayNumber(g);
    } else if f.month < g.month {
      MonthsOrdered(f.year, f.month, g.month);
      assert DayNumber(f) < DayNumber(g);
    }
  }

  /** Different dates and times never share a timestamp. */
  lemma ToSecondsInjective(f: Fields, g: Fields)
    requires Valid(f) && Valid(g)
    requires ToSeconds(f) == ToSeconds(g)
    ensures f == g
  {
    if Before(f, g) {
      ToSecondsOrdered(f, g);
    } else if Before(g, f) {
      ToSecondsOrdered(g, f);
    }
  }

  /** Two strings that parse to the same timestamp are the same string. */
  lemma ParseInjective(s: string, t: string)
    requires Parse(s).Some? && Parse(s) == Parse(t)
    ensures s == t
  {
    FormatRead(s);
    FormatRead(t);
    ToSecondsInjective(ReadFields(s), ReadFields(t));
  }
}
