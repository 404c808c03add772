/** `datetime.strptime(s, "%Y-%m-%d")` and `datetime.strptime(s, "%H:%M")`
    as the bot uses them, and the instant a parsed date and time stand for.

    CPython's `_strptime` turns each directive into a regular expression:
    `%Y` is exactly four digits, `%m` is `1[0-2]|0[1-9]|[1-9]`, `%d` is
    `3[01]|[12]\d|0[1-9]|[1-9]| [1-9]`, `%H` is `2[0-3]|[01]\d|\d` and `%M`
    is `[0-5]\d|\d`; the match must consume the whole string, and the
    resulting date must exist (year 1 or later, day within its month).
    Non-padded fields such as "2024-1-5" or "9:5" are therefore accepted.
    Here `\d` is read as an ASCII digit only; CPython's `\d` also matches
    other Unicode decimal digits, which this model rejects. */
module Dates {
  import opened Base

  datatype Date = Date(year: int, month: int, day: int)
  datatype Time = Time(hour: int, minute: int)

  predicate IsDigit(c: char)
  {
    '0' <= c <= '9'
  }

  function DigitValue(c: char): int
    requires IsDigit(c)
  {
    c as int - '0' as int
  }

  predicate IsLeap(y: int)
  {
    y % 4 == 0 && (y % 100 != 0 || y % 400 == 0)
  }

  function DaysInMonth(y: int, m: int): int
    requires 1 <= m <= 12
  {
    if m == 2 then (if IsLeap(y) then 29 else 28)
    else if m == 4 || m == 6 || m == 9 || m == 11 then 30
    else 31
  }

  /** A date the `datetime` module can represent. */
  predicate ValidDate(d: Date)
  {
    1 <= d.year <= 9999 && 1 <= d.month <= 12 && 1 <= d.day <= DaysInMonth(d.year, d.month)
  }

  predicate ValidTime(t: Time)
  {
    0 <= t.hour < 24 && 0 <= t.minute < 60
  }

  /** `%Y`: exactly four digits. */
  function YearField(s: string): Option<int>
  {
    if |s| == 4 && IsDigit(s[0]) && IsDigit(s[1]) && IsDigit(s[2]) && IsDigit(s[3]) then
      Some(DigitValue(s[0]) * 1000 + DigitValue(s[1]) * 100 + DigitValue(s[2]) * 10 + DigitValue(s[3]))
    else None
  }

  /** `%m`: `1[0-2]`, `0[1-9]` or `[1-9]`. */
  function MonthField(s: string): Option<int>
  {
    if |s| == 2 && s[0] == '1' && '0' <= s[1] <= '2' then Some(10 + DigitValue(s[1]))
    else if |s| == 2 && s[0] == '0' && '1' <= s[1] <= '9' then Some(DigitValue(s[1]))
    else if |s| == 1 && '1' <= s[0] <= '9' then Some(DigitValue(s[0]))
    else None
  }

  /** `%d`: `3[01]`, `[12]\d`, `0[1-9]`, `[1-9]` or a space and `[1-9]`. */
  function DayField(s: string): Option<int>
  {
    if |s| == 2 && s[0] == '3' && '0' <= s[1] <= '1' then Some(30 + DigitValue(s[1]))
    else if |s| == 2 && '1' <= s[0] <= '2' && IsDigit(s[1]) then Some(DigitValue(s[0]) * 10 + DigitValue(s[1]))
    else if |s| == 2 && s[0] == '0' && '1' <= s[1] <= '9' then Some(DigitValue(s[1]))
    else if |s| == 1 && '1' <= s[0] <= '9' then Some(DigitValue(s[0]))
    else if |s| == 2 && s[0] == ' ' && '1' <= s[1] <= '9' then Some(DigitValue(s[1]))
    else None
  }

  /** `%H`: `2[0-3]`, `[01]\d` or `\d`. */
  function HourField(s: string): Option<int>
  {
    if |s| == 2 && s[0] == '2' && '0' <= s[1] <= '3' then Some(20 + DigitValue(s[1]))
    else if |s| == 2 && '0' <= s[0] <= '1' && IsDigit(s[1]) then Some(DigitValue(s[0]) * 10 + DigitValue(s[1]))
    else if |s| == 1 && IsDigit(s[0]) then Some(DigitValue(s[0]))
    else None
  }

  /** `%M`: `[0-5]\d` or `\d`. */
  function MinuteField(s: string): Option<int>
  {
    if |s| == 2 && '0' <= s[0] <= '5' && IsDigit(s[1]) then Some(DigitValue(s[0]) * 10 + DigitValue(s[1]))
    else if |s| == 1 && IsDigit(s[0]) then Some(DigitValue(s[0]))
    else None
  }

  /** Where a one- or two-character field that is followed by `sep` ends in
      `s`, if anywhere. Month and hour fields are one or two digits long and
      are followed by a separator that is not a digit, so at most one split
      can match. */
  function SplitShortField(s: string, sep: char): Option<nat>
  {
    if |s| >= 2 && s[1] == sep then Some(1)
    else if |s| >= 3 && s[2] == sep then Some(2)
    else None
  }

  /** `datetime.strptime(s, "%Y-%m-%d").date()`, or None where it raises
      `ValueError`. */
  function ParseDate(s: string): (r: Option<Date>)
    ensures r.Some? ==> ValidDate(r.value)
  {
    if |s| < 5 || s[4] != '-' || YearField(s[..4]).None? then None
    else
      var rest := s[5..];
      match SplitShortField(rest, '-')
      case None => None
      case Some(k) =>
        var y, m, d := YearField(s[..4]), MonthField(rest[..k]), DayField(rest[k + 1..]);
        if m.None? || d.None? then None
        else
          var date := Date(y.value, m.value, d.value);
          if ValidDate(date) then Some(date) else None
  }

  /** `datetime.strptime(s, "%H:%M").time()`, or None where it raises
      `ValueError`. */
  function ParseTime(s: string): (r: Option<Time>)
    ensures r.Some? ==> ValidTime(r.value)
  {
    match SplitShortField(s, ':')
    case None => None
    case Some(k) =>
      var h, m := HourField(s[..k]), MinuteField(s[k + 1..]);
      if h.None? || m.None? then None else Some(Time(h.value, m.value))
  }

  /** The digit for a value 0..9. */
  function DigitChar(v: int): (c: char)
    requires 0 <= v <= 9
    ensures IsDigit(c) && DigitValue(c) == v
  {
    (v + '0' as int) as char
  }

  /** A value 0..99 as two digits, zero-padded. */
  function Pad2(v: int): (s: string)
    requires 0 <= v <= 99
    ensures |s| == 2
  {
    [DigitChar(v / 10), DigitChar(v % 10)]
  }

  /** A date as "YYYY-MM-DD", zero-padded, the form the bot asks users for. */
  function FormatDate(d: Date): (s: string)
    requires ValidDate(d)
  {
    [DigitChar(d.year / 1000), DigitChar(d.year / 100 % 10), DigitChar(d.year / 10 % 10), DigitChar(d.year % 10)]
    + "-" + Pad2(d.month) + "-" + Pad2(d.day)
  }

  /** A time as "HH:MM", zero-padded. */
  function FormatTime(t: Time): (s: string)
    requires ValidTime(t)
  {
    Pad2(t.hour) + ":" + Pad2(t.minute)
  }

  lemma YearDigits(y: int)
    requires 0 <= y <= 9999
    ensures y / 1000 * 1000 + y / 100 % 10 * 100 + y / 10 % 10 * 10 + y % 10 == y
  {
    var a := y / 10;
    var b := a / 10;
    var c := b / 10;
    assert y == 10 * a + y % 10;
    assert a == 10 * b + a % 10;
    assert b == 10 * c + b % 10;
    DivUnique(y, 100, b);
    DivUnique(y, 1000, c);
  }

  lemma Pad2Month(m: int)
    requires 1 <= m <= 12
    ensures MonthField(Pad2(m)) == Some(m)
  {
  }

  lemma Pad2Day(d: int)
    requires 1 <= d <= 31
    ensures DayField(Pad2(d)) == Some(d)
  {
  }

  lemma Pad2Hour(h: int)
    requires 0 <= h < 24
    ensures HourField(Pad2(h)) == Some(h)
  {
  }

  lemma Pad2Minute(m: int)
    requires 0 <= m < 60
    ensures MinuteField(Pad2(m)) == Some(m)
  {
  }

  /** Every representable date, written as "YYYY-MM-DD", parses back to itself. */
  lemma ParseFormatDate(d: Date)
    requires ValidDate(d)
    ensures ParseDate(FormatDate(d)) == Some(d)
  {
    var s := FormatDate(d);
    var rest := s[5..];
    assert rest == Pad2(d.month) + "-" + Pad2(d.day);
    assert SplitShortField(rest, '-') == Some(2);
    assert rest[..2] == Pad2(d.month) && rest[3..] == Pad2(d.day);
    Pad2Month(d.month);
    Pad2Day(d.day);
    YearDigits(d.year);
    assert YearField(s[..4]) == Some(d.year);
  }

  /** Every time, written as "HH:MM", parses back to itself. */
  lemma ParseFormatTime(t: Time)
    requires ValidTime(t)
    ensures ParseTime(FormatTime(t)) == Some(t)
  {
    var s := FormatTime(t);
    assert SplitShortField(s, ':') == Some(2);
    assert s[..2] == Pad2(t.hour) && s[3..] == Pad2(t.minute);
    Pad2Hour(t.hour);
    Pad2Minute(t.minute);
  }

  /** Non-padded month and day are accepted. */
  lemma ParseDateUnpadded()
    ensures ParseDate("2024-1-5") == Some(Date(2024, 1, 5))
  {
    var s := "2024-1-5";
    assert s[..4] == "2024" && s[5..] == "1-5";
    assert "1-5"[..1] == "1" && "1-5"[2..] == "5";
  }

  /** February 29 exists only in leap years. */
  lemma ParseDateLeapDay()
    ensures ParseDate("2024-02-29") == Some(Date(2024, 2, 29))
    ensures ParseDate("2023-02-29") == None
  {
    assert "2024-02-29"[..4] == "2024" && "2024-02-29"[5..] == "02-29";
    assert "2023-02-29"[..4] == "2023" && "2023-02-29"[5..] == "02-29";
    assert "02-29"[..2] == "02" && "02-29"[3..] == "29";
  }

  /** Non-padded hour and minute are accepted; hour 24 is not. */
  lemma ParseTimeExamples()
    ensures ParseTime("9:5") == Some(Time(9, 5))
    ensures ParseTime("24:00") == None
  {
    assert "9:5"[..1] == "9" && "9:5"[2..] == "5";
    assert "24:00"[..2] == "24";
  }

  /** Days before January 1 of year `y`, counted from 0001-01-01
      (`_days_before_year`). */
  function DaysBeforeYear(y: int): int
  {
    var p := y - 1;
    p * 365 + p / 4 - p / 100 + p / 400
  }

  /** Days in the year before the first of month `m` (`_days_before_month`:
      a fixed table, plus one after February in a leap year). */
  function DaysBeforeMonth(y: int, m: int): int
    requires 1 <= m <= 12
  {
    [0, 31, 59, 90, 120, 151, 181, 212, 243, 273, 304, 334][m - 1]
    + if m > 2 && IsLeap(y) then 1 else 0
  }

  /** `date.toordinal()` minus one. */
  function DayNumber(d: Date): int
    requires ValidDate(d)
  {
    DaysBeforeYear(d.year) + DaysBeforeMonth(d.year, d.month) + d.day - 1
  }

  const MicrosPerMinute: int := 60_000_000

  /** `datetime.combine(d, t, tzinfo=TZ)` as microseconds since
      0001-01-01 00:00 on the wall clock of the bot's zone. Every datetime
      the bot compares carries the same `tzinfo`, and Python compares aware
      datetimes sharing one `tzinfo` by their naive wall-clock values, so
      comparing these numbers is comparing the aware datetimes. */
  function Instant(d: Date, t: Time): int
    requires ValidDate(d) && ValidTime(t)
  {
    ((DayNumber(d) * 24 + t.hour) * 60 + t.minute) * MicrosPerMinute
  }

  /** Calendar order on (date, time) pairs. */
  predicate Earlier(d1: Date, t1: Time, d2: Date, t2: Time)
  {
    d1.year < d2.year
    || (d1.year == d2.year && d1.month < d2.month)
    || (d1.year == d2.year && d1.month == d2.month && d1.day < d2.day)
    || (d1 == d2 && t1.hour < t2.hour)
    || (d1 == d2 && t1.hour == t2.hour && t1.minute < t2.minute)
  }

  lemma DivStep(p: int, k: int)
    requires k > 0
    ensures (p + 1) / k == p / k + (if (p + 1) % k == 0 then 1 else 0)
  {
    var q, r := p / k, p % k;
    if r == k - 1 {
      DivUnique(p + 1, k, q + 1);
    } else {
      DivUnique(p + 1, k, q);
    }
  }

  lemma Divides(y: int, a: int, b: int)
    requires a > 0 && b > 0 && y % (a * b) == 0
    ensures y % a == 0
  {
    var k := y / (a * b);
    assert y == k * (a * b);
    assert y == (k * b) * a;
    DivUnique(y, a, k * b);
  }

  /** A year has 366 days if it is a leap year and 365 otherwise. */
  lemma YearLength(y: int)
    ensures DaysBeforeYear(y + 1) == DaysBeforeYear(y) + if IsLeap(y) then 366 else 365
  {
    var p := y - 1;
    DivStep(p, 4);
    DivStep(p, 100);
    DivStep(p, 400);
    if y % 400 == 0 {
      Divides(y, 100, 4);
    }
    if y % 100 == 0 {
      Divides(y, 4, 25);
    }
  }

  /** The first day of a later year comes after the last day of this one. */
  lemma {:induction false} DaysBeforeYearMono(y1: int, y2: int)
    requires y1 < y2
    ensures DaysBeforeYear(y1) + DaysBeforeMonth(y1, 12) + 31 <= DaysBeforeYear(y2)
    decreases y2 - y1
  {
    YearLength(y1);
    if y1 + 1 < y2 {
      DaysBeforeYearMono(y1 + 1, y2);
    }
  }

  /** Day numbers follow the calendar: an earlier date has a smaller one. */
  lemma DayNumberMono(d1: Date, d2: Date)
    requires ValidDate(d1) && ValidDate(d2)
    requires d1.year < d2.year
          || (d1.year == d2.year && d1.month < d2.month)
          || (d1.year == d2.year && d1.month == d2.month && d1.day < d2.day)
    ensures DayNumber(d1) < DayNumber(d2)
  {
    if d1.year < d2.year {
      DaysBeforeYearMono(d1.year, d2.year);
    }
  }

  /** Comparing instants is comparing (date, time) in calendar order. */
  lemma InstantOrder(d1: Date, t1: Time, d2: Date, t2: Time)
    requires ValidDate(d1) && ValidTime(t1) && ValidDate(d2) && ValidTime(t2)
    ensures Instant(d1, t1) < Instant(d2, t2) <==> Earlier(d1, t1, d2, t2)
    ensures Instant(d1, t1) == Instant(d2, t2) <==> d1 == d2 && t1 == t2
  {
    var n1, n2 := DayNumber(d1), DayNumber(d2);
    if d1 != d2 {
      if Earlier(d1, Time(0, 0), d2, Time(0, 0)) {
        DayNumberMono(d1, d2);
      } else {
        DayNumberMono(d2, d1);
      }
    }
    var m1 := (n1 * 24 + t1.hour) * 60 + t1.minute;
    var m2 := (n2 * 24 + t2.hour) * 60 + t2.minute;
    assert Instant(d1, t1) == m1 * MicrosPerMinute && Instant(d2, t2) == m2 * MicrosPerMinute;
    assert m1 < m2 <==> Earlier(d1, t1, d2, t2);
    assert m1 == m2 <==> d1 == d2 && t1 == t2;
  }
}
