/** The part of CPython's `datetime.strptime(text, "%Y-%m-%d")` the contract check
    relies on, and the comparison of `datetime.today()` with a parsed date.

    CPython turns the format into the regular expression
      %Y: \d\d\d\d     %m: 1[0-2]|0[1-9]|[1-9]     %d: 3[01]|[12]\d|0[1-9]|[1-9]| [1-9]
    matched at the start of the text; text left over after the match, or a
    year/month/day that `datetime` rejects (year 0, 31 April, 29 February outside a
    leap year), raises ValueError. */
module Strptime {
  import opened Decimal
  import opened PyText

  datatype Date = Date(year: int, month: int, day: int)

  /** A moment: a date and the microseconds elapsed since its midnight. */
  datatype DateTime = DateTime(date: Date, micros: nat)

  predicate IsLeapYear(y: int) {
    y % 4 == 0 && (y % 100 != 0 || y % 400 == 0)
  }

  function DaysInMonth(y: int, m: int): (n: int)
    requires 1 <= m <= 12
    ensures 28 <= n <= 31
    ensures m == 2 ==> (n == 29 <==> IsLeapYear(y))
  {
    if m == 2 then (if IsLeapYear(y) then 29 else 28)
    else if m == 4 || m == 6 || m == 9 || m == 11 then 30
    else 31
  }

  /** The dates `datetime` can represent. */
  predicate ValidDate(d: Date) {
    && 1 <= d.year <= 9999
    && 1 <= d.month <= 12
    && 1 <= d.day <= DaysInMonth(d.year, d.month)
  }

  /** The month a text matched in full by `1[0-2]|0[1-9]|[1-9]` denotes. */
  function MonthField(t: string): (r: Option<int>)
    ensures r.Some? ==> 1 <= r.value <= 12
  {
    if |t| == 1 && '1' <= t[0] <= '9' then Some(DigitValue(t[0]))
    else if |t| == 2 && t[0] == '0' && '1' <= t[1] <= '9' then Some(DigitValue(t[1]))
    else if |t| == 2 && t[0] == '1' && '0' <= t[1] <= '2' then Some(10 + DigitValue(t[1]))
    else None
  }

  /** The day a text matched in full by `3[01]|[12]\d|0[1-9]|[1-9]| [1-9]` denotes.
      The day directive ends the pattern, so the first alternative that matches a
      prefix is taken and anything after it is left over; every two-character
      alternative is tried before the one-character one, so the text is accepted
      exactly when one alternative matches all of it. */
  function DayField(t: string): (r: Option<int>)
    ensures r.Some? ==> 1 <= r.value <= 31
  {
    if |t| == 1 && '1' <= t[0] <= '9' then Some(DigitValue(t[0]))
    else if |t| == 2 && (t[0] == '0' || t[0] == ' ') && '1' <= t[1] <= '9' then Some(DigitValue(t[1]))
    else if |t| == 2 && (t[0] == '1' || t[0] == '2') && IsDigit(t[1]) then Some(10 * DigitValue(t[0]) + DigitValue(t[1]))
    else if |t| == 2 && t[0] == '3' && (t[1] == '0' || t[1] == '1') then Some(30 + DigitValue(t[1]))
    else None
  }

  /** `datetime.strptime(s, "%Y-%m-%d")`: the date, or None where it raises ValueError.
      The month is followed by '-', so it is one character when the second character
      after the year's '-' is '-', and two characters otherwise. */
  function ParseDate(s: string): (r: Option<Date>)
    ensures r.Some? ==> ValidDate(r.value)
  {
    if |s| < 5 || !AllDigits(s[..4]) || s[4] != '-' then None
    else
      var rest := s[5..];
      var width := if |rest| >= 2 && rest[1] == '-' then 1 else 2;
      if |rest| <= width || rest[width] != '-' then None
      else
        match (MonthField(rest[..width]), DayField(rest[width + 1..]))
        case (Some(month), Some(day)) =>
          var d := Date(DigitsValue(s[..4]), month, day);
          if ValidDate(d) then Some(d) else None
        case _ => None
  }

  /** `strftime("%Y-%m-%d")`: the ISO rendering with every part zero-padded. */
  function IsoText(d: Date): string
    requires ValidDate(d)
  {
    ZeroPadded(d.year, 4) + "-" + ZeroPadded(d.month, 2) + "-" + ZeroPadded(d.day, 2)
  }

  /** A number below 100 renders as exactly two digits when padded to two. */
  lemma TwoDigits(n: nat)
    requires n < 100
    ensures ZeroPadded(n, 2) == [DigitChar(n / 10), DigitChar(n % 10)]
  {
    if n < 10 {
      OneDigitPadded(n);
    } else {
      TwoDigitsUnpadded(n);
    }
  }

  lemma OneDigitPadded(n: nat)
    requires n < 10
    ensures ZeroPadded(n, 2) == [DigitChar(0), DigitChar(n)]
  {
    assert NatToString(n) == [DigitChar(n)];
  }

  lemma TwoDigitsUnpadded(n: nat)
    requires 10 <= n < 100
    ensures ZeroPadded(n, 2) == [DigitChar(n / 10), DigitChar(n % 10)]
  {
    assert NatToString(n / 10) == [DigitChar(n / 10)];
  }

  lemma MonthFieldPadded(n: nat)
    requires 1 <= n <= 12
    ensures MonthField(ZeroPadded(n, 2)) == Some(n)
  {
    TwoDigits(n);
    var hi, lo := n / 10, n % 10;
    assert DigitValue(DigitChar(hi)) == hi && DigitValue(DigitChar(lo)) == lo;
    MonthFieldOfDigits(DigitChar(hi), DigitChar(lo));
  }

  lemma MonthFieldOfDigits(a: char, b: char)
    requires IsDigit(a) && IsDigit(b)
    requires 1 <= 10 * DigitValue(a) + DigitValue(b) <= 12
    ensures MonthField([a, b]) == Some(10 * DigitValue(a) + DigitValue(b))
  {
  }

  lemma DayFieldPadded(n: nat)
    requires 1 <= n <= 31
    ensures DayField(ZeroPadded(n, 2)) == Some(n)
  {
    TwoDigits(n);
    var hi, lo := n / 10, n % 10;
    assert DigitValue(DigitChar(hi)) == hi && DigitValue(DigitChar(lo)) == lo;
    DayFieldOfDigits(DigitChar(hi), DigitChar(lo));
  }

  lemma DayFieldOfDigits(a: char, b: char)
    requires IsDigit(a) && IsDigit(b)
    requires 1 <= 10 * DigitValue(a) + DigitValue(b) <= 31
    ensures DayField([a, b]) == Some(10 * DigitValue(a) + DigitValue(b))
  {
  }

  /** A year of the datetime range renders in exactly four digits when padded. */
  lemma FourDigits(y: nat)
    requires 1 <= y <= 9999
    ensures |ZeroPadded(y, 4)| == 4 && DigitsValue(ZeroPadded(y, 4)) == y
  {
    NatToStringLength(y, 4);
    ZeroPaddedValue(y, 4);
  }

  /** How the parser reads a year, a two-character month and a day text. */
  lemma ParseDateParts(y: string, m: string, dd: string)
    requires |y| == 4 && AllDigits(y) && |m| == 2 && AllDigits(m)
    ensures ParseDate(y + "-" + m + "-" + dd)
      == match (MonthField(m), DayField(dd))
         case (Some(month), Some(day)) =>
           (if ValidDate(Date(DigitsValue(y), month, day)) then Some(Date(DigitsValue(y), month, day)) else None)
         case _ => None
  {
    var s := y + "-" + m + "-" + dd;
    assert s[..4] == y;
    assert s[5..] == m + "-" + dd;
    var rest := s[5..];
    assert rest[..2] == m && rest[3..] == dd;
  }

  /** Every representable date survives a round trip through its ISO rendering. */
  lemma ParseIsoText(d: Date)
    requires ValidDate(d)
    ensures ParseDate(IsoText(d)) == Some(d)
  {
    FourDigits(d.year);
    TwoDigits(d.month);
    TwoDigits(d.day);
    MonthFieldPadded(d.month);
    DayFieldPadded(d.day);
    ParseDateParts(ZeroPadded(d.year, 4), ZeroPadded(d.month, 2), ZeroPadded(d.day, 2));
  }

  /** Text after a complete date is never accepted: "unconverted data remains". */
  lemma TrailingTextRejected(d: Date, tail: string)
    requires ValidDate(d) && tail != []
    ensures ParseDate(IsoText(d) + tail) == None
  {
    FourDigits(d.year);
    TwoDigits(d.month);
    TwoDigits(d.day);
    TextAfterDayRejected(ZeroPadded(d.year, 4), ZeroPadded(d.month, 2), ZeroPadded(d.day, 2), tail);
  }

  lemma TextAfterDayRejected(y: string, m: string, dd: string, tail: string)
    requires |y| == 4 && AllDigits(y) && |m| == 2 && AllDigits(m) && |dd| == 2 && tail != []
    ensures ParseDate(y + "-" + m + "-" + dd + tail) == None
  {
    assert y + "-" + m + "-" + dd + tail == y + "-" + m + "-" + (dd + tail);
    ParseDateParts(y, m, dd + tail);
  }

  /** The moments datetime.today() can return: a representable date and a time of
      day inside it. */
  predicate ValidMoment(t: DateTime) {
    ValidDate(t.date) && t.micros < 86_400_000_000
  }

  /** `a < b` on datetimes: by date, then by time of day. */
  predicate Before(a: DateTime, b: DateTime) {
    || a.date.year < b.date.year
    || (a.date.year == b.date.year && a.date.month < b.date.month)
    || (a.date.year == b.date.year && a.date.month == b.date.month && a.date.day < b.date.day)
    || (a.date == b.date && a.micros < b.micros)
  }

  /** A date as the datetime strptime returns: its midnight. */
  function Midnight(d: Date): DateTime {
    DateTime(d, 0)
  }
}
