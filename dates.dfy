/** Both scrapers turn the `YY.MM.DD` text of a table's date cell into `YYYY-MM-DD` with
    `datetime.strptime(s, '%y.%m.%d').strftime('%Y-%m-%d')`. This module models that call:
    the field patterns CPython's `_strptime` compiles for `%y`, `%m` and `%d`, its two-digit
    year rule (69..99 -> 19xx, 00..68 -> 20xx), the calendar check `datetime(...)` performs,
    and the zero-padded rendering. */
module Dates {
  import opened Values
  import opened Text

  datatype Date = Date(year: int, month: int, day: int)

  predicate IsLeapYear(y: int)
  {
    y % 4 == 0 && (y % 100 != 0 || y % 400 == 0)
  }

  function DaysInMonth(y: int, m: int): int
    requires 1 <= m <= 12
  {
    if m == 2 then (if IsLeapYear(y) then 29 else 28)
    else if m == 4 || m == 6 || m == 9 || m == 11 then 30
    else 31
  }

  /** What `datetime(year, month, day)` accepts without raising `ValueError`. */
  predicate ValidDate(d: Date)
  {
    1 <= d.year <= 9999 && 1 <= d.month <= 12 && 1 <= d.day <= DaysInMonth(d.year, d.month)
  }

  /** `%y` in `strptime`: two digits, 69..99 in the 1900s and 00..68 in the 2000s. */
  function CenturyYear(yy: nat): (y: int)
    requires yy < 100
    ensures 1969 <= y <= 2068 && y % 100 == yy
  {
    if yy <= 68 then 2000 + yy else 1900 + yy
  }

  function DigitAt(s: string, i: nat): nat
    requires i < |s| && IsDigit(s[i])
  {
    s[i] as int - '0' as int
  }

  /** The texts the `%m` pattern `1[0-2]|0[1-9]|[1-9]` can match. */
  predicate MonthField(f: string)
  {
    || (|f| == 1 && '1' <= f[0] <= '9')
    || (|f| == 2 && f[0] == '0' && '1' <= f[1] <= '9')
    || (|f| == 2 && f[0] == '1' && '0' <= f[1] <= '2')
  }

  /** The texts the `%d` pattern `3[01]|[12]\d|0[1-9]|[1-9]| [1-9]` can match. */
  predicate DayField(f: string)
  {
    || (|f| == 1 && '1' <= f[0] <= '9')
    || (|f| == 2 && f[0] == '3' && (f[1] == '0' || f[1] == '1'))
    || (|f| == 2 && (f[0] == '1' || f[0] == '2') && IsDigit(f[1]))
    || (|f| == 2 && (f[0] == '0' || f[0] == ' ') && '1' <= f[1] <= '9')
  }

  function FieldValue(f: string): nat
    requires MonthField(f) || DayField(f)
  {
    if |f| == 1 then DigitAt(f, 0)
    else if f[0] == ' ' then DigitAt(f, 1)
    else DigitAt(f, 0) * 10 + DigitAt(f, 1)
  }

  /** `datetime.strptime(s, '%y.%m.%d')`: `None` where Python raises `ValueError` (the text
      does not match the pattern, or the date does not exist). */
  function ParseShortDate(s: string): (r: Option<Date>)
    ensures r.Some? ==> ValidDate(r.value) && 1969 <= r.value.year <= 2068
  {
    if |s| < 3 || !IsDigit(s[0]) || !IsDigit(s[1]) || s[2] != '.' then None
    else
      var rest := s[3..];
      match IndexOf(rest, '.')
      case None => None
      case Some(j) =>
        var m := rest[..j];
        var d := rest[j + 1..];
        if !MonthField(m) || !DayField(d) then None
        else
          var date := Date(CenturyYear(DigitAt(s, 0) * 10 + DigitAt(s, 1)), FieldValue(m), FieldValue(d));
          if ValidDate(date) then Some(date) else None
  }

  function Pad2(n: nat): (r: string)
    requires n < 100
    ensures |r| == 2 && AllDigits(r)
  {
    [DigitChar(n / 10), DigitChar(n % 10)]
  }

  /** `strftime('%Y-%m-%d')` for a year of four digits. */
  function IsoFormat(d: Date): (r: string)
    requires ValidDate(d) && 1000 <= d.year
    ensures |r| == 10 && r[4] == '-' && r[7] == '-'
  {
    Pad2(d.year / 100) + Pad2(d.year % 100) + "-" + Pad2(d.month) + "-" + Pad2(d.day)
  }

  /** The whole conversion a scraper applies to a date cell. */
  function ToIsoDate(s: string): (r: Option<string>)
    ensures r.Some? <==> ParseShortDate(s).Some?
  {
    match ParseShortDate(s)
    case None => None
    case Some(d) => Some(IsoFormat(d))
  }

  /** The way the scraped pages print a date: `YY.MM.DD`, every field two digits. */
  function ShortFormat(d: Date): string
    requires 1 <= d.month <= 12 && 1 <= d.day <= 31 && d.year >= 0
  {
    Pad2(d.year % 100) + "." + Pad2(d.month) + "." + Pad2(d.day)
  }

  lemma Pad2Month(m: int)
    requires 1 <= m <= 12
    ensures MonthField(Pad2(m)) && FieldValue(Pad2(m)) == m
  {
  }

  lemma Pad2Day(d: int)
    requires 1 <= d <= 31
    ensures DayField(Pad2(d)) && FieldValue(Pad2(d)) == d
  {
  }

  /** Every date the two-digit year can name is read back exactly from its `YY.MM.DD` text:
      1969..2068 is the window of the `%y` century rule. */
  lemma ParseShortFormat(d: Date)
    requires ValidDate(d) && 1969 <= d.year <= 2068
    ensures ParseShortDate(ShortFormat(d)) == Some(d)
  {
    var s := ShortFormat(d);
    Pad2Month(d.month);
    Pad2Day(d.day);
    assert s[3..] == Pad2(d.month) + ['.'] + Pad2(d.day);
    var yy := d.year % 100;
    assert DigitAt(s, 0) * 10 + DigitAt(s, 1) == yy;
    assert CenturyYear(yy) == d.year;
    ParseShortParts(s, Pad2(d.month), Pad2(d.day), d);
  }

  /** A text of two digits, a dot, a month field free of dots, a dot and a day field is read
      as the date those fields name. */
  lemma ParseShortParts(s: string, m: string, dd: string, d: Date)
    requires |s| >= 3 && IsDigit(s[0]) && IsDigit(s[1]) && s[2] == '.'
    requires s[3..] == m + ['.'] + dd && '.' !in m
    requires MonthField(m) && DayField(dd) && ValidDate(d)
    requires d == Date(CenturyYear(DigitAt(s, 0) * 10 + DigitAt(s, 1)), FieldValue(m), FieldValue(dd))
    ensures ParseShortDate(s) == Some(d)
  {
    var rest := s[3..];
    IndexOfAfter(m, '.', dd);
    assert rest[..|m|] == m && rest[|m| + 1..] == dd;
  }

  /** The date cell's text, stripped and converted, is the ISO form of the date it shows. */
  lemma ShortFormatToIso(d: Date)
    requires ValidDate(d) && 1969 <= d.year <= 2068
    ensures ToIsoDate(Strip(ShortFormat(d))) == Some(IsoFormat(d))
  {
    var s := ShortFormat(d);
    assert s[0] == DigitChar(d.year % 100 / 10) && s[|s| - 1] == DigitChar(d.day % 10);
    StripUnpadded(s);
    ParseShortFormat(d);
  }

  /** The output of a successful parse is the same date written `YYYY-MM-DD`: its digits give
      back the year, the month and the day. */
  lemma IsoFormatFields(d: Date)
    requires ValidDate(d) && 1000 <= d.year
    ensures var r := IsoFormat(d);
      && DigitAt(r, 0) * 1000 + DigitAt(r, 1) * 100 + DigitAt(r, 2) * 10 + DigitAt(r, 3) == d.year
      && DigitAt(r, 5) * 10 + DigitAt(r, 6) == d.month
      && DigitAt(r, 8) * 10 + DigitAt(r, 9) == d.day
  {
  }

  /** A `YY.MM.DD` text that names a day that does not exist is rejected, as `datetime`
      raises `ValueError` for it: the leap day only exists in a leap year. */
  lemma NoLeapDayIn2023()
    ensures ParseShortDate("23.02.29") == None
  {
    var rest := "23.02.29"[3..];
    assert rest == "02.29";
    assert IndexOf(rest, '.') == Some(2);
    assert rest[..2] == "02" && rest[3..] == "29";
    assert !ValidDate(Date(2023, 2, 29));
  }

  lemma FirstWindowDayText()
    ensures ShortFormat(Date(1969, 1, 1)) == "69.01.01"
  {
    assert Pad2(69) == "69" && Pad2(1) == "01";
  }

  lemma LastWindowDayText()
    ensures ShortFormat(Date(2068, 12, 31)) == "68.12.31"
  {
    assert 2068 % 100 == 68;
    assert Pad2(68) == "68" && Pad2(12) == "12" && Pad2(31) == "31";
  }

  lemma LeapDayText()
    ensures ShortFormat(Date(2024, 2, 29)) == "24.02.29"
  {
    assert 2024 % 100 == 24;
    assert Pad2(24) == "24" && Pad2(2) == "02" && Pad2(29) == "29";
  }

  /** The first year of the century window: `69` is read as 1969. */
  lemma WindowStart()
    ensures ParseShortDate("69.01.01") == Some(Date(1969, 1, 1))
  {
    FirstWindowDayText();
    ParseShortFormat(Date(1969, 1, 1));
  }

  /** The last year of the century window: `68` is read as 2068. */
  lemma WindowEnd()
    ensures ParseShortDate("68.12.31") == Some(Date(2068, 12, 31))
  {
    LastWindowDayText();
    ParseShortFormat(Date(2068, 12, 31));
  }

  /** The leap day of a leap year is accepted. */
  lemma LeapDayIn2024()
    ensures ParseShortDate("24.02.29") == Some(Date(2024, 2, 29))
  {
    assert IsLeapYear(2024) && ValidDate(Date(2024, 2, 29));
    LeapDayText();
    ParseShortFormat(Date(2024, 2, 29));
  }
}
