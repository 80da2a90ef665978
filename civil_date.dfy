/** Calendar dates as the converter meets them: `new Date(text)` on the ISO
    date-only forms of a trade date (read as midnight UTC), the time value as a
    whole number of days since 1970-01-01, and the spreadsheet day serial that
    `dateToExcelNumber` derives from it. The calendar is the proleptic
    Gregorian one that ECMAScript time values use. */
module CivilDate {
  import opened Wrappers
  import JsNumber

  datatype Date = Date(year: int, month: int, day: int)

  predicate IsLeapYear(y: int)
  {
    y % 4 == 0 && (y % 100 != 0 || y % 400 == 0)
  }

  function DaysInMonth(y: int, m: int): (n: int)
    requires 1 <= m <= 12
    ensures 28 <= n <= 31
  {
    if m == 2 then (if IsLeapYear(y) then 29 else 28)
    else if m == 4 || m == 6 || m == 9 || m == 11 then 30
    else 31
  }

  predicate Valid(d: Date)
  {
    1 <= d.month <= 12 && 1 <= d.day <= DaysInMonth(d.year, d.month)
  }

  function YearLength(y: int): int
  {
    if IsLeapYear(y) then 366 else 365
  }

  /** Days from 0001-01-01 to the first day of year `y` (negative before it). */
  function DaysBeforeYear(y: int): int
  {
    var p := y - 1;
    365 * p + p / 4 - p / 100 + p / 400
  }

  /** Days from the first of January to the first day of month `m`. */
  function DaysBeforeMonth(y: int, m: int): int
    requires 1 <= m <= 12
  {
    var common := [0, 31, 59, 90, 120, 151, 181, 212, 243, 273, 304, 334][m - 1];
    if m > 2 && IsLeapYear(y) then common + 1 else common
  }

  /** Days from 0001-01-01 to 1970-01-01, the origin of time values. */
  const UnixEpochOrdinal := 719162

  /** The number of whole days from 1970-01-01 to `d`: its time value at
      midnight UTC divided by 86400000. */
  function DayNumber(d: Date): int
    requires Valid(d)
  {
    DaysBeforeYear(d.year) + DaysBeforeMonth(d.year, d.month) + d.day - 1 - UnixEpochOrdinal
  }

  /** The calendar day after `d`. */
  function Next(d: Date): (r: Date)
    requires Valid(d)
    ensures Valid(r)
  {
    if d.day < DaysInMonth(d.year, d.month) then Date(d.year, d.month, d.day + 1)
    else if d.month < 12 then Date(d.year, d.month + 1, 1)
    else Date(d.year + 1, 1, 1)
  }

  /** Calendar order: by year, then month, then day. */
  predicate Precedes(a: Date, b: Date)
  {
    a.year < b.year || (a.year == b.year && (a.month < b.month || (a.month == b.month && a.day < b.day)))
  }

  lemma YearStep(y: int)
    ensures DaysBeforeYear(y + 1) == DaysBeforeYear(y) + YearLength(y)
  {
    QuotientStep4(y);
    QuotientStep100(y);
    QuotientStep400(y);
  }

  /** Moving one year on adds one to `y / 4` exactly when `y` is a multiple
      of 4; likewise for 100 and 400. */
  lemma QuotientStep4(y: int)
    ensures y / 4 == (y - 1) / 4 + (if y % 4 == 0 then 1 else 0)
  {
  }

  lemma QuotientStep100(y: int)
    ensures y / 100 == (y - 1) / 100 + (if y % 100 == 0 then 1 else 0)
  {
  }

  lemma QuotientStep400(y: int)
    ensures y / 400 == (y - 1) / 400 + (if y % 400 == 0 then 1 else 0)
  {
  }

  lemma MonthStep(y: int, m: int)
    requires 1 <= m < 12
    ensures DaysBeforeMonth(y, m + 1) == DaysBeforeMonth(y, m) + DaysInMonth(y, m)
  {
  }

  lemma LastMonth(y: int)
    ensures DaysBeforeMonth(y, 12) + DaysInMonth(y, 12) == YearLength(y)
  {
  }

  /** The day after a date has the next day number, so a day number counts
      calendar days without gaps. */
  lemma NextDayNumber(d: Date)
    requires Valid(d)
    ensures DayNumber(Next(d)) == DayNumber(d) + 1
  {
    if d.day < DaysInMonth(d.year, d.month) {
    } else if d.month < 12 {
      MonthStep(d.year, d.month);
    } else {
      LastMonth(d.year);
      YearStep(d.year);
    }
  }

  /** A later month of the same year starts no earlier than the end of an
      earlier one. */
  lemma {:induction false} MonthsOrdered(y: int, m1: int, m2: int)
    requires 1 <= m1 < m2 <= 12
    ensures DaysBeforeMonth(y, m1) + DaysInMonth(y, m1) <= DaysBeforeMonth(y, m2)
    decreases m2 - m1
  {
    MonthStep(y, m1);
    if m1 + 1 < m2 {
      MonthsOrdered(y, m1 + 1, m2);
    }
  }

  /** Every day of a year lies before the first day of the next. */
  lemma DayOfYearBound(d: Date)
    requires Valid(d)
    ensures DaysBeforeMonth(d.year, d.month) + d.day - 1 < YearLength(d.year)
  {
    if d.month < 12 {
      MonthsOrdered(d.year, d.month, 12);
    }
    LastMonth(d.year);
  }

  lemma {:induction false} YearsOrdered(a: int, b: int)
    requires a < b
    ensures DaysBeforeYear(a) + YearLength(a) <= DaysBeforeYear(b)
    decreases b - a
  {
    YearStep(a);
    if a + 1 < b {
      YearsOrdered(a + 1, b);
      YearStep(a + 1);
    }
  }

  lemma PrecedesSmaller(a: Date, b: Date)
    requires Valid(a) && Valid(b) && Precedes(a, b)
    ensures DayNumber(a) < DayNumber(b)
  {
    if a.year < b.year {
      DayOfYearBound(a);
      YearsOrdered(a.year, b.year);
    } else if a.month < b.month {
      MonthsOrdered(a.year, a.month, b.month);
    }
  }

  /** Day numbers follow calendar order exactly: one valid date precedes
      another if and only if its day number is smaller. Sorting by time value
      therefore sorts by calendar date, and distinct dates never share a day
      number. */
  lemma DayNumberOrder(a: Date, b: Date)
    requires Valid(a) && Valid(b)
    ensures Precedes(a, b) <==> DayNumber(a) < DayNumber(b)
    ensures a == b <==> DayNumber(a) == DayNumber(b)
  {
    if Precedes(a, b) {
      PrecedesSmaller(a, b);
    } else if a != b {
      assert Precedes(b, a);
      PrecedesSmaller(b, a);
    }
  }

  // ---------------------------------------------------------------------
  // The ISO date-only forms of `new Date(text)`

  /** The date written by one of ECMAScript's date-only forms `YYYY`, `YYYY-MM`
      or `YYYY-MM-DD` (a missing month or day is 01), or `None` (Invalid Date)
      when the text is not one of them or names a month or day that does not
      exist. */
  function ParseIsoFields(s: string): (r: Option<Date>)
    ensures r.Some? ==> Valid(r.value) && 0 <= r.value.year <= 9999
  {
    if |s| < 4 || !JsNumber.AllDigits(s[..4]) then None
    else
      var y := JsNumber.DigitsValue(s[..4]);
      assert JsNumber.Pow10(4) == 10000;
      if |s| == 4 then Some(Date(y, 1, 1))
      else if |s| < 7 || s[4] != '-' || !JsNumber.AllDigits(s[5..7]) then None
      else
        var m := JsNumber.DigitsValue(s[5..7]);
        if m < 1 || 12 < m then None
        else if |s| == 7 then Some(Date(y, m, 1))
        else if |s| != 10 || s[7] != '-' || !JsNumber.AllDigits(s[8..]) then None
        else
          var d := JsNumber.DigitsValue(s[8..]);
          if 1 <= d <= DaysInMonth(y, m) then Some(Date(y, m, d)) else None
  }

  /** `new Date(text).getTime() / 86400000` for a date-only text; `None` is an
      Invalid Date (time value NaN). A time value it gives is that of a real
      calendar date with a four-digit year. */
  function ParseIsoDate(s: string): (r: Option<int>)
    ensures r.Some? ==> exists d :: Valid(d) && 0 <= d.year <= 9999 && r.value == DayNumber(d)
  {
    match ParseIsoFields(s)
    case Some(d) => Some(DayNumber(d))
    case None => None
  }

  function DigitChar(k: int): char
    requires 0 <= k <= 9
  {
    ('0' as int + k) as char
  }

  /** The last `width` decimal digits of `n`, zero-padded. */
  function PaddedDigits(n: nat, width: nat): (r: string)
    ensures |r| == width && JsNumber.AllDigits(r)
  {
    if width == 0 then "" else PaddedDigits(n / 10, width - 1) + [DigitChar(n % 10)]
  }

  lemma {:induction false} PaddedDigitsValue(n: nat, width: nat)
    requires n < JsNumber.Pow10(width)
    ensures JsNumber.DigitsValue(PaddedDigits(n, width)) == n
  {
    if width > 0 {
      var r := PaddedDigits(n, width);
      assert r[..width - 1] == PaddedDigits(n / 10, width - 1);
      PaddedDigitsValue(n / 10, width - 1);
    }
  }

  /** The `YYYY-MM-DD` text of a date with a four-digit year. */
  function FormatIsoDate(d: Date): (r: string)
    requires Valid(d) && 0 <= d.year <= 9999
    ensures |r| == 10 && r[4] == '-' && r[7] == '-'
  {
    PaddedDigits(d.year, 4) + "-" + PaddedDigits(d.month, 2) + "-" + PaddedDigits(d.day, 2)
  }

  /** Writing a date as `YYYY-MM-DD` and reading it back gives the date again. */
  lemma ParseFormat(d: Date)
    requires Valid(d) && 0 <= d.year <= 9999
    ensures ParseIsoFields(FormatIsoDate(d)) == Some(d)
    ensures ParseIsoDate(FormatIsoDate(d)) == Some(DayNumber(d))
  {
    var s := FormatIsoDate(d);
    assert s[..4] == PaddedDigits(d.year, 4);
    assert s[5..7] == PaddedDigits(d.month, 2);
    assert s[8..] == PaddedDigits(d.day, 2);
    PaddedDigitsValue(d.year, 4);
    PaddedDigitsValue(d.month, 2);
    PaddedDigitsValue(d.day, 2);
  }

  lemma {:induction false} DigitsOfValue(s: string)
    requires JsNumber.AllDigits(s)
    ensures PaddedDigits(JsNumber.DigitsValue(s), |s|) == s
  {
    if s != [] {
      var init := s[..|s| - 1];
      var c := s[|s| - 1];
      var k := c as int - '0' as int;
      DigitsOfValue(init);
      var v := JsNumber.DigitsValue(s);
      assert v == 10 * JsNumber.DigitsValue(init) + k;
      assert v / 10 == JsNumber.DigitsValue(init) && v % 10 == k;
      assert DigitChar(k) == c;
      assert PaddedDigits(v, |s|) == init + [c];
      assert s == init + [c];
    }
  }

  /** A trade date as the export reads it. */
  lemma ParseIsoDateExample()
    ensures ParseIsoDate("2021-02-10") == Some(18668)
  {
    var d := Date(2021, 2, 10);
    Formatted(d, "2021-02-10");
    ParseFormat(d);
    DayNumberExample(d);
  }

  lemma DayNumberExample(d: Date)
    requires d == Date(2021, 2, 10)
    ensures DayNumber(d) == 18668
  {
  }

  /** The leap day of a leap year is a date. */
  lemma ParseLeapDay()
    ensures ParseIsoDate("2024-02-29") == Some(19782)
  {
    var d := Date(2024, 2, 29);
    Formatted(d, "2024-02-29");
    ParseFormat(d);
    DayNumberLeapDay(d);
  }

  lemma DayNumberLeapDay(d: Date)
    requires d == Date(2024, 2, 29)
    ensures DayNumber(d) == 19782
  {
  }

  /** A date written as `YYYY-MM-DD`, one field at a time. */
  lemma Formatted(d: Date, s: string)
    requires (d == Date(2021, 2, 10) && s == "2021-02-10") || (d == Date(2024, 2, 29) && s == "2024-02-29")
    ensures Valid(d) && 0 <= d.year <= 9999 && FormatIsoDate(d) == s
  {
    if d.year == 2021 {
      Padded(2021, 4, "2021");
      Padded(2, 2, "02");
      Padded(10, 2, "10");
    } else {
      Padded(2024, 4, "2024");
      Padded(2, 2, "02");
      Padded(29, 2, "29");
    }
  }

  lemma Padded(n: nat, width: nat, t: string)
    requires (n, width, t) in {(2021, 4, "2021"), (2024, 4, "2024"), (2, 2, "02"), (10, 2, "10"), (29, 2, "29")}
    ensures PaddedDigits(n, width) == t
  {
  }

  /** A day the month lacks is an Invalid Date. */
  lemma InvalidDayOfMonth()
    ensures ParseIsoDate("2021-02-30") == None
  {
    var s := "2021-02-30";
    assert s[..4] == "2021" && s[5..7] == "02" && s[8..] == "30";
  }

  /** The leap day of a common year is an Invalid Date. */
  lemma InvalidLeapDay()
    ensures ParseIsoDate("2023-02-29") == None
  {
    var t := "2023-02-29";
    assert t[..4] == "2023" && t[5..7] == "02" && t[8..] == "29";
  }

  /** Texts in no ISO form are Invalid Dates: day.month.year order, or empty. */
  lemma InvalidIsoForms()
    ensures ParseIsoDate("10.02.2021") == None
    ensures ParseIsoDate("") == None
  {
    assert !JsNumber.IsDigit("10.02.2021"[..4][2]);
  }

  /** The other direction: a full `YYYY-MM-DD` text that parses is exactly the
      text of the date it names. */
  lemma FormatParse(s: string)
    requires |s| == 10 && ParseIsoFields(s).Some?
    ensures FormatIsoDate(ParseIsoFields(s).value) == s
  {
    DigitsOfValue(s[..4]);
    DigitsOfValue(s[5..7]);
    DigitsOfValue(s[8..]);
    assert s == s[..4] + "-" + s[5..7] + "-" + s[8..];
  }

  // ---------------------------------------------------------------------
  // Spreadsheet day serials

  /** 1900-01-01 as a day number. */
  function Excel1900(): int
  {
    DayNumber(Date(1900, 1, 1))
  }

  const MsPerDay := 86400000

  /** `dateToExcelNumber` as written: whole days between the time value of the
      date (midnight UTC) and that of `new Date(1900, 0, 1)`, which is midnight
      LOCAL time, plus 2. `offsetMs` is how far local time was ahead of UTC on
      1900-01-01. An Invalid Date gives NaN (`None`). */
  function DateToExcelNumberAt(day: Option<int>, offsetMs: int): (r: Option<int>)
    ensures r.Some? <==> day.Some?
  {
    match day
    case None => None
    case Some(t) =>
      var epochMs := Excel1900() * MsPerDay - offsetMs;
      Some((t * MsPerDay - epochMs) / MsPerDay + 2)
  }

  /** The day serial of the 1900 date system for a day number, counted from
      1900-01-01 in whole calendar days plus 2 (the 1900-01-01-is-day-1 rule and
      the serial the 1900 system spends on the fictitious 1900-02-29); NaN stays
      NaN. This is what the code computes wherever local time is at or ahead
      of UTC. */
  function DateToExcelNumber(day: Option<int>): (r: Option<int>)
    ensures r.Some? <==> day.Some?
  {
    match day
    case None => None
    case Some(t) => Some(t - Excel1900() + 2)
  }

  /** At UTC and anywhere east of it the code's serial is the calendar one. */
  lemma ExcelNumberEastOfUtc(day: Option<int>, offsetMs: int)
    requires 0 <= offsetMs < MsPerDay
    ensures DateToExcelNumberAt(day, offsetMs) == DateToExcelNumber(day)
  {
    if day.Some? {
      var t := day.value;
      assert t * MsPerDay - (Excel1900() * MsPerDay - offsetMs) == (t - Excel1900()) * MsPerDay + offsetMs;
    }
  }

  /** West of UTC every serial the code writes is one less than the calendar
      one, so the spreadsheet shows the day before the trade date. */
  lemma ExcelNumberWestOfUtc(day: int, offsetMs: int)
    requires -MsPerDay <= offsetMs < 0
    ensures DateToExcelNumberAt(Some(day), offsetMs) == Some(DateToExcelNumber(Some(day)).value - 1)
  {
    assert day * MsPerDay - (Excel1900() * MsPerDay - offsetMs) == (day - Excel1900() - 1) * MsPerDay + (MsPerDay + offsetMs);
  }

  /** Consecutive calendar days get consecutive serials. */
  lemma ExcelNumberNextDay(d: Date)
    requires Valid(d)
    ensures DateToExcelNumber(Some(DayNumber(Next(d)))) == Some(DateToExcelNumber(Some(DayNumber(d))).value + 1)
  {
    NextDayNumber(d);
  }

  /** Fixed points of the serial: 1900-01-01 is 2, 1900-03-01 is 61 (after
      the fictitious 1900-02-29), 1970-01-01 is 25569 and 2021-02-10 is 44237. */
  lemma ExcelNumberAnchors()
    ensures DateToExcelNumber(Some(DayNumber(Date(1900, 1, 1)))) == Some(2)
    ensures DateToExcelNumber(Some(DayNumber(Date(1900, 3, 1)))) == Some(61)
    ensures DayNumber(Date(1970, 1, 1)) == 0
    ensures DateToExcelNumber(Some(0)) == Some(25569)
    ensures DateToExcelNumber(Some(DayNumber(Date(2021, 2, 10)))) == Some(44237)
  {
  }
}
