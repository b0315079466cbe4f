/**
 * The helpers on the inputs their documentation talks about. The inputs are
 * parameters fixed by the precondition, so that the proofs go through the
 * general lemmas rather than evaluating the helpers character by character.
 */
module TimeDateExamples {
  import opened Wrappers
  import opened Digits
  import opened DateFormats
  import opened TimeDateHelper

  lemma MarchSeventh()
    ensures IsStoredDate("2024", "03", "07")
  {
    TwoDigitValue("03");
    TwoDigitValue("07");
  }

  /** `2024-03-07` is shown as `03/07/2024` under the default template. */
  lemma FormatDateExample(template: string, y: string, m: string, d: string)
    requires template == DefaultDateFormat && y == "2024" && m == "03" && d == "07"
    ensures FormatDate(template, y + "-" + m + "-" + d) == m + "/" + d + "/" + y
  {
    MarchSeventh();
    FormatDateReorders(template, y, m, d);
    assert template[0] == 'm' && template[2] == '/' && template[3] == 'd';
  }

  lemma Year2024(y: string)
    requires y == "2024"
    ensures AllDigits(y) && Value(y) == 2024
  {
    var a, b := "20", "24";
    assert y == a + b;
    TwoDigitValue(a);
    TwoDigitValue(b);
    ValueAppend(a, b);
  }

  /** `2024-03-07 14:30:00` is shown as `03/07/2024, 14:30` under the default template. */
  lemma FormatDatetimeExample(template: string, y: string, m: string, d: string, hh: string, ii: string, ss: string)
    requires template == DefaultDateFormat && y == "2024" && m == "03" && d == "07"
    requires hh == "14" && ii == "30" && ss == "00"
    ensures FormatDatetime(template, DatetimeText(y, m, d, hh, ii, ss)) == m + "/" + d + "/" + y + ", " + hh + ":" + ii
  {
    MarchSeventh();
    HalfPastTwo(hh, ii, ss);
    assert template[0] == 'm' && template[2] == '/' && template[3] == 'd';
    FormatDatetimeReorders(template, y, m, d, hh, ii, ss);
  }

  lemma HalfPastTwo(hh: string, ii: string, ss: string)
    requires hh == "14" && ii == "30" && ss == "00"
    ensures IsStoredClock(hh, ii, ss)
  {
    TwoDigitValue(hh);
    TwoDigitValue(ii);
    TwoDigitValue(ss);
  }

  /** What parse_date returns, as its contract determines it. */
  ghost predicate IsParseDateResult(s: string, r: Option<Date>)
  {
    && (r.None? <==> NoPatternReads(s))
    && (r.Some? ==> exists k :: FirstReading(s, k) && r.value == DateOf(Parse(DatePatterns[k], s).value))
  }

  /** A day-first reading that is a calendar date is the result. */
  lemma ParseDateResultDayFirst(sep: char, x: string, z: string, y: string, r: Option<Date>)
    requires sep == '/' || sep == '-'
    requires IsInputShape(x, z, y) && IsCalendarDate(ReadDate('d', x, z, y))
    requires IsParseDateResult(x + [sep] + z + [sep] + y, r)
    ensures r == Some(ReadDate('d', x, z, y))
  {
    var s, k := x + [sep] + z + [sep] + y, if sep == '/' then 0 else 1;
    DayFirstWins(sep, x, z, y);
    var j :| FirstReading(s, j) && r.value == DateOf(Parse(DatePatterns[j], s).value);
    FirstReadingUnique(s, j, k);
  }

  /** `07/03/2024` is the 7th of March 2024. */
  lemma ParseDateExample(x: string, z: string, y: string, r: Option<Date>)
    requires x == "07" && z == "03" && y == "2024"
    requires IsParseDateResult(x + "/" + z + "/" + y, r)
    ensures r == Some(Date(2024, 3, 7))
  {
    Year2024(y);
    TwoDigitValue(x);
    TwoDigitValue(z);
    ParseDateResultDayFirst('/', x, z, y, r);
  }

  /** `03/04/2024` could be either order; the day-first reading wins: the 3rd of April. */
  lemma AmbiguousDateExample(x: string, z: string, y: string, r: Option<Date>)
    requires x == "03" && z == "04" && y == "2024"
    requires IsParseDateResult(x + "/" + z + "/" + y, r)
    ensures r == Some(Date(2024, 4, 3))
  {
    Year2024(y);
    TwoDigitValue(x);
    TwoDigitValue(z);
    ParseDateResultDayFirst('/', x, z, y, r);
  }

  /** A reading that is no calendar date day first falls through to the month-first pattern. */
  lemma ParseDateResultMonthFirst(sep: char, x: string, z: string, y: string, r: Option<Date>)
    requires sep == '/' || sep == '-'
    requires IsInputShape(x, z, y)
    requires !IsCalendarDate(ReadDate('d', x, z, y)) && IsCalendarDate(ReadDate('m', x, z, y))
    requires IsParseDateResult(x + [sep] + z + [sep] + y, r)
    ensures r == Some(ReadDate('m', x, z, y))
  {
    var s, k := x + [sep] + z + [sep] + y, if sep == '/' then 2 else 3;
    MonthFirstFallback(sep, x, z, y);
    var j :| FirstReading(s, j) && r.value == DateOf(Parse(DatePatterns[j], s).value);
    FirstReadingUnique(s, j, k);
  }

  /** `12/25/2024` has no 25th month, so the month-first pattern reads it: the 25th of December. */
  lemma MonthFirstExample(x: string, z: string, y: string, r: Option<Date>)
    requires x == "12" && z == "25" && y == "2024"
    requires IsParseDateResult(x + "/" + z + "/" + y, r)
    ensures r == Some(Date(2024, 12, 25))
  {
    Year2024(y);
    TwoDigitValue(x);
    TwoDigitValue(z);
    ParseDateResultMonthFirst('/', x, z, y, r);
  }

  /**
   * As PHP runs it, `12/25/2024` is taken by `d/m/Y` as day 12 of month 25
   * (which the library rolls over into January 2026); the month-first
   * pattern that would read it as 25 December is never tried.
   */
  lemma DecemberAsRun(x: string, z: string, y: string)
    requires x == "12" && z == "25" && y == "2024"
    ensures ParseDateAsRun(x + "/" + z + "/" + y) == Some(map['d' := 12] + (map['m' := 25] + map['Y' := 2024]))
  {
    Year2024(y);
    TwoDigitValue(x);
    TwoDigitValue(z);
    ParseDateAsRunInput('/', x, z, y);
  }

  /** `31-02-2024` is no date in either order, so parse_date gives null. */
  lemma RejectedDateExample(x: string, z: string, y: string, r: Option<Date>)
    requires x == "31" && z == "02" && y == "2024"
    requires IsParseDateResult(x + "-" + z + "-" + y, r)
    ensures r == None
  {
    NoThirtyFirstOfFebruary(x, z, y);
    NeitherOrderReads('-', x, z, y);
  }

  lemma NoThirtyFirstOfFebruary(x: string, z: string, y: string)
    requires x == "31" && z == "02" && y == "2024"
    ensures IsInputShape(x, z, y)
    ensures !IsCalendarDate(ReadDate('d', x, z, y)) && !IsCalendarDate(ReadDate('m', x, z, y))
  {
    Year2024(y);
    TwoDigitValue(x);
    TwoDigitValue(z);
    assert DaysInMonth(2024, 2) == 29;
  }

  /** `14:30` is shown as it is. */
  lemma FormatTimeAfternoon(hh: string, mm: string)
    requires hh == "14" && mm == "30"
    ensures FormatTime(hh + ":" + mm) == hh + ":" + mm
  {
    TwoDigitValue(hh);
    FormatTimeTwoDigits(hh, mm);
  }

  /** `00:15` is shown on the 12-hour clock as `12:15`. */
  lemma FormatTimeMidnight(hh: string, mm: string)
    requires hh == "00" && mm == "15"
    ensures FormatTime(hh + ":" + mm) == "12:" + mm
  {
    TwoDigitValue(hh);
    FormatTimeTwoDigits(hh, mm);
  }

  /** `14:30:00`: the seconds are dropped. */
  lemma FormatTimeWithSeconds(hh: string, mm: string, ss: string)
    requires hh == "14" && mm == "30" && ss == "00"
    ensures FormatTime(hh + ":" + mm + ":" + ss) == hh + ":" + mm
  {
    DigitsHaveNoColon(hh);
    DigitsHaveNoColon(mm);
    FormatTimeIgnoresRest(hh, mm, ss);
    FormatTimeAfternoon(hh, mm);
  }

  /** `1430` has no colon and gives the empty text. */
  lemma FormatTimeNoColon(stored: string)
    requires stored == "1430"
    ensures FormatTime(stored) == ""
  {
    DigitsHaveNoColon(stored);
    FormatTimeEmpty(stored);
  }

  /** `23:59` reads as 23 hours 59 minutes. */
  lemma ParseTimeLastMinute(hh: string, mm: string)
    requires hh == "23" && mm == "59"
    ensures ParseTime(hh + ":" + mm) == Some(Time(23, 59))
  {
    LastMinuteDigits(hh, mm);
    ParseTimeDigits(hh, mm);
  }

  lemma LastMinuteDigits(hh: string, mm: string)
    requires hh == "23" && mm == "59"
    ensures IsHourText(hh) && IsMinuteText(mm) && AllDigits(hh) && AllDigits(mm)
    ensures Value(hh) == 23 && Value(mm) == 59
  {
    TwoDigitValue(hh);
    TwoDigitValue(mm);
  }

  /** A one-digit hour is accepted: `7:05` is 7 hours 5 minutes. */
  lemma ParseTimeOneDigitHour(h: string, mm: string)
    requires h == "7" && mm == "05"
    ensures ParseTime(h + ":" + mm) == Some(Time(7, 5))
  {
    SevenOhFiveDigits(h, mm);
    ParseTimeDigits(h, mm);
  }

  lemma SevenOhFiveDigits(h: string, mm: string)
    requires h == "7" && mm == "05"
    ensures IsHourText(h) && IsMinuteText(mm) && AllDigits(h) && AllDigits(mm)
    ensures Value(h) == 7 && Value(mm) == 5
  {
    assert h[..0] == [];
    TwoDigitValue(mm);
  }

  /** `24:00` and `12:60` are out of the pattern's ranges and give null. */
  lemma ParseTimeOutOfRange(a: string, b: string)
    requires a == "24:00" && b == "12:60"
    ensures ParseTime(a) == None && ParseTime(b) == None
  {
    assert a[..|a| - 3] == "24" && b[|b| - 2..] == "60";
  }
}
