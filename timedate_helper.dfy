/**
 * The date and time helpers: lazily defined defaults, display formatting of
 * stored dates, date-times and times, and parsing of user input.
 *
 * The process-wide constants DEFAULT_DATE_FORMAT and DEFAULT_LOCALE_STR are
 * the fields of a Settings object; the helpers that read them are its
 * methods, the rest are functions of their input (with the display template
 * passed in where the helper reads it after initialising it).
 */
module TimeDateHelper {
  import opened Wrappers
  import opened Digits
  import opened Strings
  import opened Placeholders
  import opened DateFormats

  const DefaultDateFormat: string := "mm/dd/yyyy"
  const DefaultLocale: string := "en-US"

  /** The display templates the helpers are documented for. */
  predicate IsStandardTemplate(template: string)
  {
    template == "mm/dd/yyyy" || template == "dd/mm/yyyy" || template == "mm-dd-yyyy" || template == "dd-mm-yyyy"
  }

  /** The storage formats the formatting helpers read. */
  const StoredDate: string := "Y-m-d"
  const StoredDatetime: string := "Y-m-d H:i:s"

  /** The patterns `parse_date` tries, in the order it tries them. */
  const DatePatterns: seq<string> := ["d/m/Y", "d-m-Y", "m/d/Y", "m-d-Y"]

  /** A calendar date, as a parsed DateTime carries it. */
  datatype Date = Date(year: nat, month: nat, day: nat)

  /** A time of day, as a parsed DateTime carries it. */
  datatype Time = Time(hour: nat, minute: nat)

  class Settings {
    /** DEFAULT_DATE_FORMAT; None while it is not defined. */
    var dateFormat: Option<string>
    /** DEFAULT_LOCALE_STR; None while it is not defined. */
    var locale: Option<string>

    /** The process starts with whatever the host application defined before using the helpers. */
    constructor (hostDateFormat: Option<string>, hostLocale: Option<string>)
      ensures dateFormat == hostDateFormat && locale == hostLocale
    {
      dateFormat := hostDateFormat;
      locale := hostLocale;
    }

    /**
     * get_default_date_format: defines the display template as `mm/dd/yyyy`
     * unless it is already defined; a value defined earlier is kept, so a
     * second call changes nothing.
     */
    method InitDateFormat()
      modifies this`dateFormat
      ensures dateFormat.Some?
      ensures old(dateFormat).Some? ==> dateFormat == old(dateFormat)
      ensures old(dateFormat).None? ==> dateFormat == Some(DefaultDateFormat)
    {
      if dateFormat.None? {
        dateFormat := Some(DefaultDateFormat);
      }
    }

    /** get_default_locale_str: the same one-time definition for the locale, `en-US` by default. */
    method InitLocale()
      modifies this`locale
      ensures locale.Some?
      ensures old(locale).Some? ==> locale == old(locale)
      ensures old(locale).None? ==> locale == Some(DefaultLocale)
    {
      if locale.None? {
        locale := Some(DefaultLocale);
      }
    }

    /** format_date_str: initialises the template, then formats with it. */
    method FormatDateStr(stored: string) returns (r: string)
      modifies this`dateFormat
      ensures old(dateFormat).Some? ==> dateFormat == old(dateFormat)
      ensures old(dateFormat).None? ==> dateFormat == Some(DefaultDateFormat)
      ensures dateFormat.Some? && r == FormatDate(dateFormat.value, stored)
    {
      InitDateFormat();
      r := FormatDate(dateFormat.value, stored);
    }

    /** format_datetime_str: initialises the template, then formats with it. */
    method FormatDatetimeStr(stored: string) returns (r: string)
      modifies this`dateFormat
      ensures old(dateFormat).Some? ==> dateFormat == old(dateFormat)
      ensures old(dateFormat).None? ==> dateFormat == Some(DefaultDateFormat)
      ensures dateFormat.Some? && r == FormatDatetime(dateFormat.value, stored)
    {
      InitDateFormat();
      r := FormatDatetime(dateFormat.value, stored);
    }

    /**
     * parse_date: initialises the template and reads it, but the result is
     * the fixed-order search's, whatever the template is.
     */
    method ParseDateStr(input: string) returns (r: Option<Date>)
      modifies this`dateFormat
      ensures old(dateFormat).Some? ==> dateFormat == old(dateFormat)
      ensures old(dateFormat).None? ==> dateFormat == Some(DefaultDateFormat)
      ensures r.None? <==> NoPatternReads(input)
      ensures r.Some? ==> exists k :: FirstReading(input, k) && r.value == DateOf(Parse(DatePatterns[k], input).value)
    {
      InitDateFormat();
      var template := dateFormat.value;
      r := ParseDate(input);
    }

    /** parse_datetime: initialises the template and switches on it; every branch gives null. */
    method ParseDatetimeStr(input: string) returns (r: Option<Date>)
      modifies this`dateFormat
      ensures old(dateFormat).Some? ==> dateFormat == old(dateFormat)
      ensures old(dateFormat).None? ==> dateFormat == Some(DefaultDateFormat)
      ensures r == None
    {
      InitDateFormat();
      r := ParseDatetime(dateFormat.value, input);
    }
  }

  // ---------------------------------------------------------------------
  // Formatting stored dates and date-times

  predicate HasDate(f: Fields)
  {
    'Y' in f && 'm' in f && 'd' in f
  }

  /** The reading of the stored date has exactly the three date fields. */
  lemma StoredDateLetters()
    ensures Letters(StoredDate) == {'Y', 'm', 'd'}
  {
  }

  /** A digit string holds none of the template's token letters. */
  lemma DigitsAreTokenFree(s: string)
    requires AllDigits(s)
    ensures 'm' !in s && 'd' !in s && 'y' !in s && TokenFree(s)
  {
    forall c | c in s ensures IsDigit(c) {
      var i :| 0 <= i < |s| && s[i] == c;
    }
  }

  /**
   * What the display template becomes for a date: each token is replaced
   * by the date's field, two-digit month and day, four-digit year, and
   * every other template character is kept.
   */
  function DateText(template: string, f: Fields): string
    requires HasDate(f)
  {
    Substitute(template, Pad(f['m'], 2), Pad(f['d'], 2), Pad(f['Y'], 4))
  }

  /**
   * format_date_str with the given template: the stored `Y-m-d` text put in
   * the template, or the stored text itself when it does not read as a date.
   * The helper's three sequential replacements give the same text as one
   * simultaneous pass (the values are digits and cannot form a token).
   */
  function FormatDate(template: string, stored: string): (r: string)
    ensures Parse(StoredDate, stored).None? ==> r == stored
    ensures Parse(StoredDate, stored).Some? ==>
              HasDate(Parse(StoredDate, stored).value) && r == DateText(template, Parse(StoredDate, stored).value)
  {
    match Parse(StoredDate, stored)
    case None => stored
    case Some(f) =>
      StoredDateLetters();
      var day, month, year := Pad(f['d'], 2), Pad(f['m'], 2), Pad(f['Y'], 4);
      DigitsAreTokenFree(month);
      DigitsAreTokenFree(day);
      SequentialIsSimultaneous(template, month, day, year);
      ReplaceTokens(template, month, day, year)
  }

  /** A stored text that does not start with a digit is not a date and comes back as it is. */
  lemma FormatDateFallback(template: string, stored: string)
    requires stored == [] || !IsDigit(stored[0])
    ensures FormatDate(template, stored) == stored
  {
    assert LeadingDigits(stored, 4) == 0;
  }

  /**
   * A documented template is two two-letter tokens (month and day, in either
   * order) and the four-letter year, with one separator, `/` or `-`, between.
   */
  predicate IsTemplateShape(template: string, a: char, b: char, sep: char)
  {
    && ((a == 'm' && b == 'd') || (a == 'd' && b == 'm'))
    && (sep == '/' || sep == '-')
    && template == [a, a, sep, b, b, sep, 'y', 'y', 'y', 'y']
  }

  lemma StandardShape(template: string)
    requires IsStandardTemplate(template)
    ensures |template| == 10 && IsTemplateShape(template, template[0], template[3], template[2])
  {
  }

  /** The three values of a documented template, joined by its separator. */
  lemma {:induction false} ShapeText(template: string, a: char, b: char, sep: char, month: string, day: string, year: string)
    requires IsTemplateShape(template, a, b, sep)
    ensures Substitute(template, month, day, year)
         == (if a == 'm' then month else day) + [sep] + (if b == 'm' then month else day) + [sep] + year
  {
    var first, second := [a, a], [b, b];
    assert template == first + ([sep] + (second + ([sep] + "yyyy")));
    TwoTokensAndYear(first, second, sep, month, day, year);
    Regroup(if a == 'm' then month else day, [sep], if b == 'm' then month else day, [sep], year);
  }

  /**
   * For the documented templates a date is shown as its three fields, two
   * digits for month and day and four for the year, in the template's order
   * and with its separator.
   */
  lemma DateTextStandard(template: string, f: Fields)
    requires IsStandardTemplate(template)
    requires HasDate(f) && Fits(f)
    ensures var a, sep, b := template[0], template[2], template[3];
            var m, d, y := Pad(f['m'], 2), Pad(f['d'], 2), Pad(f['Y'], 4);
            && |m| == 2 && |d| == 2 && |y| == 4
            && DateText(template, f) == Pad(f[a], 2) + [sep] + Pad(f[b], 2) + [sep] + y
  {
    PadWidth(f['m'], 2);
    PadWidth(f['d'], 2);
    PadWidth(f['Y'], 4);
    DateTextShape(template, f);
  }

  lemma DateTextShape(template: string, f: Fields)
    requires IsStandardTemplate(template) && HasDate(f)
    ensures |template| == 10 && IsTemplateShape(template, template[0], template[3], template[2])
    ensures var a, sep, b := template[0], template[2], template[3];
            DateText(template, f) == Pad(f[a], 2) + [sep] + Pad(f[b], 2) + [sep] + Pad(f['Y'], 4)
  {
    StandardShape(template);
    ShapeDateText(template, template[0], template[3], template[2], f);
  }

  /**
   * A well-formed stored date: four year digits, two month digits and two day
   * digits, a real calendar date.
   */
  predicate IsStoredDate(y: string, m: string, d: string)
  {
    && |y| == 4 && |m| == 2 && |d| == 2 && AllDigits(y) && AllDigits(m) && AllDigits(d)
    && 1 <= Value(m) <= 12 && 1 <= Value(d) <= DaysInMonth(Value(y), Value(m))
  }

  /** The fields of a date, as a reading of `Y-m-d` holds them. */
  function DateFields(year: nat, month: nat, day: nat): (f: Fields)
    ensures f.Keys == {'Y', 'm', 'd'} && f['Y'] == year && f['m'] == month && f['d'] == day
  {
    map['Y' := year] + (map['m' := month] + map['d' := day])
  }

  /** Such a date, joined by dashes, scans under `Y-m-d` (passed in as format) as its three numbers ... */
  lemma StoredDateScan(format: string, y: string, m: string, d: string)
    requires format == StoredDate
    requires |y| == 4 && |m| == 2 && |d| == 2 && AllDigits(y) && AllDigits(m) && AllDigits(d)
    ensures Scan(format, y + "-" + m + "-" + d) == Some(DateFields(Value(y), Value(m), Value(d)))
  {
    var rest := m + ("-" + d);
    var fields := map['m' := Value(m)] + map['d' := Value(d)];
    assert Scan(format[2..], rest) == Some(fields) by {
      var f1 := format[2..];
      assert f1 == "m-d" && f1[2..] == "d";
      ScanLast(f1[2..], d);
      ScanField(f1, m, '-', d);
    }
    YearThenRestScan(format, y, rest, fields);
    Regroup(y, "-", m, "-", d);
  }

  /** ... and reads as that date. */
  lemma StoredDateReading(y: string, m: string, d: string)
    requires IsStoredDate(y, m, d)
    ensures Parse(StoredDate, y + "-" + m + "-" + d) == Some(DateFields(Value(y), Value(m), Value(d)))
  {
    StoredDateScan(StoredDate, y, m, d);
    DateFieldsInRange(Value(y), Value(m), Value(d));
  }

  lemma DateFieldsInRange(year: nat, month: nat, day: nat)
    requires 1 <= month <= 12 && 1 <= day <= DaysInMonth(year, month)
    ensures InRange(DateFields(year, month, day))
  {
  }

  /**
   * format_date_str rearranges a well-formed stored date: the template's
   * tokens are filled with the stored digits as they are, in the
   * template's order and with its separator.
   */
  lemma FormatDateReorders(template: string, y: string, m: string, d: string)
    requires IsStandardTemplate(template) && IsStoredDate(y, m, d)
    ensures FormatDate(template, y + "-" + m + "-" + d)
         == (if template[0] == 'm' then m else d) + [template[2]] + (if template[3] == 'm' then m else d) + [template[2]] + y
  {
    StoredDateReading(y, m, d);
    DateTextReorders(template, y, m, d);
  }

  lemma DateTextReorders(template: string, y: string, m: string, d: string)
    requires IsStandardTemplate(template) && IsStoredDate(y, m, d)
    ensures DateText(template, DateFields(Value(y), Value(m), Value(d)))
         == (if template[0] == 'm' then m else d) + [template[2]] + (if template[3] == 'm' then m else d) + [template[2]] + y
  {
    var f := DateFields(Value(y), Value(m), Value(d));
    DateTextShape(template, f);
    PadOfDigits(y);
    PadOfDigits(m);
    PadOfDigits(d);
    assert Pad(f[template[0]], 2) == if template[0] == 'm' then m else d;
    assert Pad(f[template[3]], 2) == if template[3] == 'm' then m else d;
  }

  /** The DateTime::format pattern a display template stands for: `mm`, `dd`, `yyyy` read as `m`, `d`, `Y`. */
  function PatternText(template: string): string
  {
    Substitute(template, "m", "d", "Y")
  }

  /**
   * The rewrite format_datetime_str makes, with its sequential
   * `str_replace`: it gives the template's pattern (the single letters
   * cannot form a token).
   */
  function DatePattern(template: string): (p: string)
    ensures p == PatternText(template)
  {
    SequentialIsSimultaneous(template, "m", "d", "Y");
    ReplaceTokens(template, "m", "d", "Y")
  }

  /** The pattern of a documented template: its two token letters and `Y`, with its separator (`m/d/Y` for `mm/dd/yyyy`). */
  lemma PatternTextStandard(template: string)
    requires IsStandardTemplate(template)
    ensures |template| == 10
    ensures PatternText(template) == [template[0], template[2], template[3], template[2], 'Y']
  {
    StandardShape(template);
    ShapePattern(template, template[0], template[3], template[2]);
  }

  predicate HasAllFields(f: Fields)
  {
    forall c :: IsFormatLetter(c) ==> c in f
  }

  lemma StoredDatetimeLetters()
    ensures Letters(StoredDatetime) == {'Y', 'm', 'd', 'H', 'i', 's'}
  {
  }

  /** A reading of the stored date-time format has every field. */
  lemma DatetimeFields(stored: string)
    requires Parse(StoredDatetime, stored).Some?
    ensures HasAllFields(Parse(StoredDatetime, stored).value)
  {
    StoredDatetimeLetters();
  }

  lemma CoversAll(f: Fields, format: string)
    requires HasAllFields(f)
    ensures Covers(f, format)
  {
  }

  /** A time of day in 24-hour `HH:MM` form (`sprintf('%02d:%02d')`, `format('H:i')`). */
  function ClockText(t: Time): string
  {
    Pad(t.hour, 2) + ":" + Pad(t.minute, 2)
  }

  /** `format('H:i')` shows the hour and minute fields as `HH:MM`. */
  lemma ClockFormat(f: Fields)
    requires 'H' in f && 'i' in f
    ensures Covers(f, "H:i") && Format("H:i", f) == ClockText(Time(f['H'], f['i']))
  {
    var p, p1, p2 := "H:i", ":i", "i";
    assert p[0] == 'H' && p[1..] == p1 && p1[0] == ':' && p1[1..] == p2 && p2[0] == 'i' && p2[1..] == [];
    FormatCons(p, f);
    FormatCons(p1, f);
    FormatCons(p2, f);
    var h, m := Pad(f['H'], 2), Pad(f['i'], 2);
    assert Format(p2, f) == m + [] == m;
    ConcatAssoc(h, ":", m);
  }

  /**
   * format_datetime_str with the given template: the date part rendered
   * with the rewritten template, a comma and a space, and the time as
   * `HH:MM` (the seconds are read but not shown); the stored text itself
   * when it does not read as a date-time.
   */
  function FormatDatetime(template: string, stored: string): (r: string)
    ensures Parse(StoredDatetime, stored).None? ==> r == stored
    ensures Parse(StoredDatetime, stored).Some? ==>
              var f := Parse(StoredDatetime, stored).value;
              && HasAllFields(f)
              && r == Format(PatternText(template), f) + ", " + ClockText(Time(f['H'], f['i']))
  {
    match Parse(StoredDatetime, stored)
    case None => stored
    case Some(f) =>
      DatetimeFields(stored);
      var pattern := DatePattern(template);
      CoversAll(f, pattern);
      var date := Format(pattern, f);
      ClockFormat(f);
      var time := Format("H:i", f);
      date + ", " + time
  }

  /** The same fallback for date-times. */
  lemma FormatDatetimeFallback(template: string, stored: string)
    requires stored == [] || !IsDigit(stored[0])
    ensures FormatDatetime(template, stored) == stored
  {
    assert LeadingDigits(stored, 4) == 0;
  }

  /**
   * With a documented template the date part of a formatted date-time is
   * what format_date_str shows for the same fields.
   */
  lemma FormatDatetimeStandard(template: string, stored: string)
    requires IsStandardTemplate(template)
    requires Parse(StoredDatetime, stored).Some?
    ensures var f := Parse(StoredDatetime, stored).value;
            && HasDate(f)
            && FormatDatetime(template, stored) == DateText(template, f) + ", " + ClockText(Time(f['H'], f['i']))
  {
    var f := Parse(StoredDatetime, stored).value;
    DatePatternDates(template, f);
  }

  /** The rewritten pattern renders a date as the template itself would show it. */
  lemma DatePatternDates(template: string, f: Fields)
    requires IsStandardTemplate(template) && HasAllFields(f)
    ensures HasDate(f) && Covers(f, PatternText(template))
    ensures Format(PatternText(template), f) == DateText(template, f)
  {
    StandardShape(template);
    ShapePatternDates(template, template[0], template[3], template[2], f);
  }

  lemma ShapePatternDates(template: string, a: char, b: char, sep: char, f: Fields)
    requires IsTemplateShape(template, a, b, sep) && HasAllFields(f)
    ensures HasDate(f) && Covers(f, PatternText(template))
    ensures Format(PatternText(template), f) == DateText(template, f)
  {
    ShapePattern(template, a, b, sep);
    ThreeFieldFormat(a, b, sep, f);
    ShapeDateText(template, a, b, sep, f);
  }

  lemma ShapePattern(template: string, a: char, b: char, sep: char)
    requires IsTemplateShape(template, a, b, sep)
    ensures PatternText(template) == [a, sep, b, sep, 'Y']
  {
    ShapeText(template, a, b, sep, "m", "d", "Y");
    assert (if a == 'm' then "m" else "d") == [a];
    assert (if b == 'm' then "m" else "d") == [b];
  }

  lemma ShapeDateText(template: string, a: char, b: char, sep: char, f: Fields)
    requires IsTemplateShape(template, a, b, sep) && HasDate(f)
    ensures DateText(template, f) == Pad(f[a], 2) + [sep] + Pad(f[b], 2) + [sep] + Pad(f['Y'], 4)
  {
    var month, day, year := Pad(f['m'], 2), Pad(f['d'], 2), Pad(f['Y'], 4);
    ShapeText(template, a, b, sep, month, day, year);
    assert (if a == 'm' then month else day) == Pad(f[a], 2);
    assert (if b == 'm' then month else day) == Pad(f[b], 2);
  }

  /** Formatting a two-fields-then-year pattern, regrouped as the template lemmas state it. */
  lemma ThreeFieldFormat(a: char, b: char, sep: char, f: Fields)
    requires (a == 'm' && b == 'd') || (a == 'd' && b == 'm')
    requires !IsFormatLetter(sep) && HasAllFields(f)
    ensures Covers(f, [a, sep, b, sep, 'Y'])
    ensures Format([a, sep, b, sep, 'Y'], f) == Pad(f[a], 2) + [sep] + Pad(f[b], 2) + [sep] + Pad(f['Y'], 4)
  {
    var p0, p1, p2 := [a, sep, b, sep, 'Y'], [sep, b, sep, 'Y'], [b, sep, 'Y'];
    var p3, p4 := [sep, 'Y'], ['Y'];
    assert Covers(f, p0);
    assert p0[0] == a && p0[1..] == p1 && p1[0] == sep && p1[1..] == p2 && p2[0] == b && p2[1..] == p3;
    assert p3[0] == sep && p3[1..] == p4 && p4[0] == 'Y' && p4[1..] == [];
    FormatCons(p0, f);
    FormatCons(p1, f);
    FormatCons(p2, f);
    FormatCons(p3, f);
    FormatCons(p4, f);
    var x, y, z := Pad(f[a], 2), Pad(f[b], 2), Pad(f['Y'], 4);
    assert Format(p4, f) == z + [] == z;
    Regroup(x, [sep], y, [sep], z);
  }

  lemma Regroup(a: string, b: string, c: string, d: string, e: string)
    ensures a + (b + (c + (d + e))) == a + b + c + d + e
  {
    ConcatAssoc(c, d, e);
    ConcatAssoc(b, c, d + e);
    ConcatAssoc(b + c, d, e);
    ConcatAssoc(a, b + c + d, e);
    ConcatAssoc(a, b + c, d);
    ConcatAssoc(a, b, c);
  }

  /** Two digits each for hour, minute and second, a real time of day. */
  predicate IsStoredClock(hh: string, ii: string, ss: string)
  {
    && |hh| == 2 && |ii| == 2 && |ss| == 2 && AllDigits(hh) && AllDigits(ii) && AllDigits(ss)
    && Value(hh) <= 23 && Value(ii) <= 59 && Value(ss) <= 59
  }

  /** The stored `Y-m-d H:i:s` text of its six digit fields. */
  function DatetimeText(y: string, m: string, d: string, hh: string, ii: string, ss: string): string
  {
    y + ("-" + (m + ("-" + (d + (" " + (hh + (":" + (ii + (":" + ss)))))))))
  }

  /** The fields of a date-time, as a reading of `Y-m-d H:i:s` holds them. */
  function DatetimeFieldsOf(year: nat, month: nat, day: nat, hour: nat, minute: nat, second: nat): (f: Fields)
    ensures f.Keys == {'Y', 'm', 'd', 'H', 'i', 's'}
    ensures f['Y'] == year && f['m'] == month && f['d'] == day
    ensures f['H'] == hour && f['i'] == minute && f['s'] == second
  {
    map['Y' := year] + (map['m' := month] + (map['d' := day] + (map['H' := hour] + (map['i' := minute] + map['s' := second]))))
  }

  /**
   * A well-formed stored date-time scans under `Y-m-d H:i:s` (passed in as
   * format) as its six numbers ...
   */
  lemma StoredDatetimeScan(format: string, y: string, m: string, d: string, hh: string, ii: string, ss: string)
    requires format == StoredDatetime
    requires |y| == 4 && |m| == 2 && |d| == 2 && AllDigits(y) && AllDigits(m) && AllDigits(d)
    requires |hh| == 2 && |ii| == 2 && |ss| == 2 && AllDigits(hh) && AllDigits(ii) && AllDigits(ss)
    ensures Scan(format, DatetimeText(y, m, d, hh, ii, ss))
         == Some(map['Y' := Value(y)] + (map['m' := Value(m)] + (map['d' := Value(d)]
                 + (map['H' := Value(hh)] + (map['i' := Value(ii)] + map['s' := Value(ss)])))))
  {
    var rest := m + ("-" + (d + (" " + (hh + (":" + (ii + (":" + ss)))))));
    var fields := map['m' := Value(m)] + (map['d' := Value(d)] + (map['H' := Value(hh)] + (map['i' := Value(ii)] + map['s' := Value(ss)])));
    assert Scan(format[2..], rest) == Some(fields) by {
      assert format[2..] == "m-d H:i:s";
      MonthDayClockScan(format[2..], m, d, hh, ii, ss);
    }
    YearThenRestScan(format, y, rest, fields);
  }

  /** The year in front of the rest of a stored date-time. */
  lemma YearThenRestScan(format: string, y: string, rest: string, fields: Fields)
    requires |format| >= 2 && format[0] == 'Y' && format[1] == '-'
    requires |y| == 4 && AllDigits(y) && Scan(format[2..], rest) == Some(fields)
    ensures Scan(format, y + ("-" + rest)) == Some(map['Y' := Value(y)] + fields)
  {
    ScanField(format, y, '-', rest);
  }

  /** The month, day and clock of a stored date-time, under `m-d H:i:s`. */
  lemma MonthDayClockScan(format: string, m: string, d: string, hh: string, ii: string, ss: string)
    requires format == "m-d H:i:s"
    requires |m| == 2 && |d| == 2 && AllDigits(m) && AllDigits(d)
    requires |hh| == 2 && |ii| == 2 && |ss| == 2 && AllDigits(hh) && AllDigits(ii) && AllDigits(ss)
    ensures Scan(format, m + ("-" + (d + (" " + (hh + (":" + (ii + (":" + ss))))))))
         == Some(map['m' := Value(m)] + (map['d' := Value(d)] + (map['H' := Value(hh)] + (map['i' := Value(ii)] + map['s' := Value(ss)]))))
  {
    var f1 := format[2..];
    assert f1 == "d H:i:s" && format[0] == 'm' && format[1] == '-';
    DayClockScan(f1, d, hh, ii, ss);
    ScanField(format, m, '-', d + (" " + (hh + (":" + (ii + (":" + ss))))));
  }

  /** The day and the clock of a stored date-time, under `d H:i:s`. */
  lemma DayClockScan(format: string, d: string, hh: string, ii: string, ss: string)
    requires format == "d H:i:s"
    requires |d| == 2 && AllDigits(d) && |hh| == 2 && |ii| == 2 && |ss| == 2 && AllDigits(hh) && AllDigits(ii) && AllDigits(ss)
    ensures Scan(format, d + (" " + (hh + (":" + (ii + (":" + ss))))))
         == Some(map['d' := Value(d)] + (map['H' := Value(hh)] + (map['i' := Value(ii)] + map['s' := Value(ss)])))
  {
    var f1 := format[2..];
    assert f1 == "H:i:s" && format[0] == 'd' && format[1] == ' ';
    StoredClockScan(f1, hh, ii, ss);
    ScanField(format, d, ' ', hh + (":" + (ii + (":" + ss))));
  }

  /** The clock part of a stored date-time, under `H:i:s`, scans as its three numbers. */
  lemma StoredClockScan(format: string, hh: string, ii: string, ss: string)
    requires format == "H:i:s"
    requires |hh| == 2 && |ii| == 2 && |ss| == 2 && AllDigits(hh) && AllDigits(ii) && AllDigits(ss)
    ensures Scan(format, hh + (":" + (ii + (":" + ss))))
         == Some(map['H' := Value(hh)] + (map['i' := Value(ii)] + map['s' := Value(ss)]))
  {
    var f1, f2 := format[2..], format[4..];
    assert f1[2..] == f2;
    ScanLast(f2, ss);
    ScanField(f1, ii, ':', ss);
    ScanField(format, hh, ':', ii + (":" + ss));
  }

  /** ... and reads as that date-time. */
  lemma StoredDatetimeReading(format: string, y: string, m: string, d: string, hh: string, ii: string, ss: string)
    requires format == StoredDatetime
    requires IsStoredDate(y, m, d) && IsStoredClock(hh, ii, ss)
    ensures Parse(format, DatetimeText(y, m, d, hh, ii, ss))
         == Some(DatetimeFieldsOf(Value(y), Value(m), Value(d), Value(hh), Value(ii), Value(ss)))
  {
    StoredDatetimeScan(format, y, m, d, hh, ii, ss);
    assert InRange(DatetimeFieldsOf(Value(y), Value(m), Value(d), Value(hh), Value(ii), Value(ss)));
  }

  /**
   * format_datetime_str on a well-formed stored date-time: the date digits
   * in the template's order and separator, a comma and a space, and the
   * stored hour and minute; the seconds are dropped.
   */
  lemma FormatDatetimeReorders(template: string, y: string, m: string, d: string, hh: string, ii: string, ss: string)
    requires IsStandardTemplate(template) && IsStoredDate(y, m, d) && IsStoredClock(hh, ii, ss)
    ensures FormatDatetime(template, DatetimeText(y, m, d, hh, ii, ss))
         == (if template[0] == 'm' then m else d) + [template[2]] + (if template[3] == 'm' then m else d) + [template[2]] + y
            + ", " + hh + ":" + ii
  {
    StoredDatetimeReading(StoredDatetime, y, m, d, hh, ii, ss);
    FormatDatetimeOfFields(template, DatetimeText(y, m, d, hh, ii, ss), Value(y), Value(m), Value(d), Value(hh), Value(ii), Value(ss));
    DateTextReorders(template, y, m, d);
    ClockOfDigits(hh, ii);
    var date := (if template[0] == 'm' then m else d) + [template[2]] + (if template[3] == 'm' then m else d) + [template[2]] + y;
    ConcatAssoc(date + ", ", hh + ":", ii);
    ConcatAssoc(date + ", ", hh, ":");
  }

  /** A date-time read as given fields is shown as their date text and their clock. */
  lemma FormatDatetimeOfFields(template: string, stored: string, year: nat, month: nat, day: nat, hour: nat, minute: nat, second: nat)
    requires IsStandardTemplate(template)
    requires Parse(StoredDatetime, stored) == Some(DatetimeFieldsOf(year, month, day, hour, minute, second))
    ensures FormatDatetime(template, stored) == DateText(template, DateFields(year, month, day)) + ", " + ClockText(Time(hour, minute))
  {
    var f := DatetimeFieldsOf(year, month, day, hour, minute, second);
    FormatDatetimeStandard(template, stored);
    assert DateText(template, f) == DateText(template, DateFields(year, month, day));
  }

  // ---------------------------------------------------------------------
  // Formatting stored times

  /** The hour `date('h')` shows: the 12-hour clock, 12 for midnight and noon. */
  function TwelveHour(hour: nat): (h: nat)
    ensures 1 <= h <= 12
    ensures h % 12 == hour % 12
    ensures 1 <= hour <= 12 ==> h == hour
  {
    (hour + 11) % 12 + 1
  }

  /**
   * format_time_str: the `:`-separated fields are split off and the first
   * two cast to integers; an hour above 12 is shown as it is in `HH:MM`,
   * any other on the 12-hour clock, and with no second field the result is
   * empty.
   */
  function FormatTime(stored: string): (r: string)
    ensures r == "" <==> ':' !in stored
  {
    SplitHasSecondField(stored, ':');
    var parts := Split(stored, ':');
    var hours := IntCast(parts[0]);
    var minutes := if |parts| >= 2 then IntCast(parts[1]) else 0;
    if |parts| < 2 then ""
    else if hours > 12 then ClockText(Time(hours, minutes))
    else ClockText(Time(TwelveHour(hours), minutes))
  }

  /** format_time_str, step by step as the helper assigns its result. */
  method FormatTimeStr(stored: string) returns (formatted: string)
    ensures formatted == FormatTime(stored)
    ensures formatted == "" <==> ':' !in stored
  {
    var parts := Split(stored, ':');
    var hours := IntCast(parts[0]);
    var minutes := 0;
    if |parts| >= 2 {
      minutes := IntCast(parts[1]);
    }
    formatted := "";
    if |parts| >= 2 {
      if hours > 12 {
        formatted := ClockText(Time(hours, minutes));
      } else {
        formatted := ClockText(Time(TwelveHour(hours), minutes));
      }
    }
    FormatTimeEmpty(stored);
  }

  /** The result is empty exactly when the text has no `:`. */
  lemma FormatTimeEmpty(stored: string)
    ensures FormatTime(stored) == "" <==> ':' !in stored
  {
    SplitHasSecondField(stored, ':');
  }

  /** A field without a colon is split off as it is. */
  lemma SplitSingle(s: string)
    requires ':' !in s
    ensures Split(s, ':') == [s]
  {
    var q := Split(s, ':');
    SplitHasSecondField(s, ':');
    assert Join(q, ':') == q[0];
  }

  /** The hour as the helper shows it. */
  function ShownHour(hours: nat): nat
  {
    if hours > 12 then hours else TwelveHour(hours)
  }

  /** Two colon-free fields: the result shows their casts. */
  lemma FormatTimeFields(a: string, b: string)
    requires ':' !in a && ':' !in b
    ensures FormatTime(a + ":" + b) == ClockText(Time(ShownHour(IntCast(a)), IntCast(b)))
  {
    SplitFirstField(a, ':', b);
    SplitSingle(b);
    assert a + ":" + b == a + [':'] + b;
  }

  /** Only the first two fields count: whatever follows the second `:` is ignored. */
  lemma FormatTimeFirstTwoFields(stored: string)
    requires |Split(stored, ':')| >= 2
    ensures var parts := Split(stored, ':');
            FormatTime(stored) == FormatTime(parts[0] + ":" + parts[1])
  {
    var parts := Split(stored, ':');
    FormatTimeFields(parts[0], parts[1]);
  }

  /** A seconds field (or anything after a second `:`) does not change the result. */
  lemma FormatTimeIgnoresRest(a: string, b: string, rest: string)
    requires ':' !in a && ':' !in b
    ensures FormatTime(a + ":" + b + ":" + rest) == FormatTime(a + ":" + b)
  {
    SplitFirstField(b, ':', rest);
    SplitFirstField(a, ':', b + [':'] + rest);
    assert a + ":" + b + ":" + rest == a + [':'] + (b + [':'] + rest);
    FormatTimeFields(a, b);
  }

  lemma DigitsHaveNoColon(s: string)
    requires AllDigits(s)
    ensures ':' !in s
  {
    assert forall i :: 0 <= i < |s| ==> s[i] != ':';
  }

  lemma PadTwelve()
    ensures Pad(12, 2) == "12"
  {
  }

  lemma IntCastDigits(s: string)
    requires AllDigits(s)
    ensures IntCast(s) == Value(s)
  {
    assert s + [] == s;
    IntCastOfRun(s, []);
  }

  /** Two digit fields: the result shows the shown hour and the minute, two digits each. */
  lemma FormatTimeDigitFields(hh: string, mm: string)
    requires AllDigits(hh) && AllDigits(mm)
    ensures FormatTime(hh + ":" + mm) == ClockText(Time(ShownHour(Value(hh)), Value(mm)))
  {
    DigitsHaveNoColon(hh);
    DigitsHaveNoColon(mm);
    FormatTimeFields(hh, mm);
    IntCastDigits(hh);
    IntCastDigits(mm);
  }

  /**
   * A two-digit hour and minute come back as they are, except midnight's
   * hour 00, which the 12-hour clock shows as 12; so `14:30` gives `14:30`
   * and `09:05` gives `09:05`.
   */
  lemma FormatTimeTwoDigits(hh: string, mm: string)
    requires |hh| == 2 && |mm| == 2 && AllDigits(hh) && AllDigits(mm)
    ensures Value(hh) >= 1 ==> FormatTime(hh + ":" + mm) == hh + ":" + mm
    ensures Value(hh) == 0 ==> FormatTime(hh + ":" + mm) == "12:" + mm
  {
    FormatTimeDigitFields(hh, mm);
    ShownHourOf(Value(hh));
    if Value(hh) >= 1 {
      ClockOfDigits(hh, mm);
    } else {
      ClockAtTwelve(mm);
    }
  }

  /** The shown hour keeps 1 to 23 and turns 0 into 12. */
  lemma ShownHourOf(v: nat)
    ensures v >= 1 ==> ShownHour(v) == v
    ensures v == 0 ==> ShownHour(v) == 12
  {
  }

  lemma ClockAtTwelve(mm: string)
    requires |mm| == 2 && AllDigits(mm)
    ensures ClockText(Time(12, Value(mm))) == "12:" + mm
  {
    PadTwelve();
    PadOfDigits(mm);
    assert "12" + ":" == "12:";
  }

  /** Two-digit fields are shown as they are. */
  lemma ClockOfDigits(hh: string, mm: string)
    requires |hh| == 2 && |mm| == 2 && AllDigits(hh) && AllDigits(mm)
    ensures ClockText(Time(Value(hh), Value(mm))) == hh + ":" + mm
  {
    PadOfDigits(hh);
    PadOfDigits(mm);
  }

  // ---------------------------------------------------------------------
  // Parsing user input

  /** The reading pattern k succeeds and every earlier one fails. */
  predicate FirstReading(input: string, k: int)
  {
    && 0 <= k < |DatePatterns|
    && Parse(DatePatterns[k], input).Some?
    && forall j :: 0 <= j < k ==> Parse(DatePatterns[j], input).None?
  }

  predicate NoPatternReads(input: string)
  {
    forall k :: 0 <= k < |DatePatterns| ==> Parse(DatePatterns[k], input).None?
  }

  function DateOf(f: Fields): Date
  {
    if HasDate(f) then Date(f['Y'], f['m'], f['d']) else Date(0, 0, 0)
  }

  /** Every date pattern reads a day, a month and a year. */
  lemma DatePatternLetters(k: nat)
    requires k < |DatePatterns|
    ensures Letters(DatePatterns[k]) == {'Y', 'm', 'd'}
  {
  }

  /**
   * parse_date's loop: the patterns are tried in order and the first that
   * reads the input gives the date; null when none does.
   */
  method ParseDate(input: string) returns (r: Option<Date>)
    ensures r.None? <==> NoPatternReads(input)
    ensures r.Some? ==> exists k :: FirstReading(input, k) && r.value == DateOf(Parse(DatePatterns[k], input).value)
  {
    var i := 0;
    while i < |DatePatterns|
      invariant 0 <= i <= |DatePatterns|
      invariant forall j :: 0 <= j < i ==> Parse(DatePatterns[j], input).None?
    {
      var reading := Parse(DatePatterns[i], input);
      if reading.Some? {
        assert FirstReading(input, i);
        return Some(DateOf(reading.value));
      }
      i := i + 1;
    }
    return None;
  }

  /** At most one pattern is the first to read an input, so parse_date's result is determined. */
  lemma FirstReadingUnique(input: string, j: int, k: int)
    requires FirstReading(input, j) && FirstReading(input, k)
    ensures j == k
  {
  }

  /**
   * A date typed as two numbers and a four-digit year, with one separator,
   * scans under the pattern of that order and separator.
   */
  lemma InputDateScan(p: char, q: char, sep: char, x: string, z: string, y: string)
    requires (p == 'd' && q == 'm') || (p == 'm' && q == 'd')
    requires sep == '/' || sep == '-'
    requires 1 <= |x| <= 2 && 1 <= |z| <= 2 && |y| == 4 && AllDigits(x) && AllDigits(z) && AllDigits(y)
    ensures Scan([p, sep, q, sep, 'Y'], x + [sep] + z + [sep] + y)
         == Some(map[p := Value(x)] + (map[q := Value(z)] + map['Y' := Value(y)]))
  {
    var f0, f1 := [p, sep, q, sep, 'Y'], [q, sep, 'Y'];
    assert f0[2..] == f1;
    InputDateTailScan(q, sep, z, y);
    ScanField(f0, x, sep, z + ([sep] + y));
    Regroup(x, [sep], z, [sep], y);
  }

  lemma InputDateTailScan(q: char, sep: char, z: string, y: string)
    requires q == 'd' || q == 'm'
    requires sep == '/' || sep == '-'
    requires 1 <= |z| <= 2 && |y| == 4 && AllDigits(z) && AllDigits(y)
    ensures Scan([q, sep, 'Y'], z + ([sep] + y)) == Some(map[q := Value(z)] + map['Y' := Value(y)])
  {
    var f1, f2 := [q, sep, 'Y'], ['Y'];
    assert f1[2..] == f2;
    ScanLast(f2, y);
    ScanField(f1, z, sep, y);
  }

  /** A date as typed: one or two digits, the separator, one or two digits, the separator, four year digits. */
  predicate IsInputShape(x: string, z: string, y: string)
  {
    1 <= |x| <= 2 && 1 <= |z| <= 2 && |y| == 4 && AllDigits(x) && AllDigits(z) && AllDigits(y)
  }

  /** The date the numbers of a typed date stand for, day first (`p == 'd'`) or month first. */
  function ReadDate(p: char, x: string, z: string, y: string): Date
    requires IsInputShape(x, z, y)
  {
    if p == 'd' then Date(Value(y), Value(z), Value(x)) else Date(Value(y), Value(x), Value(z))
  }

  predicate IsCalendarDate(d: Date)
  {
    1 <= d.month <= 12 && 1 <= d.day <= DaysInMonth(d.year, d.month)
  }

  /** A pattern of the typed date's order and separator reads it exactly when it is a calendar date. */
  lemma InputDateParse(p: char, q: char, sep: char, x: string, z: string, y: string)
    requires (p == 'd' && q == 'm') || (p == 'm' && q == 'd')
    requires sep == '/' || sep == '-'
    requires IsInputShape(x, z, y)
    ensures var r := Parse([p, sep, q, sep, 'Y'], x + [sep] + z + [sep] + y);
            && (r.Some? <==> IsCalendarDate(ReadDate(p, x, z, y)))
            && (r.Some? ==> DateOf(r.value) == ReadDate(p, x, z, y))
  {
    InputDateScan(p, q, sep, x, z, y);
    InputFields(p, q, Value(x), Value(z), Value(y));
  }

  /** The fields a typed date scans to, read as a date. */
  lemma InputFields(p: char, q: char, a: nat, b: nat, year: nat)
    requires (p == 'd' && q == 'm') || (p == 'm' && q == 'd')
    ensures var f, d := map[p := a] + (map[q := b] + map['Y' := year]),
                        if p == 'd' then Date(year, b, a) else Date(year, a, b);
            && (InRange(f) <==> IsCalendarDate(d))
            && DateOf(f) == d
  {
    var f := map[p := a] + (map[q := b] + map['Y' := year]);
    assert f.Keys == {p, q, 'Y'};
    if p == 'd' {
      assert f['d'] == a && f['m'] == b && f['Y'] == year;
    } else {
      assert f['m'] == a && f['d'] == b && f['Y'] == year;
    }
  }

  /** A pattern with the other separator fails at the first separator. */
  lemma InputDateWrongSeparator(p: char, q: char, sep: char, other: char, x: string, z: string, y: string)
    requires (p == 'd' && q == 'm') || (p == 'm' && q == 'd')
    requires (sep == '/' && other == '-') || (sep == '-' && other == '/')
    requires IsInputShape(x, z, y)
    ensures Scan([p, sep, q, sep, 'Y'], x + [other] + z + [other] + y) == None
    ensures Parse([p, sep, q, sep, 'Y'], x + [other] + z + [other] + y) == None
  {
    var rest := z + [other] + y;
    assert x + [other] + z + [other] + y == x + ([other] + rest);
    ScanFieldMismatch([p, sep, q, sep, 'Y'], x, other, rest);
  }

  /** Each of parse_date's patterns on a typed date. */
  lemma PatternOnInput(k: nat, sep: char, x: string, z: string, y: string)
    requires k < |DatePatterns|
    requires sep == '/' || sep == '-'
    requires IsInputShape(x, z, y)
    ensures var pattern, s := DatePatterns[k], x + [sep] + z + [sep] + y;
            var r := Parse(pattern, s);
            && (r.Some? <==> pattern[1] == sep && IsCalendarDate(ReadDate(pattern[0], x, z, y)))
            && (r.Some? ==> DateOf(r.value) == ReadDate(pattern[0], x, z, y))
  {
    var pattern := DatePatterns[k];
    var p, q, psep := pattern[0], pattern[2], pattern[1];
    assert pattern == [p, psep, q, psep, 'Y'];
    if psep == sep {
      InputDateParse(p, q, sep, x, z, y);
    } else {
      InputDateWrongSeparator(p, q, psep, sep, x, z, y);
    }
  }

  /**
   * parse_date on a typed date: the day-first pattern with the input's
   * separator wins whenever the numbers make a calendar date that way ...
   */
  lemma DayFirstWins(sep: char, x: string, z: string, y: string)
    requires sep == '/' || sep == '-'
    requires IsInputShape(x, z, y) && IsCalendarDate(ReadDate('d', x, z, y))
    ensures var s, k := x + [sep] + z + [sep] + y, if sep == '/' then 0 else 1;
            FirstReading(s, k) && DateOf(Parse(DatePatterns[k], s).value) == ReadDate('d', x, z, y)
  {
    PatternOnInput(0, sep, x, z, y);
    PatternOnInput(1, sep, x, z, y);
    assert DatePatterns[0][0] == 'd' && DatePatterns[0][1] == '/';
    assert DatePatterns[1][0] == 'd' && DatePatterns[1][1] == '-';
  }

  /** ... the month-first one is reached only when they do not ... */
  lemma MonthFirstFallback(sep: char, x: string, z: string, y: string)
    requires sep == '/' || sep == '-'
    requires IsInputShape(x, z, y)
    requires !IsCalendarDate(ReadDate('d', x, z, y)) && IsCalendarDate(ReadDate('m', x, z, y))
    ensures var s, k := x + [sep] + z + [sep] + y, if sep == '/' then 2 else 3;
            FirstReading(s, k) && DateOf(Parse(DatePatterns[k], s).value) == ReadDate('m', x, z, y)
  {
    var s := x + [sep] + z + [sep] + y;
    DayFirstFails(sep, x, z, y);
    var k := if sep == '/' then 2 else 3;
    PatternOnInput(k, sep, x, z, y);
    assert DatePatterns[k][0] == 'm' && DatePatterns[k][1] == sep;
    if sep == '-' {
      PatternOnInput(2, sep, x, z, y);
      assert DatePatterns[2][1] == '/';
    }
    FirstReadingAfter(s, k);
  }

  /** A reading at k is the first when every pattern before it fails. */
  lemma FirstReadingAfter(s: string, k: nat)
    requires 2 <= k < |DatePatterns|
    requires Parse(DatePatterns[0], s).None? && Parse(DatePatterns[1], s).None?
    requires k == 3 ==> Parse(DatePatterns[2], s).None?
    requires Parse(DatePatterns[k], s).Some?
    ensures FirstReading(s, k)
  {
    forall j | 0 <= j < k ensures Parse(DatePatterns[j], s).None? {
      assert j == 0 || j == 1 || (k == 3 && j == 2);
    }
  }

  /** When the numbers are no calendar date day first, both day-first patterns fail. */
  lemma DayFirstFails(sep: char, x: string, z: string, y: string)
    requires sep == '/' || sep == '-'
    requires IsInputShape(x, z, y) && !IsCalendarDate(ReadDate('d', x, z, y))
    ensures var s := x + [sep] + z + [sep] + y;
            Parse(DatePatterns[0], s).None? && Parse(DatePatterns[1], s).None?
  {
    PatternOnInput(0, sep, x, z, y);
    PatternOnInput(1, sep, x, z, y);
    assert DatePatterns[0][0] == 'd' && DatePatterns[1][0] == 'd';
  }

  /** ... and the input is rejected when neither order gives a calendar date. */
  lemma NeitherOrderReads(sep: char, x: string, z: string, y: string)
    requires sep == '/' || sep == '-'
    requires IsInputShape(x, z, y)
    requires !IsCalendarDate(ReadDate('d', x, z, y)) && !IsCalendarDate(ReadDate('m', x, z, y))
    ensures NoPatternReads(x + [sep] + z + [sep] + y)
  {
    var s := x + [sep] + z + [sep] + y;
    DayFirstFails(sep, x, z, y);
    PatternOnInput(2, sep, x, z, y);
    PatternOnInput(3, sep, x, z, y);
    assert DatePatterns[2][0] == 'm' && DatePatterns[3][0] == 'm';
    forall k | 0 <= k < |DatePatterns| ensures Parse(DatePatterns[k], s).None? {
      assert k == 0 || k == 1 || k == 2 || k == 3;
    }
  }

  /**
   * parse_date as PHP's `createFromFormat` behaves: it gives false only when
   * the text does not scan, and it accepts an out-of-range day or month
   * (rolling it over into the following months), so the first pattern whose
   * scan succeeds wins. The result holds the fields as read, before the
   * roll-over.
   */
  function ParseDateAsRun(input: string): (r: Option<Fields>)
    ensures r.None? <==> NoScanBetween(input, 0, |DatePatterns|)
    ensures r.Some? ==> exists k :: 0 <= k < |DatePatterns| && Scan(DatePatterns[k], input) == r && NoScanBetween(input, 0, k)
  {
    FirstScan(input, 0)
  }

  /** The first of the patterns from k on whose scan succeeds. */
  function FirstScan(input: string, k: nat): (r: Option<Fields>)
    requires k <= |DatePatterns|
    ensures r.None? <==> forall j :: k <= j < |DatePatterns| ==> Scan(DatePatterns[j], input).None?
    ensures r.Some? ==> exists j :: k <= j < |DatePatterns| && Scan(DatePatterns[j], input) == r && NoScanBetween(input, k, j)
    decreases |DatePatterns| - k
  {
    if k == |DatePatterns| then None
    else
      match Scan(DatePatterns[k], input)
      case Some(f) =>
        assert NoScanBetween(input, k, k);
        Some(f)
      case None =>
        var r := FirstScan(input, k + 1);
        assert r.Some? ==> exists j :: k <= j < |DatePatterns| && Scan(DatePatterns[j], input) == r && NoScanBetween(input, k, j) by {
          if r.Some? {
            var j :| k + 1 <= j < |DatePatterns| && Scan(DatePatterns[j], input) == r && NoScanBetween(input, k + 1, j);
            NoScanBetweenStep(input, k, j);
          }
        }
        r
  }

  lemma NoScanBetweenStep(input: string, k: nat, j: nat)
    requires k < j <= |DatePatterns|
    requires Scan(DatePatterns[k], input).None? && NoScanBetween(input, k + 1, j)
    ensures NoScanBetween(input, k, j)
  {
    forall i | k <= i < j ensures Scan(DatePatterns[i], input).None? {
      if i > k { assert k + 1 <= i < j; }
    }
  }

  /** No pattern from k up to, but not including, j scans the input. */
  predicate NoScanBetween(input: string, k: nat, j: nat)
    requires j <= |DatePatterns|
  {
    forall i :: k <= i < j ==> Scan(DatePatterns[i], input).None?
  }

  /** A month-first pattern scans exactly the texts the day-first pattern with its separator scans. */
  lemma MonthFirstShadowed(k: nat, input: string)
    requires 2 <= k < |DatePatterns|
    ensures Scan(DatePatterns[k], input).Some? <==> Scan(DatePatterns[k - 2], input).Some?
  {
    var f, g := DatePatterns[k], DatePatterns[k - 2];
    assert SameWidths(f, g) by {
      forall i | 0 <= i < |f|
        ensures f[i] == g[i] || (IsFormatLetter(f[i]) && IsFormatLetter(g[i]) && MinWidth(f[i]) == MinWidth(g[i]) && Width(f[i]) == Width(g[i]))
      {
        assert i == 0 || i == 1 || i == 2 || i == 3 || i == 4;
      }
    }
    ScanSameWidths(f, g, input);
  }

  /**
   * As run, the result always comes from a day-first pattern: `m/d/Y` and
   * `m-d-Y` can never be reached, whatever the input.
   */
  lemma ParseDateAsRunDayFirst(input: string)
    ensures ParseDateAsRun(input).None? <==> Scan(DatePatterns[0], input).None? && Scan(DatePatterns[1], input).None?
    ensures ParseDateAsRun(input).Some? ==>
              ParseDateAsRun(input) == Scan(DatePatterns[0], input) || ParseDateAsRun(input) == Scan(DatePatterns[1], input)
  {
    MonthFirstShadowed(2, input);
    MonthFirstShadowed(3, input);
  }

  /** As run, a typed date is always read day first, calendar date or not. */
  lemma ParseDateAsRunInput(sep: char, x: string, z: string, y: string)
    requires sep == '/' || sep == '-'
    requires IsInputShape(x, z, y)
    ensures ParseDateAsRun(x + [sep] + z + [sep] + y) == Some(map['d' := Value(x)] + (map['m' := Value(z)] + map['Y' := Value(y)]))
  {
    InputDateScan('d', 'm', sep, x, z, y);
    assert DatePatterns[0] == ['d', '/', 'm', '/', 'Y'] && DatePatterns[1] == ['d', '-', 'm', '-', 'Y'];
    if sep == '-' {
      InputDateWrongSeparator('d', 'm', '/', '-', x, z, y);
    }
  }

  /** One or two hour digits as `[01]?[0-9]|2[0-3]` accepts them. */
  predicate IsHourText(h: string)
  {
    || (|h| == 1 && IsDigit(h[0]))
    || (|h| == 2 && (h[0] == '0' || h[0] == '1') && IsDigit(h[1]))
    || (|h| == 2 && h[0] == '2' && '0' <= h[1] <= '3')
  }

  /** Two minute digits as `[0-5][0-9]` accepts them. */
  predicate IsMinuteText(m: string)
  {
    |m| == 2 && '0' <= m[0] <= '5' && IsDigit(m[1])
  }

  /** The whole text matches `^([01]?[0-9]|2[0-3]):[0-5][0-9]$`. */
  predicate MatchesTimePattern(s: string): (b: bool)
    ensures b ==> (|s| == 4 || |s| == 5) && s[|s| - 3] == ':'
  {
    |s| >= 4 && s[|s| - 3] == ':' && IsHourText(s[..|s| - 3]) && IsMinuteText(s[|s| - 2..])
  }

  lemma TwoDigitValue(s: string)
    requires |s| == 2 && AllDigits(s)
    ensures Value(s) == DigitValue(s[0]) * 10 + DigitValue(s[1])
  {
    assert s[..1][..0] == [];
  }

  lemma HourTextValue(h: string)
    requires IsHourText(h)
    ensures AllDigits(h) && Value(h) <= 23
  {
    if |h| == 2 { TwoDigitValue(h); } else { assert h[..0] == []; }
  }

  lemma MinuteTextValue(m: string)
    requires IsMinuteText(m)
    ensures AllDigits(m) && Value(m) <= 59
  {
    TwoDigitValue(m);
  }

  /** An hour and minute text around a colon scan under `H:i` (passed in as format) to the numbers they spell ... */
  lemma ClockScan(format: string, h: string, m: string)
    requires format == "H:i"
    requires IsHourText(h) && IsMinuteText(m)
    ensures AllDigits(h) && AllDigits(m)
    ensures Scan(format, h + ([':'] + m)) == Some(map['H' := Value(h)] + map['i' := Value(m)])
  {
    var rest := format[2..];
    assert rest == "i" && format[0] == 'H' && format[1] == ':';
    HourTextValue(h);
    MinuteTextValue(m);
    ScanLast(rest, m);
    ScanField(format, h, ':', m);
  }

  /** ... and the reading is in range, so `createFromFormat` gives it. */
  lemma ClockParse(format: string, h: string, m: string)
    requires format == "H:i"
    requires IsHourText(h) && IsMinuteText(m)
    ensures AllDigits(h) && AllDigits(m) && Value(h) <= 23 && Value(m) <= 59
    ensures Parse(format, h + ([':'] + m)) == Some(map['H' := Value(h)] + map['i' := Value(m)])
  {
    ClockScan(format, h, m);
    HourTextValue(h);
    MinuteTextValue(m);
    ClockFieldsInRange(Value(h), Value(m));
  }

  lemma ClockFieldsInRange(hour: nat, minute: nat)
    requires hour <= 23 && minute <= 59
    ensures InRange(map['H' := hour] + map['i' := minute])
  {
    var f := map['H' := hour] + map['i' := minute];
    assert f.Keys == {'H', 'i'};
  }

  lemma SplitAtColon(s: string)
    requires |s| >= 4 && s[|s| - 3] == ':'
    ensures s == s[..|s| - 3] + ([':'] + s[|s| - 2..])
  {
  }

  /** What `createFromFormat('H:i')` makes of a text the pattern accepts. */
  lemma ParseTimeReading(s: string)
    requires MatchesTimePattern(s)
    ensures Parse("H:i", s).Some?
    ensures var f := Parse("H:i", s).value;
            && 'H' in f && 'i' in f && f['H'] <= 23 && f['i'] <= 59
            && ClockText(Time(f['H'], f['i'])) == if |s| == 4 then "0" + s else s
  {
    var h, m := s[..|s| - 3], s[|s| - 2..];
    SplitAtColon(s);
    ClockParse("H:i", h, m);
    ClockDigits(h, m);
    ClockRejoin(s, h, m);
  }

  lemma ClockRejoin(s: string, h: string, m: string)
    requires s == h + ([':'] + m) && |m| == 2
    ensures (if |h| == 1 then "0" + h else h) + ":" + m == if |s| == 4 then "0" + s else s
  {
    ConcatAssoc(h, ":", m);
    if |h| == 1 {
      ConcatAssoc("0", h, [':'] + m);
      ConcatAssoc("0" + h, ":", m);
    }
  }

  /**
   * parse_time: a time of day when the whole input matches the pattern and
   * `createFromFormat('H:i')` reads it, null otherwise. A match is always
   * read, to the input's own hour and minute, so showing the result as
   * `HH:MM` gives the input back (with the leading zero a one-digit hour
   * lacks).
   */
  function ParseTime(input: string): (r: Option<Time>)
    ensures r.Some? <==> MatchesTimePattern(input)
    ensures r.Some? ==> r.value.hour <= 23 && r.value.minute <= 59
    ensures r.Some? ==> ClockText(r.value) == if |input| == 4 then "0" + input else input
  {
    if MatchesTimePattern(input) then
      ParseTimeReading(input);
      match Parse("H:i", input)
      case Some(f) => Some(Time(f['H'], f['i']))
      case None => None
    else None
  }

  /** parse_time reads an accepted hour and minute as the numbers they spell. */
  lemma ParseTimeDigits(h: string, m: string)
    requires IsHourText(h) && IsMinuteText(m)
    ensures AllDigits(h) && AllDigits(m)
    ensures ParseTime(h + ":" + m) == Some(Time(Value(h), Value(m)))
  {
    var s := h + ([':'] + m);
    assert h + ":" + m == s;
    assert s[..|s| - 3] == h && s[|s| - 3] == ':' && s[|s| - 2..] == m;
    assert MatchesTimePattern(s);
    ClockParse("H:i", h, m);
    var f := map['H' := Value(h)] + map['i' := Value(m)];
    assert f['H'] == Value(h) && f['i'] == Value(m);
    assert ParseTime(s) == Some(Time(f['H'], f['i']));
  }

  /** A two-character text of digits, read as a number. */
  lemma ZeroPadded(h: string)
    requires |h| == 1 && AllDigits(h)
    ensures AllDigits("0" + h) && Value("0" + h) == Value(h)
  {
    assert Value("0") == 0 by { assert "0"[..0] == []; }
    ValueAppend("0", h);
  }

  lemma ClockDigits(h: string, m: string)
    requires IsHourText(h) && IsMinuteText(m)
    ensures AllDigits(h) && AllDigits(m)
    ensures ClockText(Time(Value(h), Value(m))) == (if |h| == 1 then "0" + h else h) + ":" + m
  {
    HourTextValue(h);
    MinuteTextValue(m);
    PadOfDigits(m);
    if |h| == 2 {
      PadOfDigits(h);
    } else {
      ZeroPadded(h);
      PadOfDigits("0" + h);
    }
  }

  /** Reading back a valid time shown as `HH:MM` gives that time. */
  lemma ParseClockText(t: Time)
    requires t.hour <= 23 && t.minute <= 59
    ensures ParseTime(ClockText(t)) == Some(t)
  {
    var h, m := Pad(t.hour, 2), Pad(t.minute, 2);
    PadWidth(t.hour, 2);
    PadWidth(t.minute, 2);
    var s := ClockText(t);
    assert s[..2] == h && s[2] == ':' && s[3..] == m;
    TwoDigitValue(h);
    TwoDigitValue(m);
    assert IsHourText(h);
    assert IsMinuteText(m);
    assert MatchesTimePattern(s);
    var r := ParseTime(s).value;
    assert Pad(r.hour, 2) == h && Pad(r.minute, 2) == m;
  }

  /**
   * parse_datetime: the switch over the display templates has no
   * validation in any branch, so every input under every template gives
   * null.
   */
  function ParseDatetime(template: string, input: string): (r: Option<Date>)
    ensures r == None
  {
    if template == "mm/dd/yyyy" then None
    else if template == "dd/mm/yyyy" then None
    else if template == "dd-mm-yyyy" then None
    else if template == "mm-dd-yyyy" then None
    else None
  }
}
