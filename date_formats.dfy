/**
 * The part of PHP's DateTime that the helpers use, made explicit and strict:
 * `DateTime::createFromFormat(format, text)` as a scanner over the format
 * letters Y, m, d, H, i, s, and `DateTime::format(format)` as its renderer.
 */
module DateFormats {
  import opened Wrappers
  import opened Digits
  import opened Strings

  /** The format letters this model interprets; every other character of a format stands for itself. */
  predicate IsFormatLetter(c: char)
  {
    c == 'Y' || c == 'm' || c == 'd' || c == 'H' || c == 'i' || c == 's'
  }

  /** Fewest digits a letter accepts: the year needs four, minutes and seconds two, the rest one. */
  function MinWidth(c: char): nat
    requires IsFormatLetter(c)
  {
    if c == 'Y' then 4 else if c == 'i' || c == 's' then 2 else 1
  }

  /** Most digits a letter reads, and the width `DateTime::format` writes it in. */
  function Width(c: char): (w: nat)
    requires IsFormatLetter(c)
    ensures MinWidth(c) <= w
  {
    if c == 'Y' then 4 else 2
  }

  /** The values read for the letters of a format, keyed by letter. */
  type Fields = map<char, nat>

  function Letters(format: string): set<char>
  {
    set c | c in format && IsFormatLetter(c)
  }

  lemma LettersCons(format: string)
    requires format != []
    ensures Letters(format) == (if IsFormatLetter(format[0]) then {format[0]} else {}) + Letters(format[1..])
  {
    assert format == [format[0]] + format[1..];
    forall c ensures c in format <==> c == format[0] || c in format[1..] {
      if c in format {
        var i :| 0 <= i < |format| && format[i] == c;
        if i > 0 { assert format[1..][i - 1] == c; }
      }
    }
  }

  /** Every value fits the width its letter is written in. */
  predicate Fits(f: Fields)
  {
    forall c :: c in f ==> IsFormatLetter(c) && f[c] < Pow10(Width(c))
  }

  /**
   * The scan `createFromFormat` makes, taken strictly: a letter reads the
   * longest run of digits up to its width and fails on fewer than its
   * minimum, any other format character must be the next character of the
   * text, and text left over after the format is used up is an error.
   * (PHP is laxer about a space in the format, which accepts any number of
   * blanks, none included; the model asks for exactly one space.)
   */
  function Scan(format: string, text: string): (r: Option<Fields>)
    ensures r.Some? ==> r.value.Keys == Letters(format) && Fits(r.value)
    decreases |format|
  {
    if format == [] then
      assert Letters(format) == {};
      if text == [] then Some(map[]) else None
    else
      LettersCons(format);
      var c := format[0];
      if IsFormatLetter(c) then
        var n := LeadingDigits(text, Width(c));
        if n < MinWidth(c) then None
        else
          match Scan(format[1..], text[n..])
          case None => None
          case Some(rest) =>
            Pow10Monotone(n, Width(c));
            Some(map[c := Value(text[..n])] + rest)
      else if text != [] && text[0] == c then Scan(format[1..], text[1..])
      else None
  }

  predicate IsLeapYear(year: nat)
  {
    year % 4 == 0 && (year % 100 != 0 || year % 400 == 0)
  }

  function DaysInMonth(year: nat, month: nat): (n: nat)
    requires 1 <= month <= 12
    ensures 28 <= n <= 31
  {
    if month == 2 then (if IsLeapYear(year) then 29 else 28)
    else if month == 4 || month == 6 || month == 9 || month == 11 then 30
    else 31
  }

  /** The calendar and clock ranges a strict reading insists on. */
  predicate InRange(f: Fields)
  {
    && ('m' in f ==> 1 <= f['m'] <= 12)
    && ('d' in f ==> 1 <= f['d'] <= 31)
    && ('Y' in f && 'm' in f && 'd' in f ==> f['d'] <= DaysInMonth(f['Y'], f['m']))
    && ('H' in f ==> f['H'] <= 23)
    && ('i' in f ==> f['i'] <= 59)
    && ('s' in f ==> f['s'] <= 59)
  }

  /** `DateTime::createFromFormat(format, text)`, with None for `false`. */
  function Parse(format: string, text: string): (r: Option<Fields>)
    ensures r.Some? ==> r.value.Keys == Letters(format) && Fits(r.value) && InRange(r.value)
    ensures r.Some? ==> Scan(format, text) == r
    ensures r.None? && Scan(format, text).Some? ==> !InRange(Scan(format, text).value)
  {
    match Scan(format, text)
    case None => None
    case Some(f) => if InRange(f) then Some(f) else None
  }

  predicate Covers(f: Fields, format: string)
  {
    forall c :: c in format && IsFormatLetter(c) ==> c in f
  }

  /** `$date->format(format)`: each letter becomes its zero-padded value, everything else is copied. */
  function Format(format: string, f: Fields): (r: string)
    requires Covers(f, format)
    ensures Letters(format) == {} ==> r == format
    ensures |r| >= |format|
    decreases |format|
  {
    if format == [] then []
    else
      LettersCons(format);
      assert Covers(f, format[1..]) by { assert forall c :: c in format[1..] ==> c in format; }
      var c := format[0];
      (if IsFormatLetter(c) then Pad(f[c], Width(c)) else [c]) + Format(format[1..], f)
  }

  /** The fields of f that a format mentions. */
  function Restrict(f: Fields, letters: set<char>): (g: Fields)
    ensures g.Keys == f.Keys * letters
    ensures forall c :: c in g ==> g[c] == f[c]
  {
    map c | c in f && c in letters :: f[c]
  }

  /** A letter reads the digit run in front of the text when the run is within its widths. */
  lemma ScanLetter(format: string, digits: string, tail: string)
    requires format != [] && IsFormatLetter(format[0])
    requires AllDigits(digits) && MinWidth(format[0]) <= |digits| <= Width(format[0])
    requires |digits| == Width(format[0]) || tail == [] || !IsDigit(tail[0])
    ensures Scan(format, digits + tail)
         == match Scan(format[1..], tail)
            case None => None
            case Some(rest) => Some(map[format[0] := Value(digits)] + rest)
  {
    LeadingDigitsOfRun(digits, tail, Width(format[0]));
    assert (digits + tail)[..|digits|] == digits && (digits + tail)[|digits|..] == tail;
  }

  /** Any other format character must be the next character of the text. */
  lemma ScanLiteral(format: string, c: char, tail: string)
    requires format != [] && !IsFormatLetter(format[0]) && format[0] == c
    ensures Scan(format, [c] + tail) == Scan(format[1..], tail)
  {
    assert ([c] + tail)[1..] == tail;
  }

  /** Rendering the first character of a format, then the rest. */
  lemma FormatCons(format: string, f: Fields)
    requires format != [] && Covers(f, format)
    ensures Covers(f, format[1..])
    ensures Format(format, f)
         == (if IsFormatLetter(format[0]) then Pad(f[format[0]], Width(format[0])) else [format[0]]) + Format(format[1..], f)
  {
    assert Covers(f, format[1..]) by { assert forall c :: c in format[1..] ==> c in format; }
  }

  /** A letter followed by a separator reads a digit run, the separator, and goes on behind it. */
  lemma ScanField(format: string, digits: string, sep: char, rest: string)
    requires |format| >= 2 && IsFormatLetter(format[0]) && format[1] == sep
    requires !IsDigit(sep) && !IsFormatLetter(sep)
    requires AllDigits(digits) && MinWidth(format[0]) <= |digits| <= Width(format[0])
    ensures Scan(format, digits + ([sep] + rest))
         == match Scan(format[2..], rest)
            case None => None
            case Some(r) => Some(map[format[0] := Value(digits)] + r)
  {
    ScanLetter(format, digits, [sep] + rest);
    ScanLiteral(format[1..], sep, rest);
    assert format[1..][1..] == format[2..];
  }

  /** A letter followed by a separator fails on a text whose digit run is followed by another character. */
  lemma ScanFieldMismatch(format: string, digits: string, other: char, rest: string)
    requires |format| >= 2 && IsFormatLetter(format[0]) && !IsFormatLetter(format[1])
    requires !IsDigit(other) && other != format[1]
    requires AllDigits(digits) && MinWidth(format[0]) <= |digits| <= Width(format[0])
    ensures Scan(format, digits + ([other] + rest)) == None
  {
    ScanLetter(format, digits, [other] + rest);
    assert format[1..][0] == format[1];
  }

  /** A last letter reads the digit run that ends the text. */
  lemma ScanLast(format: string, digits: string)
    requires |format| == 1 && IsFormatLetter(format[0])
    requires AllDigits(digits) && MinWidth(format[0]) <= |digits| <= Width(format[0])
    ensures Scan(format, digits) == Some(map[format[0] := Value(digits)])
  {
    assert digits + [] == digits && format[1..] == [];
    ScanLetter(format, digits, []);
    assert map[format[0] := Value(digits)] + map[] == map[format[0] := Value(digits)];
  }

  lemma RestrictCons(f: Fields, format: string)
    requires format != [] && IsFormatLetter(format[0]) && format[0] in f
    ensures map[format[0] := f[format[0]]] + Restrict(f, Letters(format[1..])) == Restrict(f, Letters(format))
  {
    LettersCons(format);
  }

  /**
   * Reading back what `format` wrote gives the fields it wrote: the scan
   * and the renderer are inverse on values that fit their widths.
   */
  lemma {:induction false} ScanFormat(format: string, f: Fields)
    requires Covers(f, format) && Fits(f)
    ensures Scan(format, Format(format, f)) == Some(Restrict(f, Letters(format)))
    decreases |format|
  {
    if format == [] {
      assert Letters(format) == {};
      assert Restrict(f, {}) == map[];
    } else {
      LettersCons(format);
      var c := format[0];
      assert Covers(f, format[1..]) by { assert forall x :: x in format[1..] ==> x in format; }
      ScanFormat(format[1..], f);
      var tail := Format(format[1..], f);
      if IsFormatLetter(c) {
        assert c in format;
        var p := Pad(f[c], Width(c));
        PadWidth(f[c], Width(c));
        assert Format(format, f) == p + tail;
        ScanLetter(format, p, tail);
        RestrictCons(f, format);
      } else {
        assert Format(format, f) == [c] + tail;
        assert ([c] + tail)[1..] == tail;
        assert Letters(format) == Letters(format[1..]);
      }
    }
  }

  /** A reading of what `format` wrote succeeds exactly when the written fields are in range. */
  lemma ParseFormat(format: string, f: Fields)
    requires Covers(f, format) && Fits(f)
    ensures Parse(format, Format(format, f)).Some? <==> InRange(Restrict(f, Letters(format)))
    ensures Parse(format, Format(format, f)).Some? ==> Parse(format, Format(format, f)).value == Restrict(f, Letters(format))
  {
    ScanFormat(format, f);
  }

  /** Two formats that differ only in letters of the same widths. */
  predicate SameWidths(f: string, g: string)
  {
    && |f| == |g|
    && forall i :: 0 <= i < |f| ==>
         || f[i] == g[i]
         || (&& IsFormatLetter(f[i]) && IsFormatLetter(g[i])
             && MinWidth(f[i]) == MinWidth(g[i]) && Width(f[i]) == Width(g[i]))
  }

  /** Such formats consume a text the same way, so one scans it exactly when the other does. */
  lemma {:induction false} ScanSameWidths(f: string, g: string, text: string)
    requires SameWidths(f, g)
    ensures Scan(f, text).Some? <==> Scan(g, text).Some?
    decreases |f|
  {
    if f != [] {
      assert SameWidths(f[1..], g[1..]) by {
        forall i | 0 <= i < |f| - 1
          ensures f[1..][i] == f[i + 1] && g[1..][i] == g[i + 1]
        {
        }
      }
      if IsFormatLetter(f[0]) {
        ScanSameWidths(f[1..], g[1..], text[LeadingDigits(text, Width(f[0]))..]);
      } else if text != [] {
        ScanSameWidths(f[1..], g[1..], text[1..]);
      }
    }
  }
}
