# Date and time helpers — a verified model

This project models `engine/tg_helpers/timedate_helper.php` in Dafny. That file holds the Trongate framework's helpers for moving between the stored forms of dates and times and the display or input forms users see. The stored forms are `yyyy-mm-dd`, `yyyy-mm-dd HH:ii:ss` and `HH:ii`.

- `get_default_date_format` and `get_default_locale_str` define the process-wide constants `DEFAULT_DATE_FORMAT` (default `mm/dd/yyyy`) and `DEFAULT_LOCALE_STR` (default `en-US`), once each.
- `format_date_str` reads a stored date with `DateTime::createFromFormat('Y-m-d')` and fills the display template's `mm`, `dd` and `yyyy` tokens with `str_replace`. On failure it returns the stored text unchanged.
- `format_datetime_str` turns the template into a `DateTime::format` pattern (`mm/dd/yyyy` becomes `m/d/Y`). It renders the date with that pattern and appends `, HH:MM`. On failure it returns the stored text unchanged.
- `format_time_str` splits the text at each `:` and casts the first two fields with `(int)`. An hour above 12 is shown as it is in `HH:MM`. Any other hour goes on the 12-hour clock (`date('h:i')`). Without a second field the result is empty.
- `parse_date` tries `d/m/Y`, `d-m-Y`, `m/d/Y` and `m-d-Y` in that order and returns the first reading.
- `parse_datetime` switches over the display template. None of its branches does anything, so it always returns null.
- `parse_time` accepts a text that matches `^([01]?[0-9]|2[0-3]):[0-5][0-9]$` and reads it with `createFromFormat('H:i')`.

The model is organised in these modules:

- `Wrappers`: `Option`, standing for PHP's `false` or `null` results.
- `Digits`: digit runs and their values, PHP's `(int)` cast of a string, and `sprintf('%0Nd')`.
- `Strings`: `str_replace` with one needle and with arrays, `explode`, and `implode`.
- `Placeholders`: the template tokens. It proves that the helpers' sequential `str_replace` gives the same text as a single simultaneous substitution.
- `DateFormats`: the part of PHP's `DateTime` that the helpers use. `Scan` and `Parse` model `createFromFormat` over the letters `Y m d H i s`, and `Format` models `DateTime::format`. Scanning what `Format` writes is proved to recover the fields it wrote. The converse does not hold: `Scan` also accepts one-digit months and days, which `Format` never writes.
- `TimeDateHelper`: the helpers themselves.
  - The two constants are the fields of a `Settings` class. Each helper that initialises and reads them is a method of that class.
  - The helpers' logic is made of functions and lemmas. The one loop (`parse_date`'s `foreach`) is a method, `ParseDate`.
- `TimeDateExamples`: the documented input/output examples, proved from the general lemmas.

Calendar rules are those of the proleptic Gregorian calendar: months 1 to 12, and February with 29 days in leap years.

## Model

| member | source | states |
|---|---|---|
| TimeDateHelper.Settings.InitDateFormat | engine/tg_helpers/timedate_helper.php:9-12 | An undefined display template becomes `mm/dd/yyyy`; an already defined one is kept, so the call is idempotent |
| TimeDateHelper.Settings.InitLocale | engine/tg_helpers/timedate_helper.php:24-27 | An undefined locale becomes `en-US`; an already defined one is kept |
| TimeDateHelper.Settings.constructor | engine/tg_helpers/timedate_helper.php:10 | The constants start as the host application defined them before the first helper call, or undefined |
| TimeDateHelper.Settings.FormatDateStr | engine/tg_helpers/timedate_helper.php:41-63 | Initialises the template (keeping an earlier one), then returns the stored date formatted with that template |
| TimeDateHelper.Settings.FormatDatetimeStr | engine/tg_helpers/timedate_helper.php:74-99 | Initialises the template, then returns the stored date-time formatted with it |
| TimeDateHelper.Settings.ParseDateStr | engine/tg_helpers/timedate_helper.php:142-157 | Initialises the template; null exactly when no pattern reads the input, otherwise the date of the first pattern that does |
| TimeDateHelper.Settings.ParseDatetimeStr | engine/tg_helpers/timedate_helper.php:167-189 | Initialises the template; the result is null for every input |
| DateFormats.Scan | engine/tg_helpers/timedate_helper.php:46 | A successful scan holds exactly the format's letters, each value fitting its letter's width; `ScanLetter`, `ScanLiteral` and `ScanFormat` pin down how the text is consumed |
| DateFormats.Parse | engine/tg_helpers/timedate_helper.php:46-49 | A reading is a successful scan whose fields are in calendar and clock range; a scan is rejected only for being out of range |
| DateFormats.Format | engine/tg_helpers/timedate_helper.php:52-54 | A format without letters is copied as it is, and the output is never shorter than the format; `FormatCons` and `ScanFormat` pin down the rest |
| Digits.Pad | engine/tg_helpers/timedate_helper.php:121 | `%0Nd` writes digits whose value is the number, in exactly max(N, numeral length) characters |
| Strings.Replace | engine/tg_helpers/timedate_helper.php:57 | A text in which no character can start the needle comes back unchanged; `ReplaceSkip` and `ReplaceMatch` pin down the left-to-right, non-overlapping replacement |
| Strings.ReplaceEach | engine/tg_helpers/timedate_helper.php:57 | With arrays of needles, a text in which no character can start any needle comes back unchanged |
| Placeholders.ReplaceTokens | engine/tg_helpers/timedate_helper.php:57 | The array `str_replace` of the three tokens is the single-needle passes for `mm`, `dd` and `yyyy`, in that order |
| TimeDateHelper.FormatDate | engine/tg_helpers/timedate_helper.php:46-62 | A text that does not read as `Y-m-d` comes back unchanged; otherwise the result is the template with its tokens filled by the two-digit month and day and the four-digit year |
| Placeholders.SequentialIsSimultaneous | engine/tg_helpers/timedate_helper.php:57 | The three sequential `str_replace` passes give the same text as one simultaneous substitution, for every template, when the values cannot form a later token |
| TimeDateHelper.FormatDateFallback | engine/tg_helpers/timedate_helper.php:46-62 | A stored text that does not start with a digit is returned as it is |
| TimeDateHelper.StoredDateReading | engine/tg_helpers/timedate_helper.php:46-49 | A well-formed stored calendar date reads as its three numbers |
| TimeDateHelper.DateTextStandard | engine/tg_helpers/timedate_helper.php:52-57 | Under a documented template a date is shown as its two-digit fields and four-digit year, in the template's order and with its separator |
| TimeDateHelper.FormatDateReorders | engine/tg_helpers/timedate_helper.php:46-59 | Under a documented template a well-formed stored date is shown as its own digits rearranged (`2024-03-07` gives `03/07/2024` under `mm/dd/yyyy`) |
| TimeDateHelper.DatePattern | engine/tg_helpers/timedate_helper.php:87 | The sequential token rewrite gives the template's `DateTime::format` pattern (the simultaneous substitution of `m`, `d`, `Y`) |
| TimeDateHelper.PatternTextStandard | engine/tg_helpers/timedate_helper.php:87 | A documented template's pattern is its two letters and `Y` with its separator (`mm/dd/yyyy` gives `m/d/Y`) |
| TimeDateHelper.FormatDatetime | engine/tg_helpers/timedate_helper.php:79-98 | A text that does not read as `Y-m-d H:i:s` comes back unchanged; otherwise the result is the date rendered with the rewritten pattern, `, ` and the 24-hour `HH:MM` |
| TimeDateHelper.FormatDatetimeFallback | engine/tg_helpers/timedate_helper.php:79-98 | A stored text that does not start with a digit is returned as it is |
| TimeDateHelper.DatePatternDates | engine/tg_helpers/timedate_helper.php:87 | Under a documented template the rewritten pattern renders a date exactly as the template's token substitution shows it |
| TimeDateHelper.FormatDatetimeStandard | engine/tg_helpers/timedate_helper.php:79-95 | Under a documented template the date part of a formatted date-time is what `format_date_str` shows for the same fields |
| TimeDateHelper.StoredDatetimeReading | engine/tg_helpers/timedate_helper.php:79-84 | A well-formed stored date-time reads as its six numbers |
| TimeDateHelper.FormatDatetimeReorders | engine/tg_helpers/timedate_helper.php:79-95 | Under a documented template a well-formed stored date-time is shown as its date digits rearranged, `, `, and its hour and minute digits; the seconds are dropped |
| TimeDateHelper.TwelveHour | engine/tg_helpers/timedate_helper.php:123 | The hour `date('h')` shows lies between 1 and 12, agrees with the hour modulo 12, and equals the hour when the hour is 1 to 12 |
| TimeDateHelper.FormatTime | engine/tg_helpers/timedate_helper.php:110-127 | The formatted time is empty exactly when the text has no `:`; `FormatTimeFields`, `FormatTimeIgnoresRest` and `FormatTimeTwoDigits` pin down the rest |
| Digits.IntCast | engine/tg_helpers/timedate_helper.php:114-115 | `(int)` of a text that does not start with a digit is 0; `IntCastOfRun` gives the value of a leading digit run |
| TimeDateHelper.FormatTimeStr | engine/tg_helpers/timedate_helper.php:110-127 | The result, built by the helper's assignments, is empty exactly when the text has no `:` |
| TimeDateHelper.FormatTimeEmpty | engine/tg_helpers/timedate_helper.php:112-119 | The formatted time is empty exactly when the text has no `:`, that is, when `explode` gives fewer than two fields |
| TimeDateHelper.FormatTimeFields | engine/tg_helpers/timedate_helper.php:112-124 | For two colon-free fields the result is `HH:MM` of the cast hour and minute, with an hour of 12 or less put on the 12-hour clock |
| TimeDateHelper.FormatTimeFirstTwoFields | engine/tg_helpers/timedate_helper.php:112-115 | Only the first two `:`-separated fields affect the result |
| TimeDateHelper.FormatTimeIgnoresRest | engine/tg_helpers/timedate_helper.php:112-115 | A seconds field, or anything else after a second `:`, does not change the result |
| TimeDateHelper.FormatTimeTwoDigits | engine/tg_helpers/timedate_helper.php:119-124 | A two-digit hour other than `00` and a two-digit minute come back unchanged; hour `00` is shown as `12`. For hours 01 to 12 this is PHP's result only for a minute up to 59 |
| TimeDateHelper.ParseDate | engine/tg_helpers/timedate_helper.php:146-156 | The loop returns null exactly when no pattern reads the input; otherwise it returns the date read by the first pattern that does |
| TimeDateHelper.FirstReadingUnique | engine/tg_helpers/timedate_helper.php:148-154 | At most one pattern is the first to read an input, so the result is determined |
| TimeDateHelper.PatternOnInput | engine/tg_helpers/timedate_helper.php:149 | For a typed date, each pattern reads it exactly when the separators agree and the numbers, in that pattern's order, are a calendar date; the date read is that reading |
| TimeDateHelper.DayFirstWins | engine/tg_helpers/timedate_helper.php:146-152 | When the typed numbers make a calendar date day first, the day-first pattern with the input's separator is the first reading (`03/04/2024` is the 3rd of April) |
| TimeDateHelper.MonthFirstFallback | engine/tg_helpers/timedate_helper.php:146-152 | When they do not, but do month first, the month-first pattern with that separator is the first reading |
| TimeDateHelper.NeitherOrderReads | engine/tg_helpers/timedate_helper.php:146-156 | When neither order gives a calendar date, no pattern reads the input and the result is null |
| TimeDateHelper.FirstScan | engine/tg_helpers/timedate_helper.php:148-156 | The scan-only search gives nothing exactly when no remaining pattern scans the input, and otherwise the scan of the first remaining pattern that scans it |
| TimeDateHelper.ParseDateAsRun | engine/tg_helpers/timedate_helper.php:146-154 | As PHP runs it: nothing exactly when no pattern scans the input, otherwise the scan of the first pattern that does |
| TimeDateHelper.ParseDateAsRunDayFirst | engine/tg_helpers/timedate_helper.php:146-154 | Under PHP's range-tolerant `createFromFormat`, the result always comes from `d/m/Y` or `d-m-Y` and is absent exactly when both fail |
| TimeDateHelper.ParseDateAsRunInput | engine/tg_helpers/timedate_helper.php:146-154 | Under that behaviour a typed date is always read day first, whether or not it is a calendar date |
| DateFormats.ScanSameWidths | engine/tg_helpers/timedate_helper.php:146 | Two formats whose letters have the same widths scan the same texts, so `m/d/Y` scans exactly what `d/m/Y` scans |
| TimeDateHelper.MatchesTimePattern | engine/tg_helpers/timedate_helper.php:200-202 | A text the pattern accepts is four or five characters with `:` third from the end; `ParseTime`, `ParseTimeDigits` and `ParseTimeOutOfRange` pin down which hours and minutes it accepts |
| TimeDateHelper.ParseTime | engine/tg_helpers/timedate_helper.php:199-210 | A time exactly when the input matches the pattern; hour at most 23 and minute at most 59; shown as `HH:MM` it gives the input back, with a leading zero added to a one-digit hour |
| TimeDateHelper.ParseTimeDigits | engine/tg_helpers/timedate_helper.php:200-206 | An accepted hour and minute read as the numbers they spell |
| TimeDateHelper.ParseClockText | engine/tg_helpers/timedate_helper.php:199-206 | Reading back any valid time shown as `HH:MM` gives that time |
| TimeDateHelper.ParseDatetime | engine/tg_helpers/timedate_helper.php:171-188 | Every input under every template gives null |
| DateFormats.ScanFormat | engine/tg_helpers/timedate_helper.php:46-54 | Scanning what `DateTime::format` wrote recovers the fields the format mentions |
| DateFormats.ParseFormat | engine/tg_helpers/timedate_helper.php:46-54 | Reading what `DateTime::format` wrote succeeds exactly when those fields are in range, and gives them back |
| Strings.Split | engine/tg_helpers/timedate_helper.php:112 | `explode` gives at least one field, no field holds the separator, and joining the fields with it gives the text back |
| Strings.SplitHasSecondField | engine/tg_helpers/timedate_helper.php:112-119 | `explode` gives a second field exactly when the separator occurs |
| Digits.PadOfDigits | engine/tg_helpers/timedate_helper.php:121 | Padding a digit string's value to the string's own length gives the string back |
| Digits.IntCastOfRun | engine/tg_helpers/timedate_helper.php:114-115 | `(int)` of a digit run followed by a non-digit is the run's value |
| TimeDateExamples.FormatDateExample | engine/tg_helpers/timedate_helper.php:41-63 | `2024-03-07` is shown as `03/07/2024` under `mm/dd/yyyy` |
| TimeDateExamples.FormatDatetimeExample | engine/tg_helpers/timedate_helper.php:74-99 | `2024-03-07 14:30:00` is shown as `03/07/2024, 14:30` under `mm/dd/yyyy` |
| TimeDateExamples.FormatTimeAfternoon | engine/tg_helpers/timedate_helper.php:119-121 | `14:30` gives `14:30` |
| TimeDateExamples.FormatTimeMidnight | engine/tg_helpers/timedate_helper.php:122-123 | `00:15` gives `12:15` on the 12-hour clock |
| TimeDateExamples.FormatTimeWithSeconds | engine/tg_helpers/timedate_helper.php:112-121 | `14:30:00` gives `14:30` |
| TimeDateExamples.FormatTimeNoColon | engine/tg_helpers/timedate_helper.php:117-119 | `1430` gives the empty text |
| TimeDateExamples.ParseDateExample | engine/tg_helpers/timedate_helper.php:146-152 | `07/03/2024` is the 7th of March 2024 |
| TimeDateExamples.AmbiguousDateExample | engine/tg_helpers/timedate_helper.php:146-152 | `03/04/2024` is read day first, as the 3rd of April 2024 |
| TimeDateExamples.MonthFirstExample | engine/tg_helpers/timedate_helper.php:146-152 | `12/25/2024` falls through to `m/d/Y`: the 25th of December 2024 |
| TimeDateExamples.RejectedDateExample | engine/tg_helpers/timedate_helper.php:146-156 | `31-02-2024` is no date in either order and gives null |
| TimeDateExamples.DecemberAsRun | engine/tg_helpers/timedate_helper.php:146-152 | Under PHP's range-tolerant reading, `12/25/2024` is taken by `d/m/Y` as day 12 of month 25 |
| TimeDateExamples.ParseTimeLastMinute | engine/tg_helpers/timedate_helper.php:199-206 | `23:59` reads as 23 hours 59 minutes |
| TimeDateExamples.ParseTimeOneDigitHour | engine/tg_helpers/timedate_helper.php:199-206 | `7:05` reads as 7 hours 5 minutes |
| TimeDateExamples.ParseTimeOutOfRange | engine/tg_helpers/timedate_helper.php:200-202 | `24:00` and `12:60` give null |

## Left out

- DateFormats.Parse: PHP's `createFromFormat` accepts an out-of-range day, month, hour, minute or second, with only a warning, and rolls it over (`2024-02-30` becomes the 1st of March). The model rejects such a reading instead, which is the reading the helpers evidently rely on. The as-run behaviour of `parse_date` is kept beside it (see Findings). The roll-over arithmetic itself is not modelled.
- TimeDateHelper.FormatDate: follows from the above. A stored date such as `2024-02-30` is returned unchanged, where PHP would show the rolled-over date.
- TimeDateHelper.FormatDatetime: the same holds for stored date-times with out-of-range fields.
- DateFormats.Scan: the year is read as exactly four digits, and month, day and hour as one or two. Years of other widths and signed years, which newer PHP versions accept, are not modelled.
- DateFormats.Scan: a space in a `createFromFormat` format accepts any run of spaces and tabs, including none. The model asks for exactly one space.
- TimeDateHelper.FormatDatetime: follows from the missing blank rule. A stored text such as `2024-03-0714:30:00`, with no space or with two, is returned unchanged. PHP would format it as `03/07/2024, 14:30`.
- Fields the format does not mention are not modelled. `createFromFormat` fills them from the current clock, such as the time of day of `parse_date`'s object and the date of `parse_time`'s. The model returns only the fields read, as `Date` and `Time` values instead of `DateTime` objects.
- TimeDateHelper.FormatTimeStr: for an hour of 12 or less the helper calls `date('h:i', strtotime($stored_time_str))`. The model applies the 12-hour clock to the `(int)`-cast hour and minute instead. This agrees with `strtotime` on well-formed `HH:MM` text. `strtotime`'s own parsing of other text, and its failure, are not modelled.
- TimeDateHelper.FormatTimeTwoDigits: for an hour of 01 to 12 and a minute of 60 to 99 (such as `05:75`), PHP's result comes from `strtotime`, which this lemma does not describe. There the lemma states the model's 12-hour reading of the cast fields.
- Digits.IntCast: models `(int)` on a string as the value of its leading digit run. Leading whitespace, signs, exponents and saturation at the integer limit are not modelled.
- `(int)$time_parts[1]` with no second field raises a PHP warning and gives 0. The model uses 0 and leaves the warning out.
- The `catch` in `format_time_str` is not modelled. Nothing in its `try` throws an `Exception`, because PHP warnings are not exceptions, so that branch is unreachable. The helper's doc comment (line 108) promises the original text on error. The model follows the code, which never returns it.
- DateFormats.Format: interprets only the letters `Y m d H i s` and copies every other character. `DateTime::format` gives many other letters a meaning and honours backslash escapes. The documented templates (`mm/dd/yyyy`, `dd/mm/yyyy`, `mm-dd-yyyy`, `dd-mm-yyyy`) contain none of them.
- `DEFAULT_LOCALE_STR` is initialised but never read by any helper. The model keeps it as a field only.
- `parse_date` and `parse_datetime` read `DEFAULT_DATE_FORMAT` into a local variable. `parse_date` never uses it. The model reads it in the same way and does not use it either.
- In `preg_match`, `$` also matches just before a trailing newline. `parse_time("12:30\n")` therefore passes the pattern, then fails in `createFromFormat` on the trailing data. The model rejects it at the pattern, so the result is the same: null.
- `define` and `defined` act on process-wide constants. The model turns them into the fields of one `Settings` object.
- PHP's warnings, and any concurrency, are outside the model.

## Findings

| source | as written | input that shows it | evidently intended | confidence | as-written member | corrected member |
|---|---|---|---|---|---|---|
| engine/tg_helpers/timedate_helper.php:146-154 | `createFromFormat` returns `false` only when the text does not scan. Out-of-range days and months are accepted and rolled over. `d/m/Y` and `m/d/Y` scan the same texts, so the month-first patterns are never reached | `12/25/2024` is read by `d/m/Y` as day 12 of month 25, that is 12 January 2026 | a month-first reading when the day-first numbers are no calendar date: 25 December 2024 | not executed; rests on `createFromFormat`'s roll-over of out-of-range fields | TimeDateHelper.ParseDateAsRunDayFirst | TimeDateHelper.MonthFirstFallback |
