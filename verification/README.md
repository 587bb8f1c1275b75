# IPO calendar generator — Dafny model

This project models the calendar-building core of two Python scripts. Both
turn Korean IPO and SPAC schedule records from a JSON API into two
iCalendar files, `ipo.ics` and `spac.ics`:

- `scripts/generate_ipo.py` asks for one month as `yyyymm`.
- `scripts/generate_ics.py` covers the previous, current and next month of
  the day it runs.

The model covers:

- how a schedule record becomes a nine-line `VEVENT` block (`build_event`, `build_uid`, `ymd_to_ics`);
- how the blocks are wrapped into a calendar (`build_calendar`);
- how an exclusive DTEND is computed from the inclusive END_YMD, with Python's `strptime` and `timedelta` semantics;
- how a `yyyymm` answer is checked and turned into a month token (`parse_month_input`);
- how the three target months are chosen (`target_months`);
- the loop that files each event under IPO or SPAC, and how it accumulates over several months.

Modules, in dependency order:

| file | module | what it holds |
|---|---|---|
| `results.dfy` | `Results` | `Result` with the Python exception it stands for (`ValueError`, `OverflowError`, `KeyError`), `Option` |
| `text.dfy` | `Text` | decimal digits and zero padding, newline-terminated lines, the two-character `\n` separator |
| `gregorian.dfy` | `Gregorian` | `datetime.date`: years 1–9999, leap years, ordinals, `± timedelta(days=n)` with overflow |
| `datetext.dfy` | `DateText` | `strftime` for `%Y%m%d`, `%Y-%m-%d`, `%Y.%m` and `%Y%m%dT%H%M%SZ`; `strptime` for `%Y-%m-%d` and `%Y%m` as CPython's regular expressions match them |
| `calendar.dfy` | `Calendar` | the schedule record, `ymd_to_ics`, `build_uid`, `build_event`, `build_calendar` |
| `routing.dfy` | `Routing` | the per-record loop of both `main`s: build the event, read SE_CD, file it; the two files written |
| `ipo_script.dfy` | `IpoScript` | `parse_month_input` and `main` of `generate_ipo.py` |
| `ics_script.dfy` | `IcsScript` | `target_months` and `main` of `generate_ics.py` |

The two scripts contain copies of `ymd_to_ics`, `build_uid`, `build_event`
and `build_calendar`, and each is modelled once. `generate_ics.py` builds the
event block with one triple-quoted f-string (lines 92-101).
`generate_ipo.py` concatenates literals (lines 76-86). Both give the same
nine lines, each ending in one newline character. The model builds the
block as `JoinLines` of those nine lines. It builds the calendar as the
four header lines, the events in order, and `END:VCALENDAR`.

A schedule record holds, for each API key, the text the f-string prints for
its value. BGNG_YMD and END_YMD are taken to be JSON strings, because
`str.replace` and `strptime` are applied to them. SE_CD is kept as present or absent, because the two scripts
differ there:

- `generate_ipo.py` reads it with `item.get("SE_CD")`, so a record without it is built and then dropped.
- `generate_ics.py` reads it with `item["SE_CD"]`, so such a record raises `KeyError` and ends the run.

An exception always ends the run before any file is written. The two file
texts are modelled as a `Result`.

The clocks become parameters:

- `date.today()` is a `Date` argument.
- `datetime.utcnow()` is a function from event number to a reading. The
  `n`-th built event gets `clock(n)`. `build_event` computes DTEND before
  it reads the clock, so a failing record consumes no reading.

`fetch_calendar` is a function from month token to records.

## Model

| member | source | states |
|---|---|---|
| Calendar.YmdToIcs | scripts/generate_ipo.py:48-49 | the result has no dash |
| Calendar.YmdToIcsKeeps | scripts/generate_ipo.py:48-49 | every character other than a dash occurs in the result exactly as often as in the input |
| Calendar.YmdToIcsAppend | scripts/generate_ipo.py:48-49 | dash removal works piece by piece, so the kept characters stay in order |
| Calendar.YmdToIcsDashed | scripts/generate_ipo.py:48-49 | on a date printed as `YYYY-MM-DD` it gives the eight digits `strftime("%Y%m%d")` prints for that date |
| Calendar.BuildUid | scripts/generate_ipo.py:52-53 | every identifier ends in `@ipo-calendar.github` |
| Calendar.UidRoundTrip | scripts/generate_ipo.py:52-53 | the identifier reads back into IPO_SN, SCHDL_SE_CD and IPO_DATE when the first two hold no dash |
| Calendar.UidInjective | scripts/generate_ipo.py:52-53 | when neither record's IPO_SN or SCHDL_SE_CD holds a dash, two records share an identifier only if they agree on IPO_SN, SCHDL_SE_CD and IPO_DATE |
| Calendar.CategoryLabel | scripts/generate_ipo.py:57-58 | the label is `청약` exactly when SCHDL_SE_CD is `S`, and `상장` for every other code |
| Calendar.EndPlusOne | scripts/generate_ipo.py:63 | DTEND exists exactly when END_YMD parses and is not 9999-12-31; a parse error is passed on unchanged; the result is valid, later, and has the next day ordinal |
| Calendar.DtEndIsNextDay | scripts/generate_ipo.py:63 | for any valid date printed as `YYYY-MM-DD`, DTEND is its Gregorian successor |
| Calendar.DtEndRollover | scripts/generate_ipo.py:63 | 28 February is followed by 29 February in leap years and by 1 March otherwise; 31 December by 1 January of the next year; 9999-12-31 raises `OverflowError` |
| Calendar.BuildEvent | scripts/generate_ipo.py:56-86 | `build_event` raises exactly when reading END_YMD or adding the day raises, and then with that exception |
| Calendar.EventLinesNoNewlines | scripts/generate_ipo.py:76-86 | no line of the block contains a newline of its own when no copied value does: the stamp, the dates and the description are newline-free |
| Calendar.EventBlockLines | scripts/generate_ipo.py:76-86 | the block reads back as nine lines: BEGIN:VEVENT, UID, DTSTAMP, DTSTART, DTEND (the day after END_YMD), SUMMARY (ENT_NM verbatim), DESCRIPTION, CATEGORIES, END:VEVENT |
| Calendar.DescriptionSixFields | scripts/generate_ipo.py:65-74 | the description always has all six labelled fields in order, with no value filtered out (`공모가: 0원` stays); cutting it at `\n` gives the fields back |
| Calendar.Description | scripts/generate_ipo.py:65-74 | the first field of the description is always `구분: ` and the category label |
| Calendar.CategoryAgrees | scripts/generate_ipo.py:56-86 | the first description field and the CATEGORIES line carry the same label |
| Calendar.EventLinesOneBegin | scripts/generate_ipo.py:76-86 | only the first of an event's nine lines is `BEGIN:VEVENT` |
| Calendar.BuildCalendar | scripts/generate_ipo.py:89-97 | the calendar is the four-line preamble, then the events with nothing between them, then `END:VCALENDAR` and a newline |
| Calendar.CalendarFrameText | scripts/generate_ipo.py:90-96 | the preamble is BEGIN:VCALENDAR, VERSION:2.0, the PRODID and CALSCALE:GREGORIAN, each on its own line, and the terminator is one line |
| Calendar.FrameNoEventBegin | scripts/generate_ipo.py:90-96 | no line of the preamble or the terminator is `BEGIN:VEVENT` |
| Calendar.ConcatJoinLines | scripts/generate_ipo.py:95 | joining event blocks with nothing between gives all their lines, in order, each with its newline |
| Calendar.CalendarLines | scripts/generate_ipo.py:89-97 | the calendar reads back as the four header lines, every event's lines in the given order, then `END:VCALENDAR` |
| Calendar.CalendarEventCount | scripts/generate_ipo.py:89-97 | when no copied value of any record contains a newline, a calendar of `n` event blocks has exactly `n` BEGIN:VEVENT lines |
| Text.SplitJoinEscaped | scripts/generate_ipo.py:74 | `"\\n".join` is undone by cutting at each backslash-n pair when no field contains one |
| Text.SplitJoinLines | scripts/generate_ipo.py:76-86 | newline-free lines, each written with its newline, read back as the same lines |
| Text.JoinSplitLines | scripts/generate_ipo.py:89-97 | a text that ends in a newline is the join of its own lines |
| Text.PadDigits | scripts/generate_ipo.py:63 | zero-padded printing has exactly the requested width, is all digits, and denotes the number whenever it fits |
| DateText.FormatCompact | scripts/generate_ipo.py:63 | `%Y%m%d` prints eight digits from which a valid date's year, month and day read back |
| DateText.FormatDashed | scripts/generate_ipo.py:63 | `%Y-%m-%d` prints four, two and two digits separated by dashes |
| DateText.MonthToken | scripts/generate_ipo.py:129 | `%Y.%m` prints four digits, a dot and two digits, from which a month of a year 0–9999 reads back |
| DateText.FirstMonthWithDay | scripts/generate_ipo.py:63 | the month alternative chosen is one that `-` and a day match follow, and the day is the first day alternative there |
| DateText.MatchYmd | scripts/generate_ipo.py:63 | a match of `%Y-%m-%d` reads a year of at most four digits, a month 1–12 and a day 1–31 |
| DateText.MatchYmdMonth | scripts/generate_ipo.py:63 | a match reads the four year digits and the month field up to the second dash |
| DateText.MatchYmdDay | scripts/generate_ipo.py:63 | a match reaches the end of the text exactly when a whole day field follows the dash after its month, and then reads that day |
| DateText.FormatStamp | scripts/generate_ipo.py:79 | DTSTAMP is 16 characters: the `%Y%m%d` date, `T`, six digits, `Z`, from which the hour, minute and second read back whenever each is below 100 |
| DateText.ParseYmd | scripts/generate_ipo.py:63 | whatever `strptime(END_YMD, "%Y-%m-%d")` accepts is a valid date |
| DateText.MatchYmdSound | scripts/generate_ipo.py:63 | a `%Y-%m-%d` match that consumes the whole text reads its year, month and day fields |
| DateText.MatchYmdComplete | scripts/generate_ipo.py:63 | text made of a year, a month field and a day field separated by dashes is matched in full, backtracking in `%m` where needed |
| DateText.ParseYmdFields | scripts/generate_ipo.py:63 | `strptime` accepts exactly four year digits, a dash, a one- or two-digit month 1–12, a dash and a day (one or two digits, or a space and a digit) that exists in that month of a year 1–9999, and yields that date |
| DateText.FormatDashedParses | scripts/generate_ipo.py:63 | reading back a date printed as `%Y-%m-%d` gives the same date |
| DateText.ParseYearMonth | scripts/generate_ipo.py:125 | `strptime(raw, "%Y%m")` accepts exactly four digits other than 0000 followed by a month 1–12 of one or two digits, and yields their values |
| Gregorian.NextDay | scripts/generate_ipo.py:63 | the successor exists exactly below 9999-12-31, is valid and later, and otherwise `OverflowError` is raised |
| Gregorian.NextDayOrdinal | scripts/generate_ipo.py:63 | the successor has the next `toordinal()` |
| Gregorian.PrevDay | scripts/generate_ics.py:51 | the predecessor exists exactly above 0001-01-01, is valid and earlier, and otherwise `OverflowError` is raised |
| Gregorian.PrevNextInverse | scripts/generate_ics.py:51 | one day back and one day forward, or the reverse, is the identity |
| Gregorian.PrevDayOrdinal | scripts/generate_ics.py:51 | the predecessor has the previous `toordinal()` |
| Gregorian.AddDays | scripts/generate_ics.py:52 | adding days yields a valid date or raises `OverflowError` |
| Gregorian.AddDaysOrdinal | scripts/generate_ics.py:52 | adding `n` days succeeds exactly when the ordinal plus `n` is still in range, and lands on that ordinal |
| Gregorian.OrdinalInjective | scripts/generate_ics.py:52 | distinct valid dates have distinct ordinals, so `fromordinal` has one answer |
| Gregorian.AddDaysLands | scripts/generate_ics.py:52 | adding `n` days reaches the valid day whose ordinal is `n` more |
| Gregorian.OrdinalMonotone | scripts/generate_ics.py:52 | the ordinal increases with the date |
| IcsScript.PrevDayFromFirst | scripts/generate_ics.py:51 | the day before the first of a month lies in the previous month; only January of year 1 overflows |
| IcsScript.AddMonthFromFirst | scripts/generate_ics.py:52 | 32 days after the first of a month is day `33 - n` of the next month, where `n` is the length of this month; only December 9999 overflows |
| IcsScript.AddMonthWithinYear | scripts/generate_ics.py:52 | from the first of January to November, 32 days later is day `33 - n` of the next month |
| IcsScript.AddMonthDecember | scripts/generate_ics.py:52 | from the first of December, 32 days later is 2 January of the next year, and after 9999 it overflows |
| IcsScript.PrevMonth | scripts/generate_ics.py:51 | the previous calendar month has month index one less |
| IcsScript.NextMonth | scripts/generate_ics.py:52 | the next calendar month has month index one more |
| IcsScript.Neighbours | scripts/generate_ics.py:49-52 | both neighbour dates exist exactly outside 0001-01 and 9999-12, and lie in the months with index one less and one more |
| IcsScript.TargetMonths | scripts/generate_ics.py:48-58 | the tokens of the previous, current and next calendar month, rolling over the year in January and December; `OverflowError` exactly in 0001-01 and 9999-12 |
| IcsScript.FetchAllAppend | scripts/generate_ics.py:147-149 | fetching two lists of months is fetching each in turn |
| IcsScript.MonthLoop | scripts/generate_ics.py:147-157 | the nested month and record loops equal one run of the record loop over all fetched records, with `item["SE_CD"]` |
| IcsScript.GenerateIcs | scripts/generate_ics.py:139-163 | `main` raises `OverflowError` at the range ends, and otherwise writes the calendars of that single loop over the three months' records |
| IcsScript.FetchAllCount | scripts/generate_ics.py:147-157 | the records with a given SE_CD over all months number the sum of each month's |
| IcsScript.NoDeduplication | scripts/generate_ics.py:147-157 | each file gets one event per matching record of each month, so a schedule the API returns for two months is written twice |
| IpoScript.ParseMonthInput | scripts/generate_ipo.py:123-129 | accepts exactly four year digits other than 0000 followed by a month 1–12 of one or two digits, answers `YYYY.MM`, and otherwise raises the one fixed `ValueError` |
| IpoScript.MonthInputRoundTrip | scripts/generate_ipo.py:123-129 | typing any month as `yyyymm`, or as `yyyym` for a one-digit month, gives that month's token |
| IpoScript.MonthInputAccepts | scripts/generate_ipo.py:123-129 | `202401` and `20241` both give `2024.01` |
| IpoScript.MonthInputRejects | scripts/generate_ipo.py:123-129 | `202413`, `000012` and `2024-01` raise the fixed message |
| IpoScript.MonthTokenInjective | scripts/generate_ipo.py:129 | distinct months have distinct tokens |
| IpoScript.GenerateIpo | scripts/generate_ipo.py:151-179 | `main` raises the input error for a bad answer, and otherwise writes the calendars of the record loop over that month's records, with `item.get("SE_CD")` |
| Routing.ReadCode | scripts/generate_ipo.py:167-169 | `.get` always yields the code or nothing; `[]` raises `KeyError('SE_CD')` exactly when the key is absent |
| Routing.Step | scripts/generate_ics.py:151-157 | a record passes the loop body exactly when it builds and its SE_CD can be read; a build failure is reported before a missing key |
| Routing.Route | scripts/generate_ipo.py:164-170 | the two lists together never hold more events than there are records |
| Routing.RouteOkIff | scripts/generate_ics.py:151-157 | the loop completes exactly when every record builds and, under `item["SE_CD"]`, every record has the key |
| Routing.RouteFirstError | scripts/generate_ics.py:151-157 | a failing loop raises the exception of the first failing record, after every earlier record succeeded |
| Routing.RouteCounts | scripts/generate_ipo.py:164-170 | `ipo.ics` gets as many events as there are `IPO` records, and `spac.ics` as many as there are `SPAC` records |
| Routing.RouteBucket | scripts/generate_ipo.py:164-170 | each list the loop fills is exactly the events of the records with that SE_CD, in record order (the reference definition `Picked`) |
| Routing.PickedOrder | scripts/generate_ipo.py:164-170 | when every record builds, the event of the `k`-th record with a code sits at the position counting the earlier records with that code |
| Routing.RouteOrder | scripts/generate_ipo.py:164-170 | the event of each `IPO` (or `SPAC`) record sits at the position given by the number of earlier records with that code, so each list holds exactly those events in record order |
| Routing.RouteAppend | scripts/generate_ics.py:147-157 | running the loop over two record lists in turn is running it over their concatenation, with the event counter carried on |
| Routing.RouteSnoc | scripts/generate_ics.py:151-157 | one more record runs the loop body once more, as the next event |
| Routing.RouteErrorAt | scripts/generate_ics.py:151-157 | a record that raises after an error-free prefix decides the whole loop's exception |
| Routing.ThenAssoc | scripts/generate_ics.py:147-157 | appending runs is associative, with the first exception winning |
| Routing.LookupsAgree | scripts/generate_ipo.py:167-170 | when every record has SE_CD, `.get` and `[]` route identically |
| Routing.RouteLoop | scripts/generate_ipo.py:161-170 | the imperative loop appending to existing lists ends with exactly the lists, or the exception, that the loop definition gives |
| Routing.WrittenFiles | scripts/generate_ipo.py:161-176 | when the loop raises nothing, `ipo.ics` is the calendar of the events of the records with SE_CD `IPO` in record order and `spac.ics` that of the `SPAC` records; otherwise nothing is written and the exception propagates |

`scripts/generate_ics.py` lines 64-65, 67-68, 70-101 and 103-111 are the
same functions as `scripts/generate_ipo.py` lines 48-49, 52-53, 56-86 and
89-97, and the rows above cover both copies.

## Left out

- `fetch_calendar` (`generate_ipo.py` 105-115, `generate_ics.py` 117-133): HTTP session, headers, cookie, cache-busting timestamp and `raise_for_status`. The records a month yields are a function parameter.
- `ask_month` (`generate_ipo.py` 132-143): console prompt, `strip`, the empty-answer message and `sys.exit`. The model starts from the stripped answer, and a rejected answer is the `ValueError` result.
- The `mkdir`, `write_text` and `print` calls in both `main`s: file-system and console effects. Their result is the pair of file texts.
- `date.today()` and `datetime.utcnow()`: clocks, passed in as parameters.
- Missing keys other than SE_CD: every other key is assumed present. The `KeyError` they would raise is not modelled.
- Calendar.BuildEvent: BGNG_YMD and END_YMD are assumed to be JSON strings. A null or a number there makes `str.replace` raise `AttributeError` (`generate_ipo.py` 49) or `strptime` raise `TypeError` (line 63), and those exceptions are not modelled. Every other value is used only through the text `str()` prints for it, and the record holds that text.
- `\d` in CPython's `strptime` also matches non-ASCII decimal digits; the model reads ASCII digits only.
- `strftime("%Y")` pads years below 1000 to four digits on some platforms and not on others; the model always pads to four.
- The `ValueError` texts of `strptime` name the offending input. The model keeps a short fixed reason per failure kind: no match, unconverted data, year 0, day out of range.
- iCalendar conformance: the event lemmas describe the text the scripts produce, not whether it is valid iCalendar. The scripts do not escape `,`, `;` or `\` in values (section 3.3.11 of RFC 5545). They do not fold lines longer than 75 octets, and they end lines with `\n` rather than CRLF (section 3.1 of RFC 5545). They keep zero and placeholder values in the description. They do not merge with an existing calendar file. None of these is modelled.
- Calendar.UidRoundTrip: requires IPO_SN and SCHDL_SE_CD without a dash. With a dash in them the identifier does not determine the fields, and the source does not guard against that.
- Calendar.CategoryAgrees: requires that no copied value contains a newline, as Calendar.EventBlockLines does, because it reads the two labels off the block's lines.
- Calendar.UidInjective: requires IPO_SN and SCHDL_SE_CD without a dash, like Calendar.UidRoundTrip. Serial `1-S` with code `x` and serial `1` with code `S-x` give the same identifier for the same IPO_DATE.
- Calendar.CalendarEventCount: requires that no copied value contains a newline. An ENT_NM ending in a newline and `BEGIN:VEVENT` adds a second such line to its block.
- Calendar.EventBlockLines: requires that no copied value contains a newline. A value with a newline breaks a line, and the source does not guard against that.
- Calendar.DescriptionSixFields: requires that no value contains the two-character separator. Such a value would split into extra fields on reading back.
