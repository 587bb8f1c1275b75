/**
 The iCalendar text both scripts build from schedule records. In
 `scripts/generate_ipo.py` and `scripts/generate_ics.py`, `ymd_to_ics`,
 `build_uid`, `build_event` and `build_calendar` are copies of each other.
 The first builds the event block by concatenating string literals and the
 second with one triple-quoted f-string, but both produce the same text. They
 are defined once here.

 Values go into the text verbatim. There is no escaping of `,`, `;` or `\`,
 no folding of long lines, and no filtering of empty or zero values. Lines end
 in a single newline character.
 */
module Calendar {
  import opened Results
  import opened Text
  import opened Gregorian
  import opened DateText

  /** `CALENDAR_DOMAIN`, the right-hand side of every event identifier. */
  const Domain: string := "ipo-calendar.github"

  /**
   One element of the API's `data` array. Each field holds the text Python's
   f-string prints for the JSON value (`str(value)`): a JSON null prints
   `None`, a number its decimal form. Comparing that text with `"S"` or `"IPO"`
   gives the same answer as comparing the JSON value itself. BGNG_YMD and
   END_YMD are not only printed: `str.replace` and `strptime` need a string,
   so those two are taken to be JSON strings.
   */
  datatype Record = Record(
    name: string,                // ENT_NM, the company name
    category: Option<string>,    // SE_CD, "IPO" or "SPAC"; None when the key is absent
    phase: string,               // SCHDL_SE_CD, "S" for a subscription window
    serial: string,              // IPO_SN, the schedule's sequence number
    ipoDate: string,             // IPO_DATE
    beginYmd: string,            // BGNG_YMD, first day, YYYY-MM-DD
    endYmd: string,              // END_YMD, last day (inclusive), YYYY-MM-DD
    offerPrice: string,          // PSS_PRC
    institutionalRatio: string,  // INST_CMPET_RT, institutional demand competition ratio
    lockupRatio: string,         // DUTY_HOLD_DFPR_RT, lock-up commitment ratio
    retailRatio: string,         // SCSCS_CMPET_RT, general subscription competition ratio
    leadManager: string          // INDCT_JUGANSA_NM, lead underwriter
  )

  // ---------------------------------------------------------------------------
  // ymd_to_ics
  // ---------------------------------------------------------------------------

  /** `d.replace("-", "")`: every dash removed, every other character kept. */
  function YmdToIcs(s: string): (r: string)
    ensures '-' !in r
  {
    if |s| == 0 then ""
    else (if s[0] == '-' then "" else [s[0]]) + YmdToIcs(s[1..])
  }

  /** Every character other than a dash is kept as often as it occurs. */
  lemma {:induction false} YmdToIcsKeeps(s: string)
    ensures forall c :: c != '-' ==> multiset(YmdToIcs(s))[c] == multiset(s)[c]
  {
    if |s| > 0 {
      YmdToIcsKeeps(s[1..]);
      assert s == [s[0]] + s[1..];
    }
  }

  /** Removing dashes works piece by piece, so the kept characters stay in their order. */
  lemma {:induction false} YmdToIcsAppend(a: string, b: string)
    ensures YmdToIcs(a + b) == YmdToIcs(a) + YmdToIcs(b)
  {
    if |a| == 0 {
      assert a + b == b;
    } else {
      var ab := a + b;
      assert ab[0] == a[0] && ab[1..] == a[1..] + b;
      YmdToIcsAppend(a[1..], b);
      var head: string := if a[0] == '-' then "" else [a[0]];
      var x, y := YmdToIcs(a[1..]), YmdToIcs(b);
      assert YmdToIcs(ab) == head + (x + y);
      assert YmdToIcs(a) == head + x;
      assert head + (x + y) == (head + x) + y;
    }
  }

  /** Text without dashes is left unchanged. */
  lemma {:induction false} YmdToIcsNoDash(s: string)
    requires '-' !in s
    ensures YmdToIcs(s) == s
  {
    if |s| > 0 {
      YmdToIcsNoDash(s[1..]);
      assert s == [s[0]] + s[1..];
    }
  }

  /** A leading dash is dropped. */
  lemma DashDropped(t: string)
    ensures YmdToIcs("-" + t) == YmdToIcs(t)
  {
    var s := "-" + t;
    assert s[0] == '-' && s[1..] == t;
  }

  /** Digits, a dash and more text: the digits are kept and the dash dropped. */
  lemma DigitsThenDash(digits: string, t: string)
    requires AllDigits(digits)
    ensures YmdToIcs(digits + ("-" + t)) == digits + YmdToIcs(t)
  {
    NotInDigits(digits, '-');
    YmdToIcsAppend(digits, "-" + t);
    YmdToIcsNoDash(digits);
    DashDropped(t);
  }

  /** A `YYYY-MM-DD` date becomes the eight digits `YYYYMMDD`, the same text `strftime("%Y%m%d")` prints. */
  lemma YmdToIcsDashed(d: Date)
    ensures YmdToIcs(FormatDashed(d)) == FormatCompact(d)
    ensures |YmdToIcs(FormatDashed(d))| == 8 && AllDigits(YmdToIcs(FormatDashed(d)))
  {
    var y, m, dd := PadDigits(d.year, 4), PadDigits(d.month, 2), PadDigits(d.day, 2);
    assert FormatDashed(d) == y + ("-" + (m + ("-" + dd)));
    DigitsThenDash(m, dd);
    NotInDigits(dd, '-');
    YmdToIcsNoDash(dd);
    DigitsThenDash(y, m + ("-" + dd));
    assert YmdToIcs(FormatDashed(d)) == y + (m + dd);
    assert FormatCompact(d) == y + (m + dd);
    DigitsAppend(m, dd);
    DigitsAppend(y, m + dd);
  }

  // ---------------------------------------------------------------------------
  // build_uid
  // ---------------------------------------------------------------------------

  const UidSuffix: string := "@" + Domain

  /** `f"{IPO_SN}-{SCHDL_SE_CD}-{IPO_DATE}@{CALENDAR_DOMAIN}"`. */
  function BuildUid(rec: Record): (uid: string)
    ensures |uid| >= |UidSuffix| && uid[|uid| - |UidSuffix|..] == UidSuffix
  {
    rec.serial + "-" + rec.phase + "-" + rec.ipoDate + UidSuffix
  }

  /** Reads an identifier back into its sequence number, phase code and date. */
  function ParseUid(uid: string): Option<(string, string, string)> {
    if |uid| < |UidSuffix| || uid[|uid| - |UidSuffix|..] != UidSuffix then None
    else
      var body := uid[..|uid| - |UidSuffix|];
      var i := IndexOf(body, '-');
      if i == |body| then None
      else
        var rest := body[i + 1..];
        var j := IndexOf(rest, '-');
        if j == |rest| then None
        else Some((body[..i], rest[..j], rest[j + 1..]))
  }

  /**
   The identifier can be read back when the sequence number and phase code
   hold no dash (the date may: `2024-03-04`), so it names one schedule entry.
   */
  lemma UidRoundTrip(rec: Record)
    requires '-' !in rec.serial && '-' !in rec.phase
    ensures ParseUid(BuildUid(rec)) == Some((rec.serial, rec.phase, rec.ipoDate))
  {
    var uid := BuildUid(rec);
    var rest := rec.phase + ['-'] + rec.ipoDate;
    var body := rec.serial + ['-'] + rest;
    assert uid == body + UidSuffix;
    assert uid[..|uid| - |UidSuffix|] == body;
    IndexOfSplit(rec.serial, '-', rest);
    assert body[|rec.serial| + 1..] == rest;
    IndexOfSplit(rec.phase, '-', rec.ipoDate);
    assert body[..|rec.serial|] == rec.serial;
    assert rest[..|rec.phase|] == rec.phase;
    assert rest[|rec.phase| + 1..] == rec.ipoDate;
  }

  /** Two records get the same identifier only if they agree on the three fields it is made of. */
  lemma UidInjective(a: Record, b: Record)
    requires '-' !in a.serial && '-' !in a.phase && '-' !in b.serial && '-' !in b.phase
    requires BuildUid(a) == BuildUid(b)
    ensures a.serial == b.serial && a.phase == b.phase && a.ipoDate == b.ipoDate
  {
    UidRoundTrip(a);
    UidRoundTrip(b);
  }

  // ---------------------------------------------------------------------------
  // build_event
  // ---------------------------------------------------------------------------

  /** The two category labels: subscription window and listing day. */
  const Subscription: string := "청약"
  const Listing: string := "상장"

  /** `"청약" if SCHDL_SE_CD == "S" else "상장"`. */
  function CategoryLabel(phase: string): (tag: string)
    ensures tag == Subscription <==> phase == "S"
    ensures tag == Listing <==> phase != "S"
  {
    if phase == "S" then Subscription else Listing
  }

  /** The six description fields, in order, each value printed as it came. */
  function DescriptionFields(rec: Record): seq<string> {
    [ "구분: " + CategoryLabel(rec.phase),
      "공모가: " + rec.offerPrice + "원",
      "기관 경쟁률: " + rec.institutionalRatio,
      "의무보유확약률: " + rec.lockupRatio + "%",
      "일반청약 경쟁률: " + rec.retailRatio,
      "주관사: " + rec.leadManager ]
  }

  /**
   `"\\n".join(desc)`: the fields separated by a backslash and an `n`. Whatever
   the values hold, the text up to the first separator is the category field.
   */
  function Description(rec: Record): (d: string)
    ensures SplitEscapedNewlines(d)[0] == "구분: " + CategoryLabel(rec.phase)
  {
    DescriptionFirstField(rec);
    JoinWith(DescriptionFields(rec), EscapedNewline)
  }

  /** The category field holds no separator, so cutting the joined fields stops right after it. */
  lemma DescriptionFirstField(rec: Record)
    ensures SplitEscapedNewlines(JoinWith(DescriptionFields(rec), EscapedNewline))[0]
      == "구분: " + CategoryLabel(rec.phase)
  {
    var fs := DescriptionFields(rec);
    var first := fs[0];
    assert first == "구분: " + "" + CategoryLabel(rec.phase);
    FieldNoPair("구분: ", "", CategoryLabel(rec.phase));
    var rest := JoinWith(fs[1..], EscapedNewline);
    var s := first + EscapedNewline + rest;
    assert JoinWith(fs, EscapedNewline) == s;
    FindEscapedNewlineSplit(first, rest);
    assert s[..|first|] == first;
  }

  /** The exclusive DTEND: `strptime(END_YMD, "%Y-%m-%d") + timedelta(days=1)`. */
  function EndPlusOne(endYmd: string): (r: Result<Date>)
    ensures r.Ok? <==> ParseYmd(endYmd).Ok? && ParseYmd(endYmd).value != LastDate
    ensures ParseYmd(endYmd).Err? ==> r == Err(ParseYmd(endYmd).error)
    ensures r.Ok? ==> Valid(r.value) && Before(ParseYmd(endYmd).value, r.value)
    ensures r.Ok? ==> Ordinal(r.value) == Ordinal(ParseYmd(endYmd).value) + 1
  {
    var end :- ParseYmd(endYmd);
    var next :- NextDay(end);
    NextDayOrdinal(end);
    Ok(next)
  }

  /** The nine lines of an event block, each without its newline. */
  function EventLines(rec: Record, stamp: Stamp, endPlus: Date): (ls: seq<string>) {
    [ "BEGIN:VEVENT",
      "UID:" + BuildUid(rec),
      "DTSTAMP:" + FormatStamp(stamp),
      "DTSTART;VALUE=DATE:" + YmdToIcs(rec.beginYmd),
      "DTEND;VALUE=DATE:" + FormatCompact(endPlus),
      "SUMMARY:" + rec.name,
      "DESCRIPTION:" + Description(rec),
      "CATEGORIES:" + CategoryLabel(rec.phase),
      "END:VEVENT" ]
  }

  /**
   `build_event(item)`, with the `datetime.utcnow()` reading passed in as
   `stamp`: the nine lines, each followed by a newline character. It raises
   what reading END_YMD or adding the day raises.
   */
  function BuildEvent(rec: Record, stamp: Stamp): (r: Result<string>)
    ensures r.Ok? <==> ParseYmd(rec.endYmd).Ok? && ParseYmd(rec.endYmd).value != LastDate
    ensures r.Err? ==> r.error == EndPlusOne(rec.endYmd).error
  {
    var endPlus :- EndPlusOne(rec.endYmd);
    Ok(JoinLines(EventLines(rec, stamp, endPlus)))
  }

  /** A built event is the nine lines joined, with DTEND from `EndPlusOne`. */
  lemma BuildEventText(rec: Record, stamp: Stamp)
    requires BuildEvent(rec, stamp).Ok?
    ensures EndPlusOne(rec.endYmd).Ok?
    ensures BuildEvent(rec, stamp).value == JoinLines(EventLines(rec, stamp, EndPlusOne(rec.endYmd).value))
  {
  }

  /** No value that is copied into a line holds a newline character. */
  predicate LineSafe(rec: Record) {
    && '\n' !in rec.name && '\n' !in rec.phase && '\n' !in rec.serial && '\n' !in rec.ipoDate
    && '\n' !in rec.beginYmd && '\n' !in rec.offerPrice && '\n' !in rec.institutionalRatio
    && '\n' !in rec.lockupRatio && '\n' !in rec.retailRatio && '\n' !in rec.leadManager
  }

  lemma {:induction false} NoNewlineJoinWith(parts: seq<string>, sep: string)
    requires '\n' !in sep && NoNewlines(parts)
    ensures '\n' !in JoinWith(parts, sep)
  {
    if |parts| > 1 {
      NoNewlineJoinWith(parts[1..], sep);
    }
  }

  lemma StampNoNewline(stamp: Stamp)
    ensures '\n' !in FormatStamp(stamp)
  {
    var t := FormatStamp(stamp);
    NotInDigits(t[..8], '\n');
    NotInDigits(t[9..15], '\n');
    assert t == t[..8] + t[8..9] + t[9..15] + t[15..];
  }

  lemma CompactNoNewline(d: Date)
    ensures '\n' !in FormatCompact(d)
  {
    NotInDigits(PadDigits(d.year, 4), '\n');
    NotInDigits(PadDigits(d.month, 2), '\n');
    NotInDigits(PadDigits(d.day, 2), '\n');
  }

  lemma DescriptionNoNewline(rec: Record)
    requires LineSafe(rec)
    ensures '\n' !in Description(rec)
  {
    NoNewlineJoinWith(DescriptionFields(rec), EscapedNewline);
  }

  lemma UidNoNewline(rec: Record)
    requires '\n' !in rec.serial && '\n' !in rec.phase && '\n' !in rec.ipoDate
    ensures '\n' !in BuildUid(rec)
  {
    assert '\n' !in UidSuffix;
  }

  lemma IcsDateNoNewline(s: string)
    requires '\n' !in s
    ensures '\n' !in YmdToIcs(s)
  {
    YmdToIcsKeeps(s);
    assert multiset(YmdToIcs(s))['\n'] == multiset(s)['\n'];
  }

  /** None of the values an event line is made of holds a newline character. */
  lemma ValuesNoNewline(rec: Record, stamp: Stamp, endPlus: Date)
    requires LineSafe(rec)
    ensures '\n' !in BuildUid(rec) && '\n' !in FormatStamp(stamp) && '\n' !in YmdToIcs(rec.beginYmd)
    ensures '\n' !in FormatCompact(endPlus) && '\n' !in Description(rec)
  {
    UidNoNewline(rec);
    StampNoNewline(stamp);
    IcsDateNoNewline(rec.beginYmd);
    CompactNoNewline(endPlus);
    DescriptionNoNewline(rec);
  }

  /** The fixed text of the event lines holds no newline character. */
  lemma TagsNoNewline()
    ensures '\n' !in "BEGIN:VEVENT" && '\n' !in "UID:" && '\n' !in "DTSTAMP:"
    ensures '\n' !in "DTSTART;VALUE=DATE:" && '\n' !in "DTEND;VALUE=DATE:"
    ensures '\n' !in "SUMMARY:" && '\n' !in "DESCRIPTION:" && '\n' !in "CATEGORIES:" && '\n' !in "END:VEVENT"
  {
  }

  lemma EventLinesNoNewlines(rec: Record, stamp: Stamp, endPlus: Date)
    requires LineSafe(rec)
    ensures NoNewlines(EventLines(rec, stamp, endPlus))
  {
    ValuesNoNewline(rec, stamp, endPlus);
    TagsNoNewline();
  }

  /**
   An event block is nine newline-terminated lines in a fixed order, from
   `BEGIN:VEVENT` to `END:VEVENT`. The summary is the company name as given,
   and DTEND is the day after END_YMD. This holds whenever no value carries a
   newline of its own.
   */
  lemma EventBlockLines(rec: Record, stamp: Stamp)
    requires LineSafe(rec)
    requires BuildEvent(rec, stamp).Ok?
    ensures var ls := SplitLines(BuildEvent(rec, stamp).value);
      && |ls| == 9 && ls[0] == "BEGIN:VEVENT" && ls[8] == "END:VEVENT"
      && ls[1] == "UID:" + BuildUid(rec)
      && ls[2] == "DTSTAMP:" + FormatStamp(stamp)
      && ls[3] == "DTSTART;VALUE=DATE:" + YmdToIcs(rec.beginYmd)
      && ls[4] == "DTEND;VALUE=DATE:" + FormatCompact(EndPlusOne(rec.endYmd).value)
      && ls[5] == "SUMMARY:" + rec.name
      && ls[6] == "DESCRIPTION:" + Description(rec)
      && ls[7] == "CATEGORIES:" + CategoryLabel(rec.phase)
  {
    var endPlus := EndPlusOne(rec.endYmd).value;
    var lines := EventLines(rec, stamp, endPlus);
    BuildEventText(rec, stamp);
    EventLinesNoNewlines(rec, stamp, endPlus);
    SplitJoinLines(lines);
    EventLinesFields(rec, stamp, endPlus);
  }

  lemma EventLinesFields(rec: Record, stamp: Stamp, endPlus: Date)
    ensures var ls := EventLines(rec, stamp, endPlus);
      && |ls| == 9 && ls[0] == "BEGIN:VEVENT" && ls[8] == "END:VEVENT"
      && ls[1] == "UID:" + BuildUid(rec)
      && ls[2] == "DTSTAMP:" + FormatStamp(stamp)
      && ls[3] == "DTSTART;VALUE=DATE:" + YmdToIcs(rec.beginYmd)
      && ls[4] == "DTEND;VALUE=DATE:" + FormatCompact(endPlus)
      && ls[5] == "SUMMARY:" + rec.name
      && ls[6] == "DESCRIPTION:" + Description(rec)
      && ls[7] == "CATEGORIES:" + CategoryLabel(rec.phase)
  {
  }

  lemma NoPairConcat(a: string, b: string)
    requires !HasEscapedNewline(a) && !HasEscapedNewline(b)
    requires |a| == 0 || |b| == 0 || a[|a| - 1] != '\\' || b[0] != 'n'
    ensures !HasEscapedNewline(a + b)
  {
    var s := a + b;
    forall i | 0 <= i < |s| - 1
      ensures !(s[i] == '\\' && s[i + 1] == 'n')
    {
      if i + 1 < |a| {
        assert s[i] == a[i] && s[i + 1] == a[i + 1];
      } else if i >= |a| {
        assert s[i] == b[i - |a|] && s[i + 1] == b[i - |a| + 1];
      }
    }
  }

  /** No value printed into the description holds a backslash followed by `n`. */
  predicate DescriptionSafe(rec: Record) {
    && !HasEscapedNewline(rec.offerPrice) && !HasEscapedNewline(rec.institutionalRatio)
    && !HasEscapedNewline(rec.lockupRatio) && !HasEscapedNewline(rec.retailRatio)
    && !HasEscapedNewline(rec.leadManager)
  }

  /** A field made of a label ending in a space, a value and an optional unit holds no separator. */
  lemma FieldNoPair(prefix: string, v: string, unit: string)
    requires |prefix| > 0 && prefix[|prefix| - 1] == ' ' && '\\' !in prefix
    requires '\\' !in unit && (|unit| == 0 || unit[0] != 'n') && !HasEscapedNewline(v)
    ensures !HasEscapedNewline(prefix + v + unit)
  {
    forall t: string | '\\' !in t ensures !HasEscapedNewline(t) {
      forall i | 0 <= i < |t| - 1 ensures t[i] != '\\' {
      }
    }
    NoPairConcat(prefix, v);
    NoPairConcat(prefix + v, unit);
  }

  /**
   The description always has exactly six fields, in a fixed order, each
   value printed as it came: an offer price of `0` or `-` prints as `0원` or
   `-원`, and nothing is left out. Cutting the description at the two-character
   separator gives the fields back whenever no value holds that separator itself.
   */
  lemma DescriptionSixFields(rec: Record)
    requires DescriptionSafe(rec)
    ensures SplitEscapedNewlines(Description(rec)) == DescriptionFields(rec)
    ensures |SplitEscapedNewlines(Description(rec))| == 6
    ensures SplitEscapedNewlines(Description(rec))[1] == "공모가: " + rec.offerPrice + "원"
  {
    var fs := DescriptionFields(rec);
    FieldNoPair("구분: ", "", CategoryLabel(rec.phase));
    FieldNoPair("공모가: ", rec.offerPrice, "원");
    FieldNoPair("기관 경쟁률: ", rec.institutionalRatio, "");
    FieldNoPair("의무보유확약률: ", rec.lockupRatio, "%");
    FieldNoPair("일반청약 경쟁률: ", rec.retailRatio, "");
    FieldNoPair("주관사: ", rec.leadManager, "");
    assert fs[0] == "구분: " + "" + CategoryLabel(rec.phase);
    assert fs[2] == "기관 경쟁률: " + rec.institutionalRatio + "";
    assert fs[4] == "일반청약 경쟁률: " + rec.retailRatio + "";
    assert fs[5] == "주관사: " + rec.leadManager + "";
    SplitJoinEscaped(fs);
  }

  /**
   The label in the first description field and in CATEGORIES is the same:
   `청약` exactly for phase code `S`, `상장` for every other code.
   */
  lemma CategoryAgrees(rec: Record, stamp: Stamp)
    requires LineSafe(rec)
    requires BuildEvent(rec, stamp).Ok?
    ensures var ls := SplitLines(BuildEvent(rec, stamp).value);
      && |ls| == 9
      && ls[7] == "CATEGORIES:" + CategoryLabel(rec.phase)
      && ls[6] == "DESCRIPTION:" + Description(rec)
      && SplitEscapedNewlines(Description(rec))[0] == "구분: " + CategoryLabel(rec.phase)
      && (CategoryLabel(rec.phase) == Subscription <==> rec.phase == "S")
  {
    EventBlockLines(rec, stamp);
  }

  /**
   For an END_YMD in the API's `YYYY-MM-DD` form, DTEND is the Gregorian
   successor: the next day of the month, the first of the next month, or
   1 January of the next year, and 9999-12-31 overflows.
   */
  lemma DtEndIsNextDay(d: Date)
    requires Valid(d)
    ensures EndPlusOne(FormatDashed(d)) == NextDay(d)
  {
    FormatDashedParses(d);
  }

  /** Month, year and leap-day rollover of DTEND. */
  lemma DtEndRollover(y: nat)
    requires MinYear <= y <= MaxYear
    ensures EndPlusOne(FormatDashed(Date(y, 2, 28)))
      == Ok(if IsLeapYear(y) then Date(y, 2, 29) else Date(y, 3, 1))
    ensures y < MaxYear ==> EndPlusOne(FormatDashed(Date(y, 12, 31))) == Ok(Date(y + 1, 1, 1))
    ensures y == MaxYear ==> EndPlusOne(FormatDashed(Date(y, 12, 31))) == Err(DateOutOfRange)
  {
    LeapDayRollover(y);
    YearRollover(y);
  }

  lemma LeapDayRollover(y: nat)
    requires MinYear <= y <= MaxYear
    ensures EndPlusOne(FormatDashed(Date(y, 2, 28)))
      == Ok(if IsLeapYear(y) then Date(y, 2, 29) else Date(y, 3, 1))
  {
    var d := Date(y, 2, 28);
    assert Valid(d);
    DtEndIsNextDay(d);
  }

  lemma YearRollover(y: nat)
    requires MinYear <= y <= MaxYear
    ensures EndPlusOne(FormatDashed(Date(y, 12, 31)))
      == if y < MaxYear then Ok(Date(y + 1, 1, 1)) else Err(DateOutOfRange)
  {
    var d := Date(y, 12, 31);
    assert Valid(d);
    DtEndIsNextDay(d);
  }

  // ---------------------------------------------------------------------------
  // build_calendar
  // ---------------------------------------------------------------------------

  const BeginCalendar: string := "BEGIN:VCALENDAR"
  const Version: string := "VERSION:2.0"
  const ProdId: string := "PRODID:-//IPO Calendar KR//EN"
  const CalScale: string := "CALSCALE:GREGORIAN"
  const HeaderLines: seq<string> := [BeginCalendar, Version, ProdId, CalScale]
  const FooterLine: string := "END:VCALENDAR"

  /** `"".join(events)`. */
  function Concat(events: seq<string>): string {
    if |events| == 0 then "" else events[0] + Concat(events[1..])
  }

  /** The preamble and the terminator as `build_calendar` spells them out, line by line. */
  const CalendarHead: string := BeginCalendar + "\n" + Version + "\n" + ProdId + "\n" + CalScale + "\n"
  const CalendarTail: string := FooterLine + "\n"

  lemma JoinFourLines(a: string, b: string, c: string, d: string)
    ensures JoinLines([a, b, c, d]) == a + "\n" + b + "\n" + c + "\n" + d + "\n"
  {
    var ls := [a, b, c, d];
    assert ls[1..] == [b, c, d] && ls[1..][1..] == [c, d] && ls[1..][1..][1..] == [d];
    assert [d][1..] == [];
    var nl := "\n";
    var jd := d + nl;
    assert JoinLines([d]) == d + nl + "" == jd;
    var jc := c + nl + jd;
    assert JoinLines([c, d]) == jc;
    assert jc == c + nl + d + nl;
    var jb := b + nl + jc;
    assert JoinLines([b, c, d]) == jb;
    assert jb == b + nl + c + nl + d + nl;
    assert JoinLines(ls) == a + nl + jb;
  }

  /** The header and footer lines, each given its newline, are exactly that text. */
  lemma CalendarFrameText()
    ensures JoinLines(HeaderLines) == CalendarHead
    ensures JoinLines([FooterLine]) == CalendarTail
  {
    JoinFourLines(BeginCalendar, Version, ProdId, CalScale);
    assert [FooterLine][1..] == [];
  }

  /**
   `build_calendar(events)`: the four preamble lines, the events in order, the
   terminator line. The text starts with the preamble and ends with
   `END:VCALENDAR` and a newline, and between them holds the events joined
   with nothing in between.
   */
  function BuildCalendar(events: seq<string>): (r: string)
    ensures |r| == |CalendarHead| + |Concat(events)| + |CalendarTail|
    ensures r[..|CalendarHead|] == CalendarHead
    ensures r[|CalendarHead|..|r| - |CalendarTail|] == Concat(events)
    ensures r[|r| - |CalendarTail|..] == CalendarTail
  {
    CalendarFrameText();
    JoinLines(HeaderLines) + Concat(events) + JoinLines([FooterLine])
  }

  function Flatten(lss: seq<seq<string>>): seq<string> {
    if |lss| == 0 then [] else lss[0] + Flatten(lss[1..])
  }

  lemma {:induction false} ConcatJoinLines(events: seq<string>, lss: seq<seq<string>>)
    requires |events| == |lss|
    requires forall i :: 0 <= i < |events| ==> events[i] == JoinLines(lss[i])
    ensures Concat(events) == JoinLines(Flatten(lss))
  {
    if |events| > 0 {
      ConcatJoinLines(events[1..], lss[1..]);
      JoinLinesAppend(lss[0], Flatten(lss[1..]));
    }
  }

  lemma {:induction false} FlattenNoNewlines(lss: seq<seq<string>>)
    requires forall i :: 0 <= i < |lss| ==> NoNewlines(lss[i])
    ensures NoNewlines(Flatten(lss))
  {
    if |lss| > 0 {
      FlattenNoNewlines(lss[1..]);
      var f := Flatten(lss);
      forall k | 0 <= k < |f| ensures '\n' !in f[k] {
        if k < |lss[0]| {
          assert f[k] == lss[0][k];
        } else {
          assert f[k] == Flatten(lss[1..])[k - |lss[0]|];
        }
      }
    }
  }

  /** The calendar is its header, event and terminator lines joined with newlines. */
  lemma CalendarJoin(events: seq<string>, lss: seq<seq<string>>)
    requires Concat(events) == JoinLines(Flatten(lss))
    ensures BuildCalendar(events) == JoinLines(HeaderLines + Flatten(lss) + [FooterLine])
  {
    JoinLinesAppend(HeaderLines + Flatten(lss), [FooterLine]);
    JoinLinesAppend(HeaderLines, Flatten(lss));
  }

  lemma FrameNoNewlines()
    ensures NoNewlines(HeaderLines) && NoNewlines([FooterLine])
  {
  }

  lemma CalendarLinesNoNewlines(lss: seq<seq<string>>)
    requires forall i :: 0 <= i < |lss| ==> NoNewlines(lss[i])
    ensures NoNewlines(HeaderLines + Flatten(lss) + [FooterLine])
  {
    FlattenNoNewlines(lss);
    FrameNoNewlines();
    NoNewlinesAppend(HeaderLines, Flatten(lss));
    NoNewlinesAppend(HeaderLines + Flatten(lss), [FooterLine]);
  }

  /**
   A calendar reads back as the four header lines, then every event's lines
   in the order the events were given, then `END:VCALENDAR`. With no events
   it is the header and the terminator alone.
   */
  lemma CalendarLines(events: seq<string>, lss: seq<seq<string>>)
    requires |events| == |lss|
    requires forall i :: 0 <= i < |events| ==> events[i] == JoinLines(lss[i]) && NoNewlines(lss[i])
    ensures SplitLines(BuildCalendar(events)) == HeaderLines + Flatten(lss) + [FooterLine]
  {
    ConcatJoinLines(events, lss);
    CalendarJoin(events, lss);
    CalendarLinesNoNewlines(lss);
    SplitJoinLines(HeaderLines + Flatten(lss) + [FooterLine]);
  }

  /** The number of lines equal to `line`. */
  function CountLine(ls: seq<string>, line: string): nat {
    if |ls| == 0 then 0 else (if ls[0] == line then 1 else 0) + CountLine(ls[1..], line)
  }

  lemma {:induction false} CountLineAppend(a: seq<string>, b: seq<string>, line: string)
    ensures CountLine(a + b, line) == CountLine(a, line) + CountLine(b, line)
  {
    if |a| == 0 {
      assert a + b == b;
    } else {
      assert (a + b)[1..] == a[1..] + b;
      CountLineAppend(a[1..], b, line);
    }
  }

  /** Lines that start with another character than `line` does are never counted. */
  lemma {:induction false} CountLineNone(ls: seq<string>, line: string)
    requires |line| > 0
    requires forall i :: 0 <= i < |ls| ==> |ls[i]| > 0 && ls[i][0] != line[0]
    ensures CountLine(ls, line) == 0
  {
    if |ls| > 0 {
      CountLineNone(ls[1..], line);
    }
  }

  /** Only the first of an event's nine lines is `BEGIN:VEVENT`: every other line starts with another letter. */
  lemma EventLinesOneBegin(rec: Record, stamp: Stamp, endPlus: Date)
    ensures CountLine(EventLines(rec, stamp, endPlus), "BEGIN:VEVENT") == 1
  {
    var ls := EventLines(rec, stamp, endPlus);
    var begin := "BEGIN:VEVENT";
    // The first letters of event lines 1 to 8: UID, DTSTAMP, DTSTART, DTEND, SUMMARY, DESCRIPTION, CATEGORIES, END.
    var heads := "UDDDSDCE";
    forall i | 1 <= i < 9
      ensures |ls[i]| > 0 && ls[i][0] == heads[i - 1]
    {
    }
    CountLineNone(ls[1..], begin);
    assert ls == [ls[0]] + ls[1..];
  }

  lemma {:induction false} FlattenCount(lss: seq<seq<string>>, line: string)
    requires forall i :: 0 <= i < |lss| ==> CountLine(lss[i], line) == 1
    ensures CountLine(Flatten(lss), line) == |lss|
  {
    if |lss| > 0 {
      FlattenCount(lss[1..], line);
      CountLineAppend(lss[0], Flatten(lss[1..]), line);
    }
  }

  /**
   A calendar built from event blocks has exactly one `BEGIN:VEVENT` line per
   block: no event is lost or split when the blocks are wrapped.
   */
  lemma CalendarEventCount(recs: seq<Record>, stamps: seq<Stamp>, events: seq<string>)
    requires |recs| == |stamps| == |events|
    requires forall i :: 0 <= i < |recs| ==> LineSafe(recs[i]) && BuildEvent(recs[i], stamps[i]) == Ok(events[i])
    ensures CountLine(SplitLines(BuildCalendar(events)), "BEGIN:VEVENT") == |events|
  {
    var lss := seq(|recs|, i requires 0 <= i < |recs| =>
      if BuildEvent(recs[i], stamps[i]).Ok?
      then EventLines(recs[i], stamps[i], EndPlusOne(recs[i].endYmd).value)
      else []);
    forall i | 0 <= i < |events|
      ensures events[i] == JoinLines(lss[i]) && NoNewlines(lss[i]) && CountLine(lss[i], "BEGIN:VEVENT") == 1
    {
      var endPlus := EndPlusOne(recs[i].endYmd).value;
      EventLinesNoNewlines(recs[i], stamps[i], endPlus);
      EventLinesOneBegin(recs[i], stamps[i], endPlus);
    }
    CalendarLines(events, lss);
    FlattenCount(lss, "BEGIN:VEVENT");
    CountLineAppend(HeaderLines + Flatten(lss), [FooterLine], "BEGIN:VEVENT");
    CountLineAppend(HeaderLines, Flatten(lss), "BEGIN:VEVENT");
    FrameNoEventBegin();
  }

  /** None of the calendar's own lines is `BEGIN:VEVENT`. */
  lemma FrameNoEventBegin()
    ensures CountLine(HeaderLines, "BEGIN:VEVENT") == 0
    ensures CountLine([FooterLine], "BEGIN:VEVENT") == 0
  {
    var begin := "BEGIN:VEVENT";
    var rest := HeaderLines[1..];
    assert rest == [Version, ProdId, CalScale];
    forall i | 0 <= i < |rest|
      ensures |rest[i]| > 0 && rest[i][0] != begin[0]
    {
    }
    CountLineNone(rest, begin);
    assert BeginCalendar[7] != begin[7];
    assert CountLine(HeaderLines, begin) == CountLine(rest, begin);
    CountLineNone([FooterLine][1..], begin);
    assert FooterLine[0] != begin[0];
  }
}
