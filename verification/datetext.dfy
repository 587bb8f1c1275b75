/**
 The two `datetime` text conversions the scripts use. `strftime` prints the
 directives `%Y`, `%m`, `%d`, `%H`, `%M`, `%S` as zero-padded numbers.
 `strptime` reads text with the regular expressions of CPython's `_strptime`,
 tried left to right with backtracking. It then requires the match to cover
 the whole text and builds a `date`, which rejects year 0 and a day past the
 end of its month. Each of these failures raises `ValueError`.
 */
module DateText {
  import opened Results
  import opened Text
  import opened Gregorian

  // ---------------------------------------------------------------------------
  // strftime
  // ---------------------------------------------------------------------------

  /**
   `d.strftime("%Y%m%d")`, the `VALUE=DATE` form of iCalendar: eight digits
   in which a valid date's year, month and day can be read back.
   */
  function FormatCompact(d: Date): (r: string)
    ensures |r| == 8 && AllDigits(r)
    ensures Valid(d) ==> Value(r[..4]) == d.year && Value(r[4..6]) == d.month && Value(r[6..]) == d.day
  {
    var y, m, dd := PadDigits(d.year, 4), PadDigits(d.month, 2), PadDigits(d.day, 2);
    DigitsAppend(y, m);
    DigitsAppend(y + m, dd);
    var r := y + m + dd;
    assert r[..4] == y && r[4..6] == m && r[6..] == dd;
    PadFits(d);
    r
  }

  /** A valid date's fields fit the widths `%Y`, `%m` and `%d` print them in. */
  lemma PadFits(d: Date)
    ensures Valid(d) ==> d.year < Pow10(4) && d.month < Pow10(2) && d.day < Pow10(2)
  {
    assert Pow10(2) == 100;
    assert Pow10(4) == 10000;
  }

  /**
   `d.strftime("%Y-%m-%d")`, the form the schedule API sends its dates in:
   digit fields of four, two and two, separated by dashes.
   */
  function FormatDashed(d: Date): (r: string)
    ensures |r| == 10 && r[4] == '-' && r[7] == '-'
    ensures AllDigits(r[..4]) && AllDigits(r[5..7]) && AllDigits(r[8..])
  {
    var y, m, dd := PadDigits(d.year, 4), PadDigits(d.month, 2), PadDigits(d.day, 2);
    var r := y + "-" + m + "-" + dd;
    assert r[..4] == y && r[5..7] == m && r[8..] == dd;
    r
  }

  /**
   `d.strftime("%Y.%m")` of any day `d` in the given month: the API's month
   token, four digits of year, a dot and two digits of month.
   */
  function MonthToken(year: nat, month: nat): (r: string)
    ensures |r| == 7 && r[4] == '.' && AllDigits(r[..4]) && AllDigits(r[5..])
    ensures year <= MaxYear && month <= 12 ==> Value(r[..4]) == year && Value(r[5..]) == month
  {
    var y, m := PadDigits(year, 4), PadDigits(month, 2);
    var r := y + "." + m;
    assert r[..4] == y && r[5..] == m;
    PadFits(Date(year, month, 1));
    r
  }

  /** A reading of the UTC clock, `datetime.utcnow()`, to the second. */
  datatype Stamp = Stamp(date: Date, hour: nat, minute: nat, second: nat)

  /** `t.strftime("%Y%m%dT%H%M%SZ")`, the iCalendar UTC date-time form. */
  function FormatStamp(t: Stamp): (r: string)
    ensures |r| == 16 && r[8] == 'T' && r[15] == 'Z'
    ensures AllDigits(r[..8]) && AllDigits(r[9..15])
    ensures AllDigits(r[9..11]) && AllDigits(r[11..13]) && AllDigits(r[13..15])
    ensures r[..8] == FormatCompact(t.date)
    ensures t.hour < 100 && t.minute < 100 && t.second < 100 ==>
      Value(r[9..11]) == t.hour && Value(r[11..13]) == t.minute && Value(r[13..15]) == t.second
  {
    var h, m, s := PadDigits(t.hour, 2), PadDigits(t.minute, 2), PadDigits(t.second, 2);
    var r := FormatCompact(t.date) + "T" + h + m + s + "Z";
    assert r[..8] == FormatCompact(t.date);
    assert r[9..11] == h && r[11..13] == m && r[13..15] == s;
    assert Pow10(2) == 100;
    r
  }

  // ---------------------------------------------------------------------------
  // The fields strptime accepts, stated declaratively
  // ---------------------------------------------------------------------------

  /** A month as `%m` reads it: one or two digits denoting 1 to 12. */
  predicate MonthField(t: string) {
    1 <= |t| <= 2 && AllDigits(t) && 1 <= Value(t) <= 12
  }

  /** A day as `%d` reads it: one or two digits denoting 1 to 31, or a space and a digit 1 to 9. */
  predicate DayField(t: string) {
    || (1 <= |t| <= 2 && AllDigits(t) && 1 <= Value(t) <= 31)
    || (|t| == 2 && t[0] == ' ' && '1' <= t[1] <= '9')
  }

  function DayFieldValue(t: string): nat
    requires DayField(t)
  {
    if t[0] == ' ' then DigitValue(t[1]) else Value(t)
  }

  // ---------------------------------------------------------------------------
  // strptime, as CPython's regular expressions match
  // ---------------------------------------------------------------------------

  /** One way a directive's pattern matches from some index: the number read and the end of the match. */
  datatype Match = Match(value: nat, end: nat)

  /** The matches of `%m`'s pattern `1[0-2]|0[1-9]|[1-9]` at index `i`, in the order they are tried. */
  function MonthMatches(s: string, i: nat): (ms: seq<Match>)
    ensures forall k :: 0 <= k < |ms| ==> 1 <= ms[k].value <= 12 && i < ms[k].end <= |s|
  {
    (if i + 1 < |s| && s[i] == '1' && '0' <= s[i + 1] <= '2'
     then [Match(10 + DigitValue(s[i + 1]), i + 2)] else [])
    + (if i + 1 < |s| && s[i] == '0' && '1' <= s[i + 1] <= '9'
       then [Match(DigitValue(s[i + 1]), i + 2)] else [])
    + (if i < |s| && '1' <= s[i] <= '9'
       then [Match(DigitValue(s[i]), i + 1)] else [])
  }

  /** The matches of `%d`'s pattern `3[01]|[12]\d|0[1-9]|[1-9]| [1-9]` at index `i`, in the order they are tried. */
  function DayMatches(s: string, i: nat): (ms: seq<Match>)
    ensures forall k :: 0 <= k < |ms| ==> 1 <= ms[k].value <= 31 && i < ms[k].end <= |s|
  {
    (if i + 1 < |s| && s[i] == '3' && '0' <= s[i + 1] <= '1'
     then [Match(30 + DigitValue(s[i + 1]), i + 2)] else [])
    + (if i + 1 < |s| && '1' <= s[i] <= '2' && IsDigit(s[i + 1])
       then [Match(10 * DigitValue(s[i]) + DigitValue(s[i + 1]), i + 2)] else [])
    + (if i + 1 < |s| && s[i] == '0' && '1' <= s[i + 1] <= '9'
       then [Match(DigitValue(s[i + 1]), i + 2)] else [])
    + (if i < |s| && '1' <= s[i] <= '9'
       then [Match(DigitValue(s[i]), i + 1)] else [])
    + (if i + 1 < |s| && s[i] == ' ' && '1' <= s[i + 1] <= '9'
       then [Match(DigitValue(s[i + 1]), i + 2)] else [])
  }

  /** What `%Y-%m-%d` matched: the year and the month and day matches. */
  datatype YmdMatch = YmdMatch(year: nat, month: Match, day: Match)

  /** A month match that `-` and a day match follow. */
  predicate DayFollows(s: string, m: Match) {
    m.end < |s| && s[m.end] == '-' && |DayMatches(s, m.end + 1)| > 0
  }

  /**
   The first month alternative after which `-` and a day match follow: the
   regular expression backtracks into `%m` when the rest fails after it.
   */
  function FirstMonthWithDay(s: string, ms: seq<Match>, year: nat): (r: Option<YmdMatch>)
    requires forall k :: 0 <= k < |ms| ==> 1 <= ms[k].value <= 12
    ensures r.Some? ==> 1 <= r.value.month.value <= 12 && 1 <= r.value.day.value <= 31
    ensures r.Some? ==> r.value.year == year
    ensures r.Some? ==> r.value.month in ms && DayFollows(s, r.value.month)
    ensures r.Some? ==> r.value.day == DayMatches(s, r.value.month.end + 1)[0]
    decreases |ms|
  {
    if |ms| == 0 then None
    else if DayFollows(s, ms[0]) then Some(YmdMatch(year, ms[0], DayMatches(s, ms[0].end + 1)[0]))
    else FirstMonthWithDay(s, ms[1..], year)
  }

  /** The regular expression of `%Y-%m-%d` matched from the start of `s` (`re.match`). */
  function MatchYmd(s: string): (r: Option<YmdMatch>)
    ensures r.Some? ==> 1 <= r.value.month.value <= 12 && 1 <= r.value.day.value <= 31
    ensures r.Some? ==> r.value.year <= MaxYear
  {
    if |s| < 5 || !AllDigits(s[..4]) || s[4] != '-' then None
    else
      ValueBound(s[..4]);
      FirstMonthWithDay(s, MonthMatches(s, 5), Value(s[..4]))
  }

  const NoMatch: PyError := ValueError("time data does not match format")
  const Unconverted: PyError := ValueError("unconverted data remains")
  const YearZero: PyError := ValueError("year 0 is out of range")
  const DayOutOfRange: PyError := ValueError("day is out of range for month")

  /** `datetime.strptime(s, "%Y-%m-%d")`, reduced to the date it denotes. */
  function ParseYmd(s: string): (r: Result<Date>)
    ensures r.Ok? ==> Valid(r.value)
  {
    match MatchYmd(s)
    case None => Err(NoMatch)
    case Some(m) =>
      if m.day.end != |s| then Err(Unconverted)
      else if m.year == 0 then Err(YearZero)
      else if m.day.value > DaysInMonth(m.year, m.month.value) then Err(DayOutOfRange)
      else Ok(Date(m.year, m.month.value, m.day.value))
  }

  /** `datetime.strptime(s, "%Y%m")`, reduced to the year and month it denotes. */
  function ParseYearMonth(s: string): (r: Result<(nat, nat)>)
    ensures r.Ok? <==> |s| >= 4 && AllDigits(s[..4]) && Value(s[..4]) >= 1 && MonthField(s[4..])
    ensures r.Ok? ==> r.value == (Value(s[..4]), Value(s[4..]))
  {
    if |s| < 4 || !AllDigits(s[..4]) then Err(NoMatch)
    else
      var ms := MonthMatches(s, 4);
      MonthFirstMatch(s, 4);
      if |ms| == 0 then Err(NoMatch)
      else if ms[0].end != |s| then Err(Unconverted)
      else if Value(s[..4]) == 0 then Err(YearZero)
      else Ok((Value(s[..4]), ms[0].value))
  }

  // ---------------------------------------------------------------------------
  // The matcher agrees with the declarative fields
  // ---------------------------------------------------------------------------

  lemma ValueOfTwo(t: string)
    requires |t| == 2 && AllDigits(t)
    ensures Value(t) == 10 * DigitValue(t[0]) + DigitValue(t[1])
  {
    assert t[..|t| - 1] == t[..1];
    ValueOfOne(t[..1]);
  }

  lemma ValueOfOne(t: string)
    requires |t| == 1 && AllDigits(t)
    ensures Value(t) == DigitValue(t[0])
  {
    assert t[..0] == "";
  }

  /** `%m`'s first alternative consumes the rest of `s` exactly when the rest is a month field. */
  lemma MonthFirstMatch(s: string, i: nat)
    requires i <= |s|
    ensures (|MonthMatches(s, i)| > 0 && MonthMatches(s, i)[0].end == |s|) <==> MonthField(s[i..])
    ensures MonthField(s[i..]) ==> MonthMatches(s, i)[0].value == Value(s[i..])
  {
    var t := s[i..];
    if |t| == 1 {
      assert t[0] == s[i];
      if AllDigits(t) {
        ValueOfOne(t);
      }
    } else if |t| == 2 {
      assert t[0] == s[i] && t[1] == s[i + 1];
      if AllDigits(t) {
        ValueOfTwo(t);
      }
    }
  }

  /** `%d`'s first alternative consumes the rest of `s` exactly when the rest is a day field. */
  lemma DayFirstMatch(s: string, i: nat)
    requires i <= |s|
    ensures (|DayMatches(s, i)| > 0 && DayMatches(s, i)[0].end == |s|) <==> DayField(s[i..])
    ensures DayField(s[i..]) ==> DayMatches(s, i)[0].value == DayFieldValue(s[i..])
  {
    var t := s[i..];
    if |t| == 1 {
      assert t[0] == s[i];
      if AllDigits(t) {
        ValueOfOne(t);
      }
    } else if |t| == 2 {
      assert t[0] == s[i] && t[1] == s[i + 1];
      if AllDigits(t) {
        ValueOfTwo(t);
      }
    }
  }

  /** `DayFirstMatch` for a named first day alternative `d` at index `i`. */
  lemma DayFirstMatchIs(s: string, i: nat, d: Match)
    requires i <= |s| && |DayMatches(s, i)| > 0 && DayMatches(s, i)[0] == d
    ensures d.end == |s| <==> DayField(s[i..])
    ensures DayField(s[i..]) ==> d.value == DayFieldValue(s[i..])
  {
    DayFirstMatch(s, i);
  }

  /** A month alternative followed by a dash ends at the dash after index 5, and reads the field before it. */
  lemma MonthMatchAtDash(s: string, k: nat)
    requires |s| >= 5
    requires k < |MonthMatches(s, 5)|
    requires MonthMatches(s, 5)[k].end < |s| && s[MonthMatches(s, 5)[k].end] == '-'
    ensures MonthMatches(s, 5)[k].end == SecondDash(s)
    ensures MonthField(s[5..SecondDash(s)])
    ensures MonthMatches(s, 5)[k].value == Value(s[5..SecondDash(s)])
  {
    var e := MonthMatches(s, 5)[k].end;
    var t := s[5..];
    assert t[e - 5] == '-';
    assert forall q :: 0 <= q < e - 5 ==> t[q] == s[5 + q] && IsDigit(s[5 + q]);
    var f := s[5..e];
    if e == 6 {
      assert f[0] == s[5];
      ValueOfOne(f);
    } else {
      assert f[0] == s[5] && f[1] == s[6];
      ValueOfTwo(f);
    }
  }

  /** Every month field running up to a dash is matched by some month alternative. */
  lemma MonthMatchAtField(s: string)
    requires |s| >= 5 && SecondDash(s) < |s| && MonthField(s[5..SecondDash(s)])
    ensures exists k :: 0 <= k < |MonthMatches(s, 5)| && MonthMatches(s, 5)[k].end == SecondDash(s)
  {
    var j := SecondDash(s);
    var f := s[5..j];
    var ms := MonthMatches(s, 5);
    assert s[j] == '-';
    if |f| == 1 {
      assert f[0] == s[5];
      ValueOfOne(f);
      assert ms[|ms| - 1].end == j;
    } else {
      assert f[0] == s[5] && f[1] == s[6];
      ValueOfTwo(f);
      assert ms[0].end == j;
    }
  }

  lemma {:induction false} FirstMonthWithDayFinds(s: string, ms: seq<Match>, year: nat, k: nat)
    requires forall q :: 0 <= q < |ms| ==> 1 <= ms[q].value <= 12
    requires k < |ms| && DayFollows(s, ms[k])
    ensures FirstMonthWithDay(s, ms, year).Some?
  {
    if k > 0 && !DayFollows(s, ms[0]) {
      FirstMonthWithDayFinds(s, ms[1..], year, k - 1);
    }
  }

  /** The index of the dash that ends the month field. */
  function SecondDash(s: string): (j: nat)
    requires |s| >= 5
    ensures 5 <= j <= |s|
  {
    5 + IndexOf(s[5..], '-')
  }

  /** `s` reads as four digits, a dash, a month field, a dash and a day field. */
  predicate YmdText(s: string) {
    && |s| >= 5 && AllDigits(s[..4]) && s[4] == '-'
    && SecondDash(s) < |s|
    && MonthField(s[5..SecondDash(s)])
    && DayField(s[SecondDash(s) + 1..])
  }

  /** The date the fields of `s` denote (not necessarily a valid one). */
  function YmdTextDate(s: string): Date
    requires YmdText(s)
  {
    Date(Value(s[..4]), Value(s[5..SecondDash(s)]), DayFieldValue(s[SecondDash(s) + 1..]))
  }

  /**
   `strptime(s, "%Y-%m-%d")` succeeds exactly on the texts made of a
   four-digit year, a dash, a one- or two-digit month, a dash and a day field
   that together name a real date, and returns that date. So `2024-3-4` and
   `2024-03- 4` are read as 2024-03-04, while `2024-02-30`, `0000-01-01`,
   `2024-13-01` and `2024-01-011` are rejected.
   */
  lemma ParseYmdFields(s: string)
    ensures ParseYmd(s).Ok? <==> YmdText(s) && Valid(YmdTextDate(s))
    ensures ParseYmd(s).Ok? ==> ParseYmd(s).value == YmdTextDate(s)
  {
    if MatchYmd(s).Some? && MatchYmd(s).value.day.end == |s| {
      MatchYmdSound(s);
    }
    if YmdText(s) {
      MatchYmdComplete(s);
    }
  }

  /** A successful match read four digits and a dash, then searched the month alternatives at index 5. */
  lemma MatchYmdUnfold(s: string)
    requires MatchYmd(s).Some?
    ensures |s| >= 5 && AllDigits(s[..4]) && s[4] == '-'
    ensures MatchYmd(s) == FirstMonthWithDay(s, MonthMatches(s, 5), Value(s[..4]))
  {
  }

  /** A match of `%Y-%m-%d` read the year digits and the month field up to the second dash, and a day match after it. */
  lemma MatchYmdMonth(s: string)
    requires MatchYmd(s).Some?
    ensures |s| >= 5 && AllDigits(s[..4]) && s[4] == '-'
    ensures MatchYmd(s).value.year == Value(s[..4])
    ensures MatchYmd(s).value.month.end == SecondDash(s) < |s|
    ensures MonthField(s[5..SecondDash(s)])
    ensures MatchYmd(s).value.month.value == Value(s[5..SecondDash(s)])
    ensures DayFollows(s, MatchYmd(s).value.month)
  {
    MatchYmdUnfold(s);
    var ms := MonthMatches(s, 5);
    var m := FirstMonthWithDay(s, ms, Value(s[..4])).value;
    assert m.month in ms && DayFollows(s, m.month);
    var k :| 0 <= k < |ms| && ms[k] == m.month;
    MonthMatchAtDash(s, k);
  }

  /**
   A match `m` of `%Y-%m-%d` reaches the end of `s` exactly when a whole day
   field follows the dash after its month, and then it read that field.
   */
  lemma MatchYmdDay(s: string, m: YmdMatch)
    requires MatchYmd(s) == Some(m)
    ensures DayFollows(s, m.month)
    ensures m.day.end == |s| <==> DayField(s[m.month.end + 1..])
    ensures DayField(s[m.month.end + 1..]) ==> m.day.value == DayFieldValue(s[m.month.end + 1..])
  {
    MatchYmdUnfold(s);
    FirstMonthWithDayDay(s, MonthMatches(s, 5), Value(s[..4]), m);
  }

  /**
   The first month alternative with a day after it, for any list of
   alternatives: its day match reaches the end of `s` exactly when a whole
   day field follows the dash, and then reads that field.
   */
  lemma FirstMonthWithDayDay(s: string, ms: seq<Match>, year: nat, m: YmdMatch)
    requires forall k :: 0 <= k < |ms| ==> 1 <= ms[k].value <= 12
    requires FirstMonthWithDay(s, ms, year) == Some(m)
    ensures DayFollows(s, m.month)
    ensures m.day.end == |s| <==> DayField(s[m.month.end + 1..])
    ensures DayField(s[m.month.end + 1..]) ==> m.day.value == DayFieldValue(s[m.month.end + 1..])
  {
    var r := FirstMonthWithDay(s, ms, year);
    assert r.Some? && r.value == m;
    assert DayFollows(s, m.month);
    assert m.day == DayMatches(s, m.month.end + 1)[0];
    DayFirstMatchIs(s, m.month.end + 1, m.day);
  }

  /** A match of `%Y-%m-%d` that consumes all of `s` reads the three fields of `s`. */
  lemma MatchYmdSound(s: string)
    requires MatchYmd(s).Some? && MatchYmd(s).value.day.end == |s|
    ensures YmdText(s)
    ensures MatchYmd(s).value.year == Value(s[..4])
    ensures MatchYmd(s).value.month.value == Value(s[5..SecondDash(s)])
    ensures MatchYmd(s).value.day.value == DayFieldValue(s[SecondDash(s) + 1..])
  {
    MatchYmdMonth(s);
    MatchYmdDay(s, MatchYmd(s).value);
  }

  /** Text made of the three fields is matched in full by `%Y-%m-%d`. */
  lemma MatchYmdComplete(s: string)
    requires YmdText(s)
    ensures MatchYmd(s).Some? && MatchYmd(s).value.day.end == |s|
  {
    MonthMatchAtField(s);
    var ms := MonthMatches(s, 5);
    var k :| 0 <= k < |ms| && ms[k].end == SecondDash(s);
    DayFirstMatch(s, SecondDash(s) + 1);
    FirstMonthWithDayFinds(s, ms, Value(s[..4]), k);
    ValueBound(s[..4]);
    MatchYmdMonth(s);
    MatchYmdDay(s, MatchYmd(s).value);
  }

  /** Reading back the API's `YYYY-MM-DD` form of a valid date gives the date. */
  lemma FormatDashedParses(d: Date)
    requires Valid(d)
    ensures ParseYmd(FormatDashed(d)) == Ok(d)
  {
    var s := FormatDashed(d);
    var y, m, dd := PadDigits(d.year, 4), PadDigits(d.month, 2), PadDigits(d.day, 2);
    assert s[..4] == y && s[5..7] == m && s[8..] == dd;
    assert s[4] == '-' && s[7] == '-';
    var t := s[5..];
    assert t[2] == '-' && IsDigit(t[0]) && IsDigit(t[1]);
    assert SecondDash(s) == 7;
    assert DayField(dd);
    ParseYmdFields(s);
  }
}
