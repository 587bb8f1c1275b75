/**
 `scripts/generate_ipo.py`: turns a `yyyymm` answer into the API's month
 token, fetches that month's schedule records, and writes `ipo.ics` and
 `spac.ics`. SE_CD is read with `item.get`, so a record without it is
 dropped.

 The console prompt, the HTTP session and the file writes are not modelled.
 The fetch enters as a function from month token to records, and the UTC
 clock as a function from event number to reading.
 */
module IpoScript {
  import opened Results
  import opened Text
  import opened Gregorian
  import opened DateText
  import opened Calendar
  import opened Routing

  /** The one message `parse_month_input` raises, whatever `strptime` objected to. */
  const MonthInputError: PyError := ValueError("입력은 yyyymm 형식이어야 합니다.")

  /**
   `parse_month_input(raw)`: `strptime(raw, "%Y%m")` reformatted as `%Y.%m`.
   Four digits of year (not 0000) must be followed by a month of one or two
   digits from 1 to 12 and nothing else, so `20241` is January 2024 and
   `202413` is rejected.
   */
  function ParseMonthInput(raw: string): (r: Result<string>)
    ensures r.Ok? <==> |raw| >= 4 && AllDigits(raw[..4]) && Value(raw[..4]) >= 1 && MonthField(raw[4..])
    ensures r.Ok? ==> r.value == MonthToken(Value(raw[..4]), Value(raw[4..]))
    ensures r.Err? ==> r.error == MonthInputError
  {
    match ParseYearMonth(raw)
    case Err(_) => Err(MonthInputError)
    case Ok(ym) => Ok(MonthToken(ym.0, ym.1))
  }

  /** The months `parse_month_input` accepts: those of a `datetime`. */
  predicate ValidMonth(year: nat, month: nat) {
    MinYear <= year <= MaxYear && 1 <= month <= 12
  }

  /**
   Typing a month as `yyyymm`, or with a one-digit month as `yyyym`, gives
   that month's token back.
   */
  lemma MonthInputRoundTrip(year: nat, month: nat)
    requires ValidMonth(year, month)
    ensures ParseMonthInput(PadDigits(year, 4) + PadDigits(month, 2)) == Ok(MonthToken(year, month))
    ensures month < 10 ==> ParseMonthInput(PadDigits(year, 4) + [DigitChar(month)]) == Ok(MonthToken(year, month))
  {
    var y, m := PadDigits(year, 4), PadDigits(month, 2);
    PadFits(Date(year, month, 1));
    var long := y + m;
    assert long[..4] == y && long[4..] == m;
    ParseMonthInputFields(long, year, month);
    if month < 10 {
      var short := y + [DigitChar(month)];
      assert short[..4] == y && short[4..] == [DigitChar(month)];
      assert Value([DigitChar(month)]) == month by {
        assert [DigitChar(month)][..0] == [];
      }
      ParseMonthInputFields(short, year, month);
    }
  }

  /** An answer whose first four characters are the digits of `year` and whose rest is a month field for `month`. */
  lemma ParseMonthInputFields(raw: string, year: nat, month: nat)
    requires ValidMonth(year, month)
    requires |raw| >= 4 && AllDigits(raw[..4]) && Value(raw[..4]) == year
    requires 1 <= |raw[4..]| <= 2 && AllDigits(raw[4..]) && Value(raw[4..]) == month
    ensures ParseMonthInput(raw) == Ok(MonthToken(year, month))
  {
  }

  /** Zero-padded printing of the year 2024 and month 1, digit by digit. */
  lemma PadExamples()
    ensures PadDigits(2024, 4) == "2024" && PadDigits(1, 2) == "01"
  {
    assert PadDigits(2, 1) == "" + [DigitChar(2)] == "2";
    assert PadDigits(20, 2) == "2" + [DigitChar(0)] == "20";
    assert PadDigits(202, 3) == "20" + [DigitChar(2)] == "202";
    assert PadDigits(2024, 4) == "202" + [DigitChar(4)] == "2024";
    assert PadDigits(0, 1) == "" + [DigitChar(0)] == "0";
    assert PadDigits(1, 2) == "0" + [DigitChar(1)] == "01";
  }

  /** January 2024 typed with a two-digit or a one-digit month. */
  lemma MonthInputAccepts()
    ensures ParseMonthInput("202401") == Ok("2024.01")
    ensures ParseMonthInput("20241") == Ok("2024.01")
  {
    MonthInputRoundTrip(2024, 1);
    PadExamples();
    assert MonthToken(2024, 1) == "2024.01";
    assert PadDigits(2024, 4) + PadDigits(1, 2) == "202401";
    assert DigitChar(1) == '1';
    assert PadDigits(2024, 4) + [DigitChar(1)] == "20241";
  }

  /** A thirteenth month, year 0000 and a dashed month are all refused with the one message. */
  lemma MonthInputRejects()
    ensures ParseMonthInput("202413") == Err(MonthInputError)
    ensures ParseMonthInput("000012") == Err(MonthInputError)
    ensures ParseMonthInput("2024-01") == Err(MonthInputError)
  {
    RejectsMonthThirteen();
    RejectsYearZero();
    RejectsDash();
  }

  lemma RejectsMonthThirteen()
    ensures ParseMonthInput("202413").Err?
  {
    assert "202413"[4..] == "13";
    ValueOfTwo("13");
  }

  lemma RejectsYearZero()
    ensures ParseMonthInput("000012").Err?
  {
    assert "000012"[..4] == "0000";
    assert "0000"[..3] == "000" && "000"[..2] == "00" && "00"[..1] == "0" && "0"[..0] == "";
  }

  lemma RejectsDash()
    ensures ParseMonthInput("2024-01").Err?
  {
    assert "2024-01"[4..][0] == '-';
  }

  /** A month token is `YYYY.MM` and names its month uniquely. */
  lemma MonthTokenInjective(y1: nat, m1: nat, y2: nat, m2: nat)
    requires ValidMonth(y1, m1) && ValidMonth(y2, m2)
    requires MonthToken(y1, m1) == MonthToken(y2, m2)
    ensures y1 == y2 && m1 == m2
  {
    var t1, t2 := MonthToken(y1, m1), MonthToken(y2, m2);
    assert t1[..4] == PadDigits(y1, 4) && t2[..4] == PadDigits(y2, 4);
    assert t1[5..] == PadDigits(m1, 2) && t2[5..] == PadDigits(m2, 2);
  }

  /**
   `main()`, starting from the stripped answer that `ask_month` reads. The
   answer goes through `parse_month_input`, whose token `ask_month` returns;
   a rejected answer is the `ValueError` that `ask_month` reports before it
   exits. `fetch` stands for `fetch_calendar` and `clock(n)` for the `n`-th
   `utcnow()` reading.
   */
  method GenerateIpo(raw: string, fetch: string -> seq<Record>, clock: nat -> Stamp) returns (r: Result<Output>)
    ensures ParseMonthInput(raw).Err? ==> r == Err(MonthInputError)
    ensures ParseMonthInput(raw).Ok? ==>
      r == Written(Route(fetch(ParseMonthInput(raw).value), BuildEvent, clock, 0, Get))
  {
    var month := ParseMonthInput(raw);
    if month.Err? {
      return Err(month.error);
    }
    var items := fetch(month.value);
    var routed := RouteLoop(items, BuildEvent, clock, 0, Get, [], []);
    ThenEmptyLeft(Route(items, BuildEvent, clock, 0, Get));
    r := Written(routed);
  }
}
