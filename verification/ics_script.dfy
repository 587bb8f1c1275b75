/**
 `scripts/generate_ics.py`: fetches the previous, current and next month's
 schedule records, keeps appending them to the same two event lists, and
 writes `ipo.ics` and `spac.ics`. SE_CD is read with `item["SE_CD"]`, so a
 record without it raises `KeyError`. Records are not de-duplicated: a
 schedule returned for two months is filed twice.

 `date.today()` is a parameter. The fetch enters as a function from month
 token to records, and the UTC clock as a function from event number to
 reading.
 */
module IcsScript {
  import opened Results
  import opened Gregorian
  import opened DateText
  import opened Calendar
  import opened Routing

  // ---------------------------------------------------------------------------
  // target_months
  // ---------------------------------------------------------------------------

  /** `d.replace(day=1)`. */
  function FirstOfMonth(d: Date): Date {
    Date(d.year, d.month, 1)
  }

  /** Months counted from January of year 0: consecutive months have consecutive indices. */
  function MonthIndex(year: nat, month: nat): int {
    12 * year + month - 1
  }

  /** The month before, by calendar arithmetic on (year, month). */
  function PrevMonth(year: nat, month: nat): (p: (nat, nat))
    requires 1 <= month <= 12 && (year >= 1 || month > 1)
    ensures 1 <= p.1 <= 12 && MonthIndex(p.0, p.1) + 1 == MonthIndex(year, month)
  {
    if month == 1 then (year - 1, 12) else (year, month - 1)
  }

  /** The month after, by calendar arithmetic on (year, month). */
  function NextMonth(year: nat, month: nat): (n: (nat, nat))
    requires 1 <= month <= 12
    ensures 1 <= n.1 <= 12 && MonthIndex(n.0, n.1) == MonthIndex(year, month) + 1
  {
    if month == 12 then (year + 1, 1) else (year, month + 1)
  }

  /** A month index names one (year, month). */
  lemma MonthIndexInjective(y1: nat, m1: nat, y2: nat, m2: nat)
    requires 1 <= m1 <= 12 && 1 <= m2 <= 12
    requires MonthIndex(y1, m1) == MonthIndex(y2, m2)
    ensures y1 == y2 && m1 == m2
  {
  }

  /**
   `base + timedelta(days=32)` for the first day of a month lands in the next
   month: on day `33 - n` when the month has `n` days. After 9999-12-01 it
   overflows.
   */
  lemma AddMonthFromFirst(year: nat, month: nat)
    requires Valid(Date(year, month, 1))
    ensures AddDays(Date(year, month, 1), 32).Ok? <==> !(year == MaxYear && month == 12)
    ensures AddDays(Date(year, month, 1), 32).Ok? ==>
      var next := AddDays(Date(year, month, 1), 32).value;
      && MonthIndex(next.year, next.month) == MonthIndex(year, month) + 1
      && next.day == 33 - DaysInMonth(year, month)
  {
    if month < 12 {
      AddMonthWithinYear(year, month);
    } else {
      AddMonthDecember(year);
    }
  }

  /** From the first of January to November, 32 days later is in the next month of the same year. */
  lemma AddMonthWithinYear(year: nat, month: nat)
    requires Valid(Date(year, month, 1)) && month < 12
    ensures AddDays(Date(year, month, 1), 32) == Ok(Date(year, month + 1, 33 - DaysInMonth(year, month)))
  {
    var base := Date(year, month, 1);
    var c := Date(year, month + 1, 33 - DaysInMonth(year, month));
    assert Valid(c) && Ordinal(c) == Ordinal(base) + 32;
    AddDaysLands(base, 32, c);
  }

  /** From the first of December, 32 days later is January 2 of the next year, or an overflow after 9999. */
  lemma AddMonthDecember(year: nat)
    requires Valid(Date(year, 12, 1))
    ensures year < MaxYear ==> AddDays(Date(year, 12, 1), 32) == Ok(Date(year + 1, 1, 2))
    ensures year == MaxYear ==> AddDays(Date(year, 12, 1), 32).Err?
  {
    var base := Date(year, 12, 1);
    if year < MaxYear {
      var c := Date(year + 1, 1, 2);
      YearLength(year);
      assert Valid(c) && Ordinal(c) == Ordinal(base) + 32;
      AddDaysLands(base, 32, c);
    } else {
      AddDaysOrdinal(base, 32);
      assert Ordinal(LastDate) == Ordinal(base) + 30;
    }
  }

  /** `base - timedelta(days=1)` for the first day of a month is the last day of the month before. */
  lemma PrevDayFromFirst(year: nat, month: nat)
    requires Valid(Date(year, month, 1))
    ensures PrevDay(Date(year, month, 1)).Ok? <==> !(year == MinYear && month == 1)
    ensures PrevDay(Date(year, month, 1)).Ok? ==>
      var prev := PrevDay(Date(year, month, 1)).value;
      MonthIndex(prev.year, prev.month) == MonthIndex(year, month) - 1
  {
  }

  /**
   The two neighbour dates `target_months` computes: the day before the first
   of the month, and 32 days after it.
   */
  function Neighbours(today: Date): (r: Result<(Date, Date)>)
    requires Valid(today)
    ensures r.Ok? <==> !(today.year == MinYear && today.month == 1) && !(today.year == MaxYear && today.month == 12)
    ensures r.Err? ==> r.error == DateOutOfRange
    ensures r.Ok? ==> Valid(r.value.0) && MonthIndex(r.value.0.year, r.value.0.month) + 1 == MonthIndex(today.year, today.month)
    ensures r.Ok? ==> Valid(r.value.1) && MonthIndex(r.value.1.year, r.value.1.month) - 1 == MonthIndex(today.year, today.month)
  {
    var base := FirstOfMonth(today);
    PrevDayFromFirst(base.year, base.month);
    AddMonthFromFirst(base.year, base.month);
    var before :- PrevDay(base);
    var after :- AddDays(base, 32);
    Ok((before, after))
  }

  /**
   `target_months()` on day `today`: the tokens of the month before, this
   month and the month after, with year rollover in January and December.
   It raises `OverflowError` in January of year 1 and December of year 9999,
   where one of the neighbours has no `date`.
   */
  function TargetMonths(today: Date): (r: Result<seq<string>>)
    requires Valid(today)
    ensures r.Ok? <==> !(today.year == MinYear && today.month == 1) && !(today.year == MaxYear && today.month == 12)
    ensures r.Err? ==> r.error == DateOutOfRange
    ensures r.Ok? ==>
      var p, n := PrevMonth(today.year, today.month), NextMonth(today.year, today.month);
      r.value == [MonthToken(p.0, p.1), MonthToken(today.year, today.month), MonthToken(n.0, n.1)]
  {
    var base := FirstOfMonth(today);
    var dates :- Neighbours(today);
    var prevMonth, nextMonth := FirstOfMonth(dates.0), FirstOfMonth(dates.1);
    var p, n := PrevMonth(today.year, today.month), NextMonth(today.year, today.month);
    MonthIndexInjective(prevMonth.year, prevMonth.month, p.0, p.1);
    MonthIndexInjective(nextMonth.year, nextMonth.month, n.0, n.1);
    Ok([MonthToken(prevMonth.year, prevMonth.month), MonthToken(base.year, base.month),
        MonthToken(nextMonth.year, nextMonth.month)])
  }

  // ---------------------------------------------------------------------------
  // main
  // ---------------------------------------------------------------------------

  /** The records of all months, fetched in order and appended. */
  function FetchAll(months: seq<string>, fetch: string -> seq<Record>): seq<Record> {
    if |months| == 0 then [] else fetch(months[0]) + FetchAll(months[1..], fetch)
  }

  lemma {:induction false} FetchAllAppend(a: seq<string>, b: seq<string>, fetch: string -> seq<Record>)
    ensures FetchAll(a + b, fetch) == FetchAll(a, fetch) + FetchAll(b, fetch)
  {
    if |a| == 0 {
      assert a + b == b;
    } else {
      assert (a + b)[1..] == a[1..] + b;
      FetchAllAppend(a[1..], b, fetch);
    }
  }

  /**
   The outer `for month in target_months()` loop: each month's records run
   through the record loop, appending to the same two lists, with the event
   counter carried across months. It is one loop over all the records.
   */
  method MonthLoop(ms: seq<string>, fetch: string -> seq<Record>, build: Builder, clock: nat -> Stamp)
    returns (r: Result<Routed>)
    ensures r == Route(FetchAll(ms, fetch), build, clock, 0, Subscript)
  {
    var ipo: seq<string>, spac: seq<string> := [], [];
    var built := 0;
    var j := 0;
    assert ms[..0] == [];
    while j < |ms|
      invariant 0 <= j <= |ms|
      invariant built == |FetchAll(ms[..j], fetch)|
      invariant Route(FetchAll(ms[..j], fetch), build, clock, 0, Subscript) == Ok(Routed(ipo, spac))
    {
      var items := fetch(ms[j]);
      var done := FetchAll(ms[..j], fetch);
      assert ms[..j + 1] == ms[..j] + [ms[j]];
      FetchAllAppend(ms[..j], [ms[j]], fetch);
      assert FetchAll([ms[j]], fetch) == items + [];
      assert done + (items + []) == done + items;
      RouteAppend(done, items, build, clock, 0, Subscript);
      var routed := RouteLoop(items, build, clock, built, Subscript, ipo, spac);
      if routed.Err? {
        assert ms == ms[..j + 1] + ms[j + 1..];
        FetchAllAppend(ms[..j + 1], ms[j + 1..], fetch);
        RouteAppend(done + items, FetchAll(ms[j + 1..], fetch), build, clock, 0, Subscript);
        return Err(routed.error);
      }
      ipo, spac := routed.value.ipo, routed.value.spac;
      built := built + |items|;
      j := j + 1;
    }
    assert ms[..j] == ms;
    return Ok(Routed(ipo, spac));
  }

  /**
   `main()` on day `today`. `fetch` stands for `fetch_calendar` and
   `clock(n)` for the `n`-th `utcnow()` reading.
   */
  method GenerateIcs(today: Date, fetch: string -> seq<Record>, clock: nat -> Stamp) returns (r: Result<Output>)
    requires Valid(today)
    ensures TargetMonths(today).Err? ==> r == Err(DateOutOfRange)
    ensures TargetMonths(today).Ok? ==>
      r == Written(Route(FetchAll(TargetMonths(today).value, fetch), BuildEvent, clock, 0, Subscript))
  {
    var months := TargetMonths(today);
    if months.Err? {
      return Err(months.error);
    }
    var routed := MonthLoop(months.value, fetch, BuildEvent, clock);
    r := Written(routed);
  }

  /** The number of records with SE_CD `code` over all months, month by month. */
  function MonthlyCount(months: seq<string>, fetch: string -> seq<Record>, code: string): nat {
    if |months| == 0 then 0 else CountCode(fetch(months[0]), code) + MonthlyCount(months[1..], fetch, code)
  }

  lemma {:induction false} FetchAllCount(months: seq<string>, fetch: string -> seq<Record>, code: string)
    ensures CountCode(FetchAll(months, fetch), code) == MonthlyCount(months, fetch, code)
  {
    if |months| > 0 {
      FetchAllCount(months[1..], fetch, code);
      CountCodeAppend(fetch(months[0]), FetchAll(months[1..], fetch), code);
    }
  }

  /**
   Each list gets one event per record with that SE_CD in each month's data:
   a schedule the API returns for two of the months is written twice.
   */
  lemma NoDeduplication(today: Date, fetch: string -> seq<Record>, clock: nat -> Stamp, code: string)
    requires Valid(today) && IsBucketCode(code)
    requires TargetMonths(today).Ok?
    requires Route(FetchAll(TargetMonths(today).value, fetch), BuildEvent, clock, 0, Subscript).Ok?
    ensures |Bucket(Route(FetchAll(TargetMonths(today).value, fetch), BuildEvent, clock, 0, Subscript).value, code)|
      == MonthlyCount(TargetMonths(today).value, fetch, code)
  {
    var ms := TargetMonths(today).value;
    RouteCounts(FetchAll(ms, fetch), BuildEvent, clock, 0, Subscript, code);
    FetchAllCount(ms, fetch, code);
  }
}
