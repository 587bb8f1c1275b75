/**
 The proleptic Gregorian calendar of Python's `datetime.date`: years 1 to 9999,
 leap years, month lengths, the day ordinal (`toordinal`, 1 for 0001-01-01)
 and the day arithmetic `date ± timedelta(days=n)` the scripts perform, with
 the `OverflowError` Python raises when a result leaves the supported range.
 */
module Gregorian {
  import opened Results

  /** `datetime.MINYEAR` and `datetime.MAXYEAR`. */
  const MinYear: nat := 1
  const MaxYear: nat := 9999

  datatype Date = Date(year: nat, month: nat, day: nat)

  const FirstDate: Date := Date(MinYear, 1, 1)
  const LastDate: Date := Date(MaxYear, 12, 31)

  /** What `date ± timedelta` raises outside year 1..9999. */
  const DateOutOfRange: PyError := OverflowError("date value out of range")

  predicate IsLeapYear(y: int) {
    y % 4 == 0 && (y % 100 != 0 || y % 400 == 0)
  }

  function DaysInMonth(y: int, m: int): (n: int)
    requires 1 <= m <= 12
    ensures 28 <= n <= 31
  {
    if m == 2 then (if IsLeapYear(y) then 29 else 28)
    else if m == 4 || m == 6 || m == 9 || m == 11 then 30
    else 31
  }

  predicate Valid(d: Date) {
    && MinYear <= d.year <= MaxYear
    && 1 <= d.month <= 12
    && 1 <= d.day <= DaysInMonth(d.year, d.month)
  }

  /** Chronological order: by year, then month, then day. */
  predicate Before(a: Date, b: Date) {
    || a.year < b.year
    || (a.year == b.year && a.month < b.month)
    || (a.year == b.year && a.month == b.month && a.day < b.day)
  }

  // ---------------------------------------------------------------------------
  // Day ordinal: the reference for all day arithmetic
  // ---------------------------------------------------------------------------

  function DaysInYear(y: int): int {
    if IsLeapYear(y) then 366 else 365
  }

  function DaysBeforeYear(y: nat): nat
    requires y >= 1
  {
    if y == 1 then 0 else DaysBeforeYear(y - 1) + DaysInYear(y - 1)
  }

  function DaysBeforeMonth(y: int, m: int): nat
    requires 1 <= m <= 12
  {
    if m == 1 then 0 else DaysBeforeMonth(y, m - 1) + DaysInMonth(y, m - 1)
  }

  /** `date.toordinal()`: the number of days since 0000-12-31 of the proleptic calendar. */
  function Ordinal(d: Date): nat
    requires Valid(d)
  {
    DaysBeforeYear(d.year) + DaysBeforeMonth(d.year, d.month) + d.day
  }

  /** The twelve months fill the year exactly. */
  lemma YearLength(y: int)
    ensures DaysBeforeMonth(y, 12) + DaysInMonth(y, 12) == DaysInYear(y)
  {
    var feb := DaysInMonth(y, 2);
    assert DaysBeforeMonth(y, 2) == 31;
    assert DaysBeforeMonth(y, 3) == 31 + feb;
    assert DaysBeforeMonth(y, 4) == 31 + feb + 31;
    assert DaysBeforeMonth(y, 5) == 31 + feb + 31 + 30;
    assert DaysBeforeMonth(y, 6) == 31 + feb + 31 + 30 + 31;
    assert DaysBeforeMonth(y, 7) == 31 + feb + 31 + 30 + 31 + 30;
    assert DaysBeforeMonth(y, 8) == 31 + feb + 31 + 30 + 31 + 30 + 31;
    assert DaysBeforeMonth(y, 9) == 31 + feb + 31 + 30 + 31 + 30 + 31 + 31;
    assert DaysBeforeMonth(y, 10) == 31 + feb + 31 + 30 + 31 + 30 + 31 + 31 + 30;
    assert DaysBeforeMonth(y, 11) == 31 + feb + 31 + 30 + 31 + 30 + 31 + 31 + 30 + 31;
    assert DaysBeforeMonth(y, 12) == 31 + feb + 31 + 30 + 31 + 30 + 31 + 31 + 30 + 31 + 30;
  }

  /** The days before the end of month `m` never exceed the length of the year. */
  lemma {:induction false} MonthEndWithinYear(y: int, m: int)
    requires 1 <= m <= 12
    ensures DaysBeforeMonth(y, m) + DaysInMonth(y, m) <= DaysInYear(y)
    decreases 12 - m
  {
    if m == 12 {
      YearLength(y);
    } else {
      MonthEndWithinYear(y, m + 1);
    }
  }

  lemma {:induction false} DaysBeforeMonthMonotone(y: int, m: int, m': int)
    requires 1 <= m < m' <= 12
    ensures DaysBeforeMonth(y, m) + DaysInMonth(y, m) <= DaysBeforeMonth(y, m')
    decreases m' - m
  {
    if m + 1 < m' {
      DaysBeforeMonthMonotone(y, m + 1, m');
    }
  }

  lemma {:induction false} DaysBeforeYearMonotone(y: nat, y': nat)
    requires 1 <= y < y'
    ensures DaysBeforeYear(y) + DaysInYear(y) <= DaysBeforeYear(y')
    decreases y' - y
  {
    if y + 1 < y' {
      DaysBeforeYearMonotone(y + 1, y');
    }
  }

  /** The ordinal is strictly increasing in chronological order. */
  lemma OrdinalMonotone(a: Date, b: Date)
    requires Valid(a) && Valid(b)
    requires Before(a, b)
    ensures Ordinal(a) < Ordinal(b)
  {
    if a.year < b.year {
      MonthEndWithinYear(a.year, a.month);
      DaysBeforeYearMonotone(a.year, b.year);
    } else if a.month < b.month {
      DaysBeforeMonthMonotone(a.year, a.month, b.month);
    }
  }

  /** Distinct valid dates have distinct ordinals. */
  lemma OrdinalInjective(a: Date, b: Date)
    requires Valid(a) && Valid(b)
    requires Ordinal(a) == Ordinal(b)
    ensures a == b
  {
    if Before(a, b) {
      OrdinalMonotone(a, b);
    } else if Before(b, a) {
      OrdinalMonotone(b, a);
    }
  }

  /** 9999-12-31 has the largest ordinal Python supports. */
  lemma OrdinalAtMostLast(d: Date)
    requires Valid(d)
    ensures Ordinal(d) <= Ordinal(LastDate)
  {
    if d != LastDate {
      OrdinalMonotone(d, LastDate);
    }
  }

  // ---------------------------------------------------------------------------
  // Day successor, predecessor and `date + timedelta(days=n)`
  // ---------------------------------------------------------------------------

  /** `d + timedelta(days=1)`. */
  function NextDay(d: Date): (r: Result<Date>)
    requires Valid(d)
    ensures r.Ok? <==> d != LastDate
    ensures r.Err? ==> r.error == DateOutOfRange
    ensures r.Ok? ==> Valid(r.value) && Before(d, r.value)
  {
    if d.day < DaysInMonth(d.year, d.month) then Ok(Date(d.year, d.month, d.day + 1))
    else if d.month < 12 then Ok(Date(d.year, d.month + 1, 1))
    else if d.year < MaxYear then Ok(Date(d.year + 1, 1, 1))
    else Err(DateOutOfRange)
  }

  /** `d - timedelta(days=1)`. */
  function PrevDay(d: Date): (r: Result<Date>)
    requires Valid(d)
    ensures r.Ok? <==> d != FirstDate
    ensures r.Err? ==> r.error == DateOutOfRange
    ensures r.Ok? ==> Valid(r.value) && Before(r.value, d)
  {
    if d.day > 1 then Ok(Date(d.year, d.month, d.day - 1))
    else if d.month > 1 then Ok(Date(d.year, d.month - 1, DaysInMonth(d.year, d.month - 1)))
    else if d.year > MinYear then Ok(Date(d.year - 1, 12, 31))
    else Err(DateOutOfRange)
  }

  /** The successor is the day whose ordinal is one more, as Python computes it. */
  lemma NextDayOrdinal(d: Date)
    requires Valid(d) && d != LastDate
    ensures Ordinal(NextDay(d).value) == Ordinal(d) + 1
  {
    if d.day == DaysInMonth(d.year, d.month) && d.month == 12 {
      YearLength(d.year);
    }
  }

  /** Stepping back a day and forward again, or forward and back, is the identity. */
  lemma PrevNextInverse(d: Date)
    requires Valid(d)
    ensures d != FirstDate ==> NextDay(PrevDay(d).value) == Ok(d)
    ensures d != LastDate ==> PrevDay(NextDay(d).value) == Ok(d)
  {
  }

  /** The predecessor is the day whose ordinal is one less. */
  lemma PrevDayOrdinal(d: Date)
    requires Valid(d) && d != FirstDate
    ensures Ordinal(PrevDay(d).value) + 1 == Ordinal(d)
  {
    PrevNextInverse(d);
    NextDayOrdinal(PrevDay(d).value);
  }

  /** `d + timedelta(days=n)`, one day at a time. */
  function AddDays(d: Date, n: nat): (r: Result<Date>)
    requires Valid(d)
    ensures r.Ok? ==> Valid(r.value)
    ensures r.Err? ==> r.error == DateOutOfRange
    decreases n
  {
    if n == 0 then Ok(d)
    else
      var next :- NextDay(d);
      AddDays(next, n - 1)
  }

  /**
   Adding `n` days succeeds exactly when the target ordinal is still in
   Python's range, and then lands on the day whose ordinal is `n` more; by
   `OrdinalInjective` that day is unique, so this is `date.fromordinal(d.toordinal() + n)`.
   */
  lemma {:induction false} AddDaysOrdinal(d: Date, n: nat)
    requires Valid(d)
    ensures AddDays(d, n).Ok? <==> Ordinal(d) + n <= Ordinal(LastDate)
    ensures AddDays(d, n).Ok? ==> Ordinal(AddDays(d, n).value) == Ordinal(d) + n
    decreases n
  {
    OrdinalAtMostLast(d);
    if n > 0 && d != LastDate {
      NextDayOrdinal(d);
      AddDaysOrdinal(NextDay(d).value, n - 1);
    }
  }

  /** Adding `n` days reaches the valid day whose ordinal is `n` more. */
  lemma AddDaysLands(d: Date, n: nat, target: Date)
    requires Valid(d) && Valid(target)
    requires Ordinal(target) == Ordinal(d) + n
    ensures AddDays(d, n) == Ok(target)
  {
    AddDaysOrdinal(d, n);
    OrdinalAtMostLast(target);
    OrdinalInjective(AddDays(d, n).value, target);
  }
}
