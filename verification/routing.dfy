/**
 The loop both scripts run over the fetched records: build each record's
 event, then file it under `ipo.ics` when its SE_CD is `IPO`, under
 `spac.ics` when it is `SPAC`, and nowhere otherwise. The scripts differ in
 how they read SE_CD. `scripts/generate_ipo.py` uses `item.get("SE_CD")`, so
 a record without the key is built and then dropped.
 `scripts/generate_ics.py` uses `item["SE_CD"]`, so such a record raises
 `KeyError` and ends the run. Any exception ends the run, so nothing is
 written.

 `datetime.utcnow()` is read once per built event. It is modelled as a
 `clock` function indexed by how many events were built before this one.
 */
module Routing {
  import opened Results
  import opened DateText
  import opened Calendar

  /** How the SE_CD key is read: `item.get("SE_CD")` or `item["SE_CD"]`. */
  datatype Lookup = Get | Subscript

  /** The two event lists, in the order the records came. */
  datatype Routed = Routed(ipo: seq<string>, spac: seq<string>)

  const IpoCode: string := "IPO"
  const SpacCode: string := "SPAC"

  predicate IsBucketCode(code: string) {
    code == IpoCode || code == SpacCode
  }

  /** The list that records with SE_CD `code` go to. */
  function Bucket(r: Routed, code: string): seq<string>
    requires IsBucketCode(code)
  {
    if code == IpoCode then r.ipo else r.spac
  }

  /** What reading SE_CD gives: `.get` yields `None` for a missing key, `[]` raises. */
  function ReadCode(rec: Record, lookup: Lookup): (r: Result<Option<string>>)
    ensures r.Ok? <==> lookup.Get? || rec.category.Some?
    ensures r.Ok? ==> r.value == rec.category
    ensures r.Err? ==> r.error == KeyError("SE_CD")
  {
    if lookup == Subscript && rec.category.None? then Err(KeyError("SE_CD"))
    else Ok(rec.category)
  }

  /** How one record becomes its event text; the scripts use `Calendar.BuildEvent`. */
  type Builder = (Record, Stamp) -> Result<string>

  /**
   One pass of the loop body: `build_event(item)` first, then the SE_CD
   lookup. A record that fails both reports the `build_event` failure.
   */
  function Step(build: Builder, rec: Record, stamp: Stamp, lookup: Lookup): (r: Result<(string, Option<string>)>)
    ensures r.Ok? <==> build(rec, stamp).Ok? && (lookup.Get? || rec.category.Some?)
    ensures r.Ok? ==> r.value.0 == build(rec, stamp).value && r.value.1 == rec.category
    ensures build(rec, stamp).Err? ==> r == Err(build(rec, stamp).error)
    ensures build(rec, stamp).Ok? && r.Err? ==> r.error == KeyError("SE_CD")
  {
    var event :- build(rec, stamp);
    var code :- ReadCode(rec, lookup);
    Ok((event, code))
  }

  /** Puts an event in front of the list its code selects, if any. */
  function File(event: string, code: Option<string>, rest: Routed): Routed {
    if code == Some(IpoCode) then Routed([event] + rest.ipo, rest.spac)
    else if code == Some(SpacCode) then Routed(rest.ipo, [event] + rest.spac)
    else rest
  }

  /**
   The loop over `items`, whose first record is the `start`-th event built in
   this run. The first failing record decides the exception.
   */
  function Route(items: seq<Record>, build: Builder, clock: nat -> Stamp, start: nat, lookup: Lookup): (r: Result<Routed>)
    ensures r.Ok? ==> |r.value.ipo| + |r.value.spac| <= |items|
    decreases |items|
  {
    if |items| == 0 then Ok(Routed([], []))
    else
      var step :- Step(build, items[0], clock(start), lookup);
      var rest :- Route(items[1..], build, clock, start + 1, lookup);
      Ok(File(step.0, step.1, rest))
  }

  /** The number of records whose SE_CD is `code`. */
  function CountCode(items: seq<Record>, code: string): nat {
    if |items| == 0 then 0
    else (if items[0].category == Some(code) then 1 else 0) + CountCode(items[1..], code)
  }

  lemma {:induction false} CountCodeAppend(a: seq<Record>, b: seq<Record>, code: string)
    ensures CountCode(a + b, code) == CountCode(a, code) + CountCode(b, code)
  {
    if |a| == 0 {
      assert a + b == b;
    } else {
      assert (a + b)[1..] == a[1..] + b;
      CountCodeAppend(a[1..], b, code);
    }
  }

  /**
   The loop completes exactly when every record builds and, under `item["SE_CD"]`,
   every record has the key.
   */
  lemma {:induction false} RouteOkIff(items: seq<Record>, build: Builder, clock: nat -> Stamp, start: nat, lookup: Lookup)
    ensures Route(items, build, clock, start, lookup).Ok? <==>
      forall i :: 0 <= i < |items| ==>
        build(items[i], clock(start + i)).Ok? && (lookup.Get? || items[i].category.Some?)
    decreases |items|
  {
    if |items| > 0 {
      RouteOkIff(items[1..], build, clock, start + 1, lookup);
      forall i | 1 <= i < |items|
        ensures items[i] == items[1..][i - 1] && start + i == start + 1 + (i - 1)
      {
      }
    }
  }

  /** Record `k` is the first one whose loop body raises. */
  predicate FirstFailure(items: seq<Record>, build: Builder, clock: nat -> Stamp, start: nat, lookup: Lookup, k: nat) {
    && k < |items|
    && (forall i :: 0 <= i < k ==> Step(build, items[i], clock(start + i), lookup).Ok?)
    && Step(build, items[k], clock(start + k), lookup).Err?
  }

  /**
   When the loop raises, it raises what the first failing record raises; every
   record before that one was processed without error.
   */
  lemma {:induction false} RouteFirstError(items: seq<Record>, build: Builder, clock: nat -> Stamp, start: nat, lookup: Lookup)
    requires Route(items, build, clock, start, lookup).Err?
    ensures exists k: nat :: (FirstFailure(items, build, clock, start, lookup, k)
      && Route(items, build, clock, start, lookup).error == Step(build, items[k], clock(start + k), lookup).error)
    decreases |items|
  {
    if Step(build, items[0], clock(start), lookup).Err? {
      assert FirstFailure(items, build, clock, start, lookup, 0);
    } else {
      var tail := items[1..];
      RouteFirstError(tail, build, clock, start + 1, lookup);
      var k: nat :| FirstFailure(tail, build, clock, start + 1, lookup, k)
        && Route(tail, build, clock, start + 1, lookup).error == Step(build, tail[k], clock(start + 1 + k), lookup).error;
      forall i | 0 <= i < k + 1 ensures Step(build, items[i], clock(start + i), lookup).Ok? {
        if i > 0 {
          assert items[i] == tail[i - 1] && start + i == start + 1 + (i - 1);
        }
      }
      assert items[k + 1] == tail[k] && start + (k + 1) == start + 1 + k;
      assert FirstFailure(items, build, clock, start, lookup, k + 1);
    }
  }

  /** Every `IPO` record and every `SPAC` record lands in its list; no other record does. */
  lemma {:induction false} RouteCounts(items: seq<Record>, build: Builder, clock: nat -> Stamp, start: nat, lookup: Lookup, code: string)
    requires IsBucketCode(code)
    requires Route(items, build, clock, start, lookup).Ok?
    ensures |Bucket(Route(items, build, clock, start, lookup).value, code)| == CountCode(items, code)
    decreases |items|
  {
    if |items| > 0 {
      RouteCounts(items[1..], build, clock, start + 1, lookup, code);
    }
  }

  /** A completed loop over a non-empty list filed its first record's event in front of the rest's. */
  lemma RouteCons(items: seq<Record>, build: Builder, clock: nat -> Stamp, start: nat, lookup: Lookup)
    requires |items| > 0 && Route(items, build, clock, start, lookup).Ok?
    ensures Step(build, items[0], clock(start), lookup).Ok?
    ensures Route(items[1..], build, clock, start + 1, lookup).Ok?
    ensures var step := Step(build, items[0], clock(start), lookup).value;
      Route(items, build, clock, start, lookup).value
        == File(step.0, step.1, Route(items[1..], build, clock, start + 1, lookup).value)
  {
  }

  /** Filing an event adds it in front of the list its code selects and leaves the other alone. */
  lemma BucketFile(event: string, code: Option<string>, rest: Routed, bucket: string)
    requires IsBucketCode(bucket)
    ensures Bucket(File(event, code, rest), bucket) == (if code == Some(bucket) then [event] else []) + Bucket(rest, bucket)
  {
    assert [] + Bucket(rest, bucket) == Bucket(rest, bucket);
  }

  /** Counting in a prefix of length `k > 0` counts the first record and then a prefix of the rest. */
  lemma CountCodePrefix(items: seq<Record>, k: nat, code: string)
    requires 0 < k <= |items|
    ensures CountCode(items[..k], code)
      == (if items[0].category == Some(code) then 1 else 0) + CountCode(items[1..][..k - 1], code)
  {
    var p := items[..k];
    assert p[0] == items[0];
    assert p[1..] == items[1..][..k - 1];
  }

  /** The events of the records whose SE_CD is `code`, in record order: what one list should hold. */
  function Picked(items: seq<Record>, build: Builder, clock: nat -> Stamp, start: nat, code: string): seq<string>
    decreases |items|
  {
    if |items| == 0 then []
    else
      var event := build(items[0], clock(start));
      (if items[0].category == Some(code) && event.Ok? then [event.value] else [])
        + Picked(items[1..], build, clock, start + 1, code)
  }

  /** Each list the loop fills is exactly the picked events for its code. */
  lemma {:induction false} RouteBucket(items: seq<Record>, build: Builder, clock: nat -> Stamp, start: nat, lookup: Lookup,
                                       code: string)
    requires IsBucketCode(code)
    requires Route(items, build, clock, start, lookup).Ok?
    ensures Bucket(Route(items, build, clock, start, lookup).value, code) == Picked(items, build, clock, start, code)
    decreases |items|
  {
    if |items| > 0 {
      RouteCons(items, build, clock, start, lookup);
      var step := Step(build, items[0], clock(start), lookup).value;
      var rest := Route(items[1..], build, clock, start + 1, lookup).value;
      BucketFile(step.0, step.1, rest, code);
      RouteBucket(items[1..], build, clock, start + 1, lookup, code);
    }
  }

  /** Index `n` of the second part is index `|head| + n` of the whole. */
  lemma IndexAfter(head: seq<string>, rest: seq<string>, n: nat)
    requires n < |rest|
    ensures |head| + n < |head + rest| && (head + rest)[|head| + n] == rest[n]
  {
  }

  /**
   When every record builds, the `k`-th record with SE_CD `code` has its
   event at the position given by the number of earlier records with that code.
   */
  lemma {:induction false} PickedOrder(items: seq<Record>, build: Builder, clock: nat -> Stamp, start: nat, code: string, k: nat)
    requires forall i :: 0 <= i < |items| ==> build(items[i], clock(start + i)).Ok?
    requires k < |items| && items[k].category == Some(code)
    ensures CountCode(items[..k], code) < |Picked(items, build, clock, start, code)|
    ensures Picked(items, build, clock, start, code)[CountCode(items[..k], code)] == build(items[k], clock(start + k)).value
    decreases |items|
  {
    var event := build(items[0], clock(start));
    assert event.Ok? by {
      assert items[0] == items[0] && start + 0 == start;
    }
    var head: seq<string> := if items[0].category == Some(code) then [event.value] else [];
    var tail := items[1..];
    assert Picked(items, build, clock, start, code) == head + Picked(tail, build, clock, start + 1, code);
    if k == 0 {
      assert items[..0] == [];
    } else {
      forall i | 0 <= i < |tail| ensures build(tail[i], clock(start + 1 + i)).Ok? {
        assert tail[i] == items[i + 1] && start + 1 + i == start + (i + 1);
      }
      PickedOrder(tail, build, clock, start + 1, code, k - 1);
      assert tail[k - 1] == items[k] && start + 1 + (k - 1) == start + k;
      CountCodePrefix(items, k, code);
      IndexAfter(head, Picked(tail, build, clock, start + 1, code), CountCode(tail[..k - 1], code));
    }
  }

  /**
   The `k`-th record, when its SE_CD is `code`, contributes the event built
   from it at the position given by the number of earlier records with that
   code. With `RouteCounts` this says the list holds exactly those records'
   events, in their original order.
   */
  lemma RouteOrder(items: seq<Record>, build: Builder, clock: nat -> Stamp, start: nat, lookup: Lookup, code: string, k: nat)
    requires IsBucketCode(code)
    requires Route(items, build, clock, start, lookup).Ok?
    requires k < |items| && items[k].category == Some(code)
    ensures var list := Bucket(Route(items, build, clock, start, lookup).value, code);
      && CountCode(items[..k], code) < |list|
      && build(items[k], clock(start + k)).Ok?
      && list[CountCode(items[..k], code)] == build(items[k], clock(start + k)).value
  {
    RouteOkIff(items, build, clock, start, lookup);
    RouteBucket(items, build, clock, start, lookup, code);
    PickedOrder(items, build, clock, start, code, k);
  }

  /** Chains two runs of the loop: the first exception wins, otherwise the lists are appended. */
  function Then(first: Result<Routed>, second: Result<Routed>): Result<Routed> {
    if first.Err? then first
    else if second.Err? then second
    else Ok(Routed(first.value.ipo + second.value.ipo, first.value.spac + second.value.spac))
  }

  /** Chaining is associative, so runs can be grouped either way. */
  lemma ThenAssoc(x: Result<Routed>, y: Result<Routed>, z: Result<Routed>)
    ensures Then(x, Then(y, z)) == Then(Then(x, y), z)
  {
    if x.Ok? && y.Ok? && z.Ok? {
      assert (x.value.ipo + y.value.ipo) + z.value.ipo == x.value.ipo + (y.value.ipo + z.value.ipo);
      assert (x.value.spac + y.value.spac) + z.value.spac == x.value.spac + (y.value.spac + z.value.spac);
    }
  }

  /** Chaining with a run that filed nothing changes nothing. */
  lemma ThenEmpty(x: Result<Routed>)
    ensures Then(x, Ok(Routed([], []))) == x
  {
    if x.Ok? {
      assert x.value.ipo + [] == x.value.ipo && x.value.spac + [] == x.value.spac;
    }
  }

  lemma ThenEmptyLeft(x: Result<Routed>)
    ensures Then(Ok(Routed([], [])), x) == x
  {
    if x.Ok? {
      assert [] + x.value.ipo == x.value.ipo && [] + x.value.spac == x.value.spac;
    }
  }

  /** Filing an event in front of a run and then appending a second run is filing it in front of both. */
  lemma FileThen(event: string, code: Option<string>, x: Routed, y: Routed)
    ensures Then(Ok(File(event, code, x)), Ok(y)) == Ok(File(event, code, Routed(x.ipo + y.ipo, x.spac + y.spac)))
  {
    assert ([event] + x.ipo) + y.ipo == [event] + (x.ipo + y.ipo);
    assert ([event] + x.spac) + y.spac == [event] + (x.spac + y.spac);
  }

  /**
   Running the loop over `a + b` is running it over `a` and then over `b`,
   with `b`'s events built after `a`'s. This is what lets a loop over several
   months' records keep appending to the same two lists.
   */
  lemma {:induction false} RouteAppend(a: seq<Record>, b: seq<Record>, build: Builder, clock: nat -> Stamp, start: nat, lookup: Lookup)
    ensures Route(a + b, build, clock, start, lookup)
      == Then(Route(a, build, clock, start, lookup), Route(b, build, clock, start + |a|, lookup))
    decreases |a|
  {
    if |a| == 0 {
      assert a + b == b;
      ThenEmptyLeft(Route(b, build, clock, start, lookup));
    } else {
      var ab := a + b;
      assert ab[0] == a[0] && ab[1..] == a[1..] + b;
      RouteAppend(a[1..], b, build, clock, start + 1, lookup);
      assert start + 1 + |a[1..]| == start + |a|;
      var step := Step(build, a[0], clock(start), lookup);
      var first := Route(a[1..], build, clock, start + 1, lookup);
      var second := Route(b, build, clock, start + |a|, lookup);
      if step.Ok? && first.Ok? && second.Ok? {
        FileThen(step.value.0, step.value.1, first.value, second.value);
      }
    }
  }

  /** The loop over a single record. */
  lemma RouteOne(rec: Record, build: Builder, clock: nat -> Stamp, start: nat, lookup: Lookup)
    ensures Route([rec], build, clock, start, lookup)
      == match Step(build, rec, clock(start), lookup)
         case Err(e) => Err(e)
         case Ok(step) => Ok(File(step.0, step.1, Routed([], [])))
  {
    assert [rec][1..] == [];
  }

  /**
   The two ways of reading SE_CD agree on records that all carry the key;
   they differ only in that `.get` skips a record without it, where `[]`
   raises `KeyError`.
   */
  lemma {:induction false} LookupsAgree(items: seq<Record>, build: Builder, clock: nat -> Stamp, start: nat)
    requires forall i :: 0 <= i < |items| ==> items[i].category.Some?
    ensures Route(items, build, clock, start, Get) == Route(items, build, clock, start, Subscript)
    decreases |items|
  {
    if |items| > 0 {
      LookupsAgree(items[1..], build, clock, start + 1);
    }
  }

  /** Running the loop over a record list one record longer runs the body once more, as the next event. */
  lemma RouteSnoc(items: seq<Record>, rec: Record, build: Builder, clock: nat -> Stamp, start: nat, lookup: Lookup)
    ensures Route(items + [rec], build, clock, start, lookup)
      == Then(Route(items, build, clock, start, lookup), Route([rec], build, clock, start + |items|, lookup))
  {
    RouteAppend(items, [rec], build, clock, start, lookup);
  }

  /**
   The `for item in items` loop of both scripts, appending to lists `ipo` and
   `spac` that may already hold events. `start` is the number of events built
   before it. It leaves the lists exactly as `Route` says, or raises what
   `Route` raises.
   */
  method RouteLoop(items: seq<Record>, build: Builder, clock: nat -> Stamp, start: nat, lookup: Lookup,
                   ipo: seq<string>, spac: seq<string>)
    returns (r: Result<Routed>)
    ensures r == Then(Ok(Routed(ipo, spac)), Route(items, build, clock, start, lookup))
  {
    var ipoEvents, spacEvents := ipo, spac;
    var i := 0;
    assert items[..0] == [];
    ThenEmpty(Ok(Routed(ipo, spac)));
    while i < |items|
      invariant 0 <= i <= |items|
      invariant Then(Ok(Routed(ipo, spac)), Route(items[..i], build, clock, start, lookup))
        == Ok(Routed(ipoEvents, spacEvents))
    {
      var item := items[i];
      ghost var before := Routed(ipoEvents, spacEvents);
      RouteSnoc(items[..i], item, build, clock, start, lookup);
      RouteOne(item, build, clock, start + i, lookup);
      ThenAssoc(Ok(Routed(ipo, spac)), Route(items[..i], build, clock, start, lookup),
        Route([item], build, clock, start + i, lookup));
      assert items[..i + 1] == items[..i] + [item];
      var event := build(item, clock(start + i));
      if event.Err? {
        RouteErrorAt(items, i, build, clock, start, lookup);
        return Err(event.error);
      }
      var code := ReadCode(item, lookup);
      if code.Err? {
        RouteErrorAt(items, i, build, clock, start, lookup);
        return Err(code.error);
      }
      assert Step(build, item, clock(start + i), lookup) == Ok((event.value, code.value));
      ghost var filed := File(event.value, code.value, Routed([], []));
      assert Route([item], build, clock, start + i, lookup) == Ok(filed);
      if code.value == Some(IpoCode) {
        assert filed == Routed([event.value], []);
        ipoEvents := ipoEvents + [event.value];
        assert spacEvents + [] == spacEvents;
      } else if code.value == Some(SpacCode) {
        assert filed == Routed([], [event.value]);
        spacEvents := spacEvents + [event.value];
        assert ipoEvents + [] == ipoEvents;
      } else {
        assert filed == Routed([], []);
        assert ipoEvents + [] == ipoEvents && spacEvents + [] == spacEvents;
      }
      assert Then(Ok(before), Ok(filed)) == Ok(Routed(ipoEvents, spacEvents));
      i := i + 1;
    }
    assert items[..i] == items;
    return Ok(Routed(ipoEvents, spacEvents));
  }

  /** A record that raises after an error-free prefix decides the outcome of the whole loop. */
  lemma RouteErrorAt(items: seq<Record>, i: nat, build: Builder, clock: nat -> Stamp, start: nat, lookup: Lookup)
    requires i < |items|
    requires Route(items[..i], build, clock, start, lookup).Ok?
    requires Step(build, items[i], clock(start + i), lookup).Err?
    ensures Route(items, build, clock, start, lookup) == Err(Step(build, items[i], clock(start + i), lookup).error)
  {
    assert items == items[..i] + items[i..];
    RouteAppend(items[..i], items[i..], build, clock, start, lookup);
    assert items[i..][0] == items[i];
  }

  /** The two files `main` writes, `ipo.ics` and `spac.ics`. */
  datatype Output = Output(ipoIcs: string, spacIcs: string)

  /** The files written from the routed events; an exception writes nothing. */
  function Written(r: Result<Routed>): (w: Result<Output>)
    ensures w.Ok? <==> r.Ok?
    ensures w.Err? ==> w.error == r.error
    ensures w.Ok? ==> w.value.ipoIcs == BuildCalendar(r.value.ipo) && w.value.spacIcs == BuildCalendar(r.value.spac)
  {
    match r
    case Err(e) => Err(e)
    case Ok(routed) => Ok(Output(BuildCalendar(routed.ipo), BuildCalendar(routed.spac)))
  }

  /**
   End to end: when the loop raises nothing, `ipo.ics` is the calendar of the
   events of the IPO records in record order and `spac.ics` that of the SPAC
   records; otherwise nothing is written and the loop's exception propagates.
   */
  lemma WrittenFiles(items: seq<Record>, build: Builder, clock: nat -> Stamp, start: nat, lookup: Lookup)
    ensures Route(items, build, clock, start, lookup).Err? ==>
      Written(Route(items, build, clock, start, lookup)) == Err(Route(items, build, clock, start, lookup).error)
    ensures Route(items, build, clock, start, lookup).Ok? ==>
      Written(Route(items, build, clock, start, lookup))
        == Ok(Output(BuildCalendar(Picked(items, build, clock, start, IpoCode)),
                     BuildCalendar(Picked(items, build, clock, start, SpacCode))))
  {
    if Route(items, build, clock, start, lookup).Ok? {
      RouteBucket(items, build, clock, start, lookup, IpoCode);
      RouteBucket(items, build, clock, start, lookup, SpacCode);
    }
  }
}
