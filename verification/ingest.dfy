/**
  The aggregation state shared across locations, a map from day to a map
  from location name to group metrics, and the ingestion of one location's
  batches of readings into it.
 */
module Ingest {
  import opened Wrappers
  import opened Trays
  import opened Groups

  type State = map<int, map<string, Metrics>>

  /** The group for (day, location), if it exists. */
  function Lookup(s: State, day: int, loc: string): Option<Metrics> {
    if day in s && loc in s[day] then Some(s[day][loc]) else None
  }

  /** No day and no group is ever removed: `r` holds every day and group of `s`. */
  ghost predicate Grows(s: State, r: State) {
    && s.Keys <= r.Keys
    && forall d :: d in s ==> s[d].Keys <= r[d].Keys
  }

  /**
    Routes a decoded reading to the group of its initial timestamp's day:
    that group exists afterwards, exactly that day is added if new, and
    nothing is removed.
   */
  function ApplyEvent(s: State, loc: string, e: Event): (r: State)
    requires e.count >= 1
    ensures r.Keys == s.Keys + {DayOf(e.initial)}
    ensures loc in r[DayOf(e.initial)]
    ensures Grows(s, r)
  {
    var day := DayOf(e.initial);
    var stores := if day in s then s[day] else map[];
    s[day := stores[loc := Absorb(Lookup(s, day, loc), e)]]
  }

  function ApplyEvents(s: State, loc: string, es: seq<Event>): State
    requires CountsPositive(es)
    decreases |es|
  {
    if es == [] then s
    else ApplyEvent(ApplyEvents(s, loc, es[..|es| - 1]), loc, es[|es| - 1])
  }

  /** One reading of a batch of `count`: skipped when a timestamp is missing. */
  function IngestReading(s: State, loc: string, count: nat, r: Reading): (s': State)
    requires count >= 1
    ensures Parse(r, count).None? ==> s' == s
    ensures Parse(r, count).Some? ==>
      DayOf(r.initialTimestamp.value) in s' && loc in s'[DayOf(r.initialTimestamp.value)]
    ensures Grows(s, s')
  {
    match Parse(r, count)
    case None => s
    case Some(e) => ApplyEvent(s, loc, e)
  }

  /** The readings `rs` of a batch holding `count` readings in all. */
  function IngestReadings(s: State, loc: string, count: nat, rs: seq<Reading>): (r: State)
    requires |rs| <= count
    ensures Grows(s, r)
    decreases |rs|
  {
    if rs == [] then s
    else IngestReading(IngestReadings(s, loc, count, rs[..|rs| - 1]), loc, count, rs[|rs| - 1])
  }

  /** One batch: every reading carries the batch's size as its tray count. */
  function IngestBatch(s: State, loc: string, batch: seq<Reading>): (r: State)
    ensures Grows(s, r)
  {
    IngestReadings(s, loc, |batch|, batch)
  }

  /** All batches of one location, in order. */
  function IngestBatches(s: State, loc: string, batches: seq<seq<Reading>>): (r: State)
    ensures Grows(s, r)
    decreases |batches|
  {
    if batches == [] then s
    else IngestBatch(IngestBatches(s, loc, batches[..|batches| - 1]), loc, batches[|batches| - 1])
  }

  /**
    The decoded readings of `rs`, in order, each tagged with `count`: every
    reading with both timestamps is decoded into it, every element is the
    decoding of some reading, and when no reading is malformed it is the
    reading-by-reading decoding.
   */
  function ParseAll(count: nat, rs: seq<Reading>): (es: seq<Event>)
    ensures |es| <= |rs|
    ensures forall i :: 0 <= i < |es| ==> es[i].count == count
    ensures forall i :: 0 <= i < |rs| && rs[i].initialTimestamp.Some? && rs[i].currentTimestamp.Some? ==>
      Parse(rs[i], count).value in es
    ensures forall e :: e in es ==> exists i :: 0 <= i < |rs| && Parse(rs[i], count) == Some(e)
    ensures (forall i :: 0 <= i < |rs| ==> Parse(rs[i], count).Some?) ==>
      |es| == |rs| && forall i :: 0 <= i < |rs| ==> es[i] == Parse(rs[i], count).value
    decreases |rs|
  {
    if rs == [] then []
    else
      var rest := rs[..|rs| - 1];
      var init := ParseAll(count, rest);
      assert forall i :: 0 <= i < |rest| ==> rest[i] == rs[i];
      match Parse(rs[|rs| - 1], count)
      case None => init
      case Some(e) =>
        assert forall x :: x in init + [e] <==> x in init || x == e;
        init + [e]
  }

  /** Decoding a batch is decoding all but its last reading, then the last. */
  lemma ParseAllSnoc(count: nat, rs: seq<Reading>)
    requires rs != []
    ensures ParseAll(count, rs) == ParseAll(count, rs[..|rs| - 1]) + Decoded(count, rs[|rs| - 1])
  {
  }

  /** The decoding of one reading as a sequence of at most one event. */
  function Decoded(count: nat, r: Reading): (d: seq<Event>)
    ensures |d| <= 1
    ensures d == [] <==> Parse(r, count).None?
    ensures forall x :: x in d ==> Parse(r, count) == Some(x)
  {
    match Parse(r, count)
    case None => []
    case Some(x) => [x]
  }

  /**
    Each decoded reading occurs in the result exactly as often as the
    well-formed reading it decodes occurs in the batch.
   */
  lemma {:induction false} ParseAllMultiset(count: nat, rs: seq<Reading>, e: Event)
    ensures multiset(ParseAll(count, rs))[e]
         == if e.count == count then multiset(rs)[Reading(Some(e.initial), Some(e.initial + e.hold))] else 0
    decreases |rs|
  {
    if rs != [] {
      var rest := rs[..|rs| - 1];
      var r := rs[|rs| - 1];
      ParseAllMultiset(count, rest, e);
      ParseAllSnoc(count, rs);
      MultisetSnoc(rs);
      DecodedMultiset(count, r, e);
    }
  }

  /** A sequence's multiset is its prefix's plus its last element. */
  lemma MultisetSnoc<T>(xs: seq<T>)
    requires xs != []
    ensures multiset(xs) == multiset(xs[..|xs| - 1]) + multiset{xs[|xs| - 1]}
  {
    assert xs == xs[..|xs| - 1] + [xs[|xs| - 1]];
  }

  /** One reading's share of the multiset count above. */
  lemma DecodedMultiset(count: nat, r: Reading, e: Event)
    ensures multiset(Decoded(count, r))[e]
         == if e.count == count && r == Reading(Some(e.initial), Some(e.initial + e.hold)) then 1 else 0
  {
  }

  /** Decoding two parts of a batch and concatenating keeps the readings' order. */
  lemma {:induction false} ParseAllAppend(count: nat, a: seq<Reading>, b: seq<Reading>)
    ensures ParseAll(count, a + b) == ParseAll(count, a) + ParseAll(count, b)
    decreases |b|
  {
    if b == [] {
      assert a + b == a;
    } else {
      var init := b[..|b| - 1];
      var ab := a + b;
      assert ab[..|ab| - 1] == a + init;
      assert ab[|ab| - 1] == b[|b| - 1];
      ParseAllAppend(count, a, init);
      ParseAllSnoc(count, ab);
      ParseAllSnoc(count, b);
    }
  }

  /** The decoded readings of all batches, in order. */
  function EventsOf(batches: seq<seq<Reading>>): (es: seq<Event>)
    ensures CountsPositive(es)
    decreases |batches|
  {
    if batches == [] then []
    else
      var b := batches[|batches| - 1];
      EventsOf(batches[..|batches| - 1]) + ParseAll(|b|, b)
  }

  /** The readings whose initial timestamp falls on `day`, in order. */
  function OnDay(es: seq<Event>, day: int): (r: seq<Event>)
    ensures |r| <= |es|
    ensures forall i :: 0 <= i < |r| ==> DayOf(r[i].initial) == day
    ensures forall e :: e in r <==> e in es && DayOf(e.initial) == day
    ensures forall e :: multiset(r)[e] == if DayOf(e.initial) == day then multiset(es)[e] else 0
    decreases |es|
  {
    if es == [] then []
    else
      assert es == es[..|es| - 1] + [es[|es| - 1]];
      var init := OnDay(es[..|es| - 1], day);
      var e := es[|es| - 1];
      if DayOf(e.initial) == day then init + [e] else init
  }

  /** The days the readings fall on. */
  function DaysOf(es: seq<Event>): set<int> {
    set i | 0 <= i < |es| :: DayOf(es[i].initial)
  }

  /** A decoded reading touches exactly one group, (its day, the location); all others are unchanged. */
  lemma ApplyEventTouchesOneGroup(s: State, loc: string, e: Event, day: int, l: string)
    requires e.count >= 1
    ensures Lookup(ApplyEvent(s, loc, e), day, l)
         == if day == DayOf(e.initial) && l == loc then Some(Absorb(Lookup(s, day, l), e))
            else Lookup(s, day, l)
    ensures ApplyEvent(s, loc, e).Keys == s.Keys + {DayOf(e.initial)}
  {
  }

  lemma DaysOfSnoc(es: seq<Event>)
    requires es != []
    ensures DaysOf(es) == DaysOf(es[..|es| - 1]) + {DayOf(es[|es| - 1].initial)}
  {
    var init := es[..|es| - 1];
    forall d | d in DaysOf(es)
      ensures d in DaysOf(init) + {DayOf(es[|es| - 1].initial)}
    {
      var i :| 0 <= i < |es| && d == DayOf(es[i].initial);
      if i < |init| {
        assert es[i] == init[i];
      }
    }
    forall d | d in DaysOf(init)
      ensures d in DaysOf(es)
    {
      var i :| 0 <= i < |init| && d == DayOf(init[i].initial);
      assert es[i] == init[i];
    }
  }

  /** Applying readings adds exactly their days to the state's days. */
  lemma {:induction false} DaysAfterEvents(s: State, loc: string, es: seq<Event>)
    requires CountsPositive(es)
    ensures ApplyEvents(s, loc, es).Keys == s.Keys + DaysOf(es)
    decreases |es|
  {
    if es != [] {
      var init := es[..|es| - 1];
      DaysAfterEvents(s, loc, init);
      DaysOfSnoc(es);
    }
  }

  lemma GroupFoldSnoc(g: Option<Metrics>, es: seq<Event>, e: Event)
    requires CountsPositive(es) && e.count >= 1
    ensures CountsPositive(es + [e])
    ensures GroupFold(g, es + [e]) == Some(Absorb(GroupFold(g, es), e))
  {
    assert (es + [e])[..|es|] == es;
  }

  /** The last reading joins its day's readings and no other day's. */
  lemma OnDaySnoc(es: seq<Event>, day: int)
    requires es != []
    ensures OnDay(es, day) == if DayOf(es[|es| - 1].initial) == day
      then OnDay(es[..|es| - 1], day) + [es[|es| - 1]]
      else OnDay(es[..|es| - 1], day)
  {
  }

  /**
    The step of the routing proof: a reading extends its own day's group of
    its location, and leaves every other group as it was.
   */
  lemma RoutedStep(s: State, t: State, loc: string, e: Event, day: int, l: string,
                   before: seq<Event>, after: seq<Event>)
    requires e.count >= 1 && CountsPositive(before)
    requires after == if DayOf(e.initial) == day then before + [e] else before
    requires Lookup(t, day, l) == if l == loc then GroupFold(Lookup(s, day, l), before) else Lookup(s, day, l)
    ensures CountsPositive(after)
    ensures Lookup(ApplyEvent(t, loc, e), day, l)
         == if l == loc then GroupFold(Lookup(s, day, l), after) else Lookup(s, day, l)
  {
    ApplyEventTouchesOneGroup(t, loc, e, day, l);
    if DayOf(e.initial) == day && l == loc {
      GroupFoldSnoc(Lookup(s, day, l), before, e);
    }
  }

  /**
    Routing: after a location's readings, the group (day, location) is the
    fold of exactly the readings of that day, and every other location's
    group is unchanged.
   */
  lemma {:induction false} RoutedToDayGroup(s: State, loc: string, es: seq<Event>, day: int, l: string)
    requires CountsPositive(es)
    ensures CountsPositive(OnDay(es, day))
    ensures Lookup(ApplyEvents(s, loc, es), day, l)
         == if l == loc then GroupFold(Lookup(s, day, l), OnDay(es, day)) else Lookup(s, day, l)
    decreases |es|
  {
    if es != [] {
      var init := es[..|es| - 1];
      var e := es[|es| - 1];
      RoutedToDayGroup(s, loc, init, day, l);
      OnDaySnoc(es, day);
      RoutedStep(s, ApplyEvents(s, loc, init), loc, e, day, l, OnDay(init, day), OnDay(es, day));
    }
  }

  /** Applying readings is applying all but the last, then the last. */
  lemma ApplyEventsSnoc(s: State, loc: string, es: seq<Event>)
    requires es != [] && CountsPositive(es)
    ensures CountsPositive(es[..|es| - 1])
    ensures ApplyEvents(s, loc, es) == ApplyEvent(ApplyEvents(s, loc, es[..|es| - 1]), loc, es[|es| - 1])
  {
  }

  /** Applying a concatenation of readings is applying the first part, then the second. */
  lemma {:induction false} ApplyEventsAppend(s: State, loc: string, a: seq<Event>, b: seq<Event>)
    requires CountsPositive(a) && CountsPositive(b)
    ensures CountsPositive(a + b)
    ensures ApplyEvents(s, loc, a + b) == ApplyEvents(ApplyEvents(s, loc, a), loc, b)
    decreases |b|
  {
    if b != [] {
      var ab := a + b;
      var init := b[..|b| - 1];
      assert ab[..|ab| - 1] == a + init;
      assert ab[|ab| - 1] == b[|b| - 1];
      ApplyEventsAppend(s, loc, a, init);
      ApplyEventsSnoc(s, loc, ab);
      ApplyEventsSnoc(ApplyEvents(s, loc, a), loc, b);
    } else {
      assert a + b == a;
    }
  }

  /** Ingesting a batch's readings is applying their decodings: malformed readings contribute nothing. */
  lemma {:induction false} ReadingsAsEvents(s: State, loc: string, count: nat, rs: seq<Reading>)
    requires |rs| <= count
    ensures CountsPositive(ParseAll(count, rs))
    ensures IngestReadings(s, loc, count, rs) == ApplyEvents(s, loc, ParseAll(count, rs))
    decreases |rs|
  {
    if rs != [] {
      var init := rs[..|rs| - 1];
      ReadingsAsEvents(s, loc, count, init);
      match Parse(rs[|rs| - 1], count)
      case None =>
      case Some(e) =>
        ApplyEventsAppend(s, loc, ParseAll(count, init), [e]);
    }
  }

  /** Ingesting a location's batches is applying all their decoded readings in order. */
  lemma {:induction false} BatchesAsEvents(s: State, loc: string, batches: seq<seq<Reading>>)
    ensures IngestBatches(s, loc, batches) == ApplyEvents(s, loc, EventsOf(batches))
    decreases |batches|
  {
    if batches != [] {
      var init := batches[..|batches| - 1];
      var b := batches[|batches| - 1];
      BatchesAsEvents(s, loc, init);
      ReadingsAsEvents(IngestBatches(s, loc, init), loc, |b|, b);
      ApplyEventsAppend(s, loc, EventsOf(init), ParseAll(|b|, b));
    }
  }

  /** A reading missing a timestamp leaves the state unchanged. */
  lemma MissingFieldSkipped(s: State, loc: string, count: nat, r: Reading)
    requires count >= 1
    requires r.initialTimestamp.None? || r.currentTimestamp.None?
    ensures IngestReading(s, loc, count, r) == s
  {
  }
}
