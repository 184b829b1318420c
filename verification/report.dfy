/**
  The finalize pass (average hold time per group), the loop-based
  aggregation of one location's batches, and the accumulation over all
  locations.
 */
module Report {
  import opened Wrappers
  import opened Trays
  import opened Groups
  import opened Ingest

  /** Every group in the state keeps the group invariant. */
  ghost predicate StateValid(s: State) {
    forall d, l :: d in s && l in s[d] ==> Valid(s[d][l])
  }

  /** The average is set, and times the tray total it gives the total hold time. */
  predicate AveragePerTray(f: Metrics) {
    && f.averageHoldTime.Some?
    && (f.totalTrays > 0 ==> f.averageHoldTime.value * (f.totalTrays as real) == f.totalHoldTime as real)
    && (f.totalTrays == 0 ==> f.averageHoldTime.value == 0.0)
  }

  /** The group with its average hold time filled in; every running metric is kept. */
  function WithAverage(m: Metrics): (r: Metrics)
    ensures SameRunning(r, m)
    ensures AveragePerTray(r)
  {
    m.(averageHoldTime := Some(if m.totalTrays > 0 then m.totalHoldTime as real / m.totalTrays as real else 0.0))
  }

  /**
    Fills in every group's average hold time. Days, locations and all
    running metrics are kept; the average times the tray total is the total
    hold time, and the average of a group with no trays is zero.
   */
  function Finalize(s: State): (r: State)
    ensures r.Keys == s.Keys
    ensures forall d :: d in s ==> r[d].Keys == s[d].Keys
    ensures forall d, l :: d in s && l in s[d] ==>
      && SameRunning(r[d][l], s[d][l])
      && r[d][l].averageHoldTime.Some?
      && (s[d][l].totalTrays > 0 ==>
            r[d][l].averageHoldTime.value * (s[d][l].totalTrays as real) == s[d][l].totalHoldTime as real)
      && (s[d][l].totalTrays == 0 ==> r[d][l].averageHoldTime.value == 0.0)
  {
    map d | d in s :: map l | l in s[d] :: WithAverage(s[d][l])
  }

  /** Finalizing twice is finalizing once. */
  lemma FinalizeIdempotent(s: State)
    ensures Finalize(Finalize(s)) == Finalize(s)
  {
    var f := Finalize(s);
    forall d | d in s
      ensures Finalize(f)[d] == f[d]
    {
      assert forall l :: l in s[d] ==> WithAverage(f[d][l]) == f[d][l];
    }
  }

  /** Two states agree on days, locations and every running metric; only averages may differ. */
  ghost predicate SameRunningState(a: State, b: State) {
    && a.Keys == b.Keys
    && (forall d :: d in a ==> a[d].Keys == b[d].Keys)
    && (forall d, l :: d in a && l in a[d] ==> SameRunning(a[d][l], b[d][l]))
  }

  /** Finalize only depends on the running metrics. */
  lemma FinalizeOfSameRunning(a: State, b: State)
    requires SameRunningState(a, b)
    ensures Finalize(a) == Finalize(b)
  {
    forall d | d in a
      ensures Finalize(a)[d] == Finalize(b)[d]
    {
      forall l | l in a[d]
        ensures WithAverage(a[d][l]) == WithAverage(b[d][l])
      {
        assert a[d][l].(averageHoldTime := None) == b[d][l].(averageHoldTime := None);
      }
    }
  }

  lemma ApplyEventSameRunning(a: State, b: State, loc: string, e: Event)
    requires e.count >= 1
    requires SameRunningState(a, b)
    ensures SameRunningState(ApplyEvent(a, loc, e), ApplyEvent(b, loc, e))
  {
    var day := DayOf(e.initial);
    if Lookup(a, day, loc).Some? {
      AbsorbIgnoresAverage(a[day][loc], b[day][loc], e);
    }
  }

  lemma {:induction false} ApplyEventsSameRunning(a: State, b: State, loc: string, es: seq<Event>)
    requires CountsPositive(es)
    requires SameRunningState(a, b)
    ensures SameRunningState(ApplyEvents(a, loc, es), ApplyEvents(b, loc, es))
    decreases |es|
  {
    if es != [] {
      var init := es[..|es| - 1];
      ApplyEventsSameRunning(a, b, loc, init);
      ApplyEventSameRunning(ApplyEvents(a, loc, init), ApplyEvents(b, loc, init), loc, es[|es| - 1]);
    }
  }

  /** One location's contribution: ingest its batches into the shared state, then finalize. */
  function Aggregate(batches: seq<seq<Reading>>, dailyMetrics: State, locationName: string): (r: State)
    ensures r.Keys == dailyMetrics.Keys + DaysOf(EventsOf(batches))
    ensures StateValid(dailyMetrics) ==> StateValid(r)
  {
    BatchesAsEvents(dailyMetrics, locationName, batches);
    DaysAfterEvents(dailyMetrics, locationName, EventsOf(batches));
    AggregateKeepsValid(dailyMetrics, locationName, batches);
    Finalize(IngestBatches(dailyMetrics, locationName, batches))
  }

  lemma AggregateKeepsValid(s: State, loc: string, batches: seq<seq<Reading>>)
    ensures StateValid(s) ==> StateValid(Finalize(IngestBatches(s, loc, batches)))
  {
    if StateValid(s) {
      IngestKeepsValid(s, loc, batches);
      FinalizeKeepsValid(IngestBatches(s, loc, batches));
    }
  }

  /** Finalize keeps every group valid: it changes no running metric. */
  lemma FinalizeKeepsValid(s: State)
    requires StateValid(s)
    ensures StateValid(Finalize(s))
  {
    forall d, l | d in s && l in s[d]
      ensures Valid(Finalize(s)[d][l])
    {
      assert SameRunning(Finalize(s)[d][l], s[d][l]);
    }
  }

  /**
    Finalizing between locations is invisible: ingesting into a finalized
    state and finalizing again gives what a single final pass gives.
   */
  lemma IntermediateFinalizeInvisible(s: State, loc: string, batches: seq<seq<Reading>>)
    ensures Aggregate(batches, Finalize(s), loc) == Aggregate(batches, s, loc)
  {
    var es := EventsOf(batches);
    BatchesAsEvents(Finalize(s), loc, batches);
    BatchesAsEvents(s, loc, batches);
    ApplyEventsSameRunning(Finalize(s), s, loc, es);
    FinalizeOfSameRunning(ApplyEvents(Finalize(s), loc, es), ApplyEvents(s, loc, es));
  }

  /** Ingesting batches keeps every group valid; in particular every group has at least one tray. */
  lemma IngestKeepsValid(s: State, loc: string, batches: seq<seq<Reading>>)
    requires StateValid(s)
    ensures StateValid(IngestBatches(s, loc, batches))
  {
    var es := EventsOf(batches);
    var r := IngestBatches(s, loc, batches);
    BatchesAsEvents(s, loc, batches);
    forall d, l | d in r && l in r[d]
      ensures Valid(r[d][l])
    {
      RoutedToDayGroup(s, loc, es, d, l);
      assert Lookup(r, d, l) == Some(r[d][l]);
      if l == loc {
        FoldKeepsValid(Lookup(s, d, l), OnDay(es, d));
      }
    }
  }

  /** Looking a group up in the finalized state is looking it up and filling in its average. */
  lemma FinalizeLookup(t: State, day: int, l: string)
    ensures Lookup(Finalize(t), day, l)
         == match Lookup(t, day, l) case None => None case Some(m) => Some(WithAverage(m))
  {
  }

  /** The group (day, location) after a location's batches is the fold of that day's decoded readings. */
  lemma IngestedGroup(s: State, loc: string, batches: seq<seq<Reading>>, day: int)
    ensures CountsPositive(OnDay(EventsOf(batches), day))
    ensures Lookup(IngestBatches(s, loc, batches), day, loc)
         == GroupFold(Lookup(s, day, loc), OnDay(EventsOf(batches), day))
  {
    BatchesAsEvents(s, loc, batches);
    RoutedToDayGroup(s, loc, EventsOf(batches), day, loc);
  }

  /**
    A group after a fold and the finalize pass: it exists exactly when it
    existed or a reading reached it; its hold-time total, exceedance count and
    tray total are the stored values combined with the sum, the count over
    four hours and the maximum batch size over those readings; and its
    average is the total hold time per tray.
   */
  lemma FinalizedGroup(g: Option<Metrics>, es: seq<Event>)
    requires CountsPositive(es)
    ensures var r := GroupFold(g, es);
      && (r.Some? <==> g.Some? || es != [])
      && (r.Some? ==>
            var f := WithAverage(r.value);
            && f.totalHoldTime == BaseHold(g) + SumHold(es)
            && f.traysExceedingHoldTime == BaseExceeding(g) + CountExceeding(es)
            && f.totalTrays == Max(BaseTrays(g), MaxCount(es))
            && AveragePerTray(f))
  {
    FoldCreates(g, es);
    if g.Some? || es != [] {
      var m := GroupFold(g, es).value;
      HoldTimeIsSum(g, es);
      ExceedingIsCount(g, es);
      TotalTraysIsMax(g, es);
    }
  }

  /**
    End to end for one group: its reported metrics are those of the fold of
    exactly the location's decoded readings of that day, finalized.
   */
  lemma AggregatedGroup(s: State, loc: string, batches: seq<seq<Reading>>, day: int)
    ensures CountsPositive(OnDay(EventsOf(batches), day))
    ensures Lookup(Aggregate(batches, s, loc), day, loc)
         == match GroupFold(Lookup(s, day, loc), OnDay(EventsOf(batches), day))
            case None => None
            case Some(m) => Some(WithAverage(m))
  {
    IngestedGroup(s, loc, batches, day);
    FinalizeLookup(IngestBatches(s, loc, batches), day, loc);
  }

  /** Groups of other locations pass through a location's aggregation untouched (up to the average). */
  lemma OtherLocationsUntouched(s: State, loc: string, batches: seq<seq<Reading>>, day: int, l: string)
    requires l != loc
    ensures Lookup(Aggregate(batches, s, loc), day, l) == Lookup(Finalize(s), day, l)
  {
    BatchesAsEvents(s, loc, batches);
    RoutedToDayGroup(s, loc, EventsOf(batches), day, l);
    var before := IngestBatches(s, loc, batches);
    if day in s && l in s[day] {
      assert day in before && l in before[day];
    }
  }

  /** The update of an existing group by one reading, field by field in the source's order. */
  method UpdateGroup(m0: Metrics, initial: int, holdTime: int, totalTrays: nat) returns (m: Metrics)
    requires totalTrays >= 1
    ensures m == Absorb(Some(m0), Event(initial, holdTime, totalTrays))
  {
    m := m0;
    m := m.(firstTrayTime := Min(m.firstTrayTime, initial));
    if totalTrays > m.lastTrayCount || (totalTrays == m.lastTrayCount && initial > m.lastTrayTime) {
      m := m.(lastTrayTime := initial, lastTrayCount := totalTrays);
    }
    m := m.(totalTrays := Max(totalTrays, m.totalTrays));
    m := m.(totalHoldTime := m.totalHoldTime + holdTime);
    if holdTime > HoldLimit {
      m := m.(traysExceedingHoldTime := m.traysExceedingHoldTime + 1);
      m := m.(percentageTraysOverHold := (m.traysExceedingHoldTime as real / m.totalTrays as real) * 100.0);
    }
  }

  /** One reading of a batch of `totalTrays`: decode, locate or create the group, update it. */
  method IngestOne(metrics: State, locationName: string, totalTrays: nat, reading: Reading)
    returns (result: State)
    requires totalTrays >= 1
    ensures result == IngestReading(metrics, locationName, totalTrays, reading)
  {
    result := metrics;
    if reading.initialTimestamp.Some? && reading.currentTimestamp.Some? {
      var initial := reading.initialTimestamp.value;
      var current := reading.currentTimestamp.value;
      var holdTime := current - initial;
      var day := DayOf(initial);
      var stores := if day in metrics then metrics[day] else map[];
      if locationName !in stores {
        stores := stores[locationName := Metrics(
          firstTrayTime := initial,
          lastTrayCount := totalTrays,
          lastTrayTime := initial,
          percentageTraysOverHold := 0.0,
          totalTrays := totalTrays,
          traysExceedingHoldTime := if holdTime > HoldLimit then 1 else 0,
          totalHoldTime := holdTime,
          averageHoldTime := None)];
      } else {
        var m := UpdateGroup(stores[locationName], initial, holdTime, totalTrays);
        stores := stores[locationName := m];
      }
      result := metrics[day := stores];
    }
  }

  /**
    The aggregation of one location's batches as the source writes it: a
    loop over batches, an inner loop over readings, and the finalize pass.
   */
  method AggregateMetrics(data: seq<seq<Reading>>, dailyMetrics: State, locationName: string)
    returns (result: State)
    ensures result == Aggregate(data, dailyMetrics, locationName)
  {
    var metrics := dailyMetrics;
    for i := 0 to |data|
      invariant metrics == IngestBatches(dailyMetrics, locationName, data[..i])
    {
      var readings := data[i];
      var totalTrays := |readings|;
      ghost var before := metrics;
      for j := 0 to |readings|
        invariant metrics == IngestReadings(before, locationName, totalTrays, readings[..j])
      {
        metrics := IngestOne(metrics, locationName, totalTrays, readings[j]);
        assert readings[..j + 1][..j] == readings[..j];
      }
      assert readings[..|readings|] == readings;
      assert data[..i + 1][..i] == data[..i];
    }
    assert data[..|data|] == data;
    result := Finalize(metrics);
  }

  /** One location's input: its display name and its batches. */
  datatype LocationData = LocationData(name: string, batches: seq<seq<Reading>>)

  /** The whole run: every location aggregated in turn into one shared state, starting empty. */
  function RunLocations(inputs: seq<LocationData>): (r: State)
    ensures StateValid(r)
    decreases |inputs|
  {
    if inputs == [] then map[]
    else
      var last := inputs[|inputs| - 1];
      Aggregate(last.batches, RunLocations(inputs[..|inputs| - 1]), last.name)
  }

  /** The run without its finalize passes. */
  function IngestLocations(inputs: seq<LocationData>): State
    decreases |inputs|
  {
    if inputs == [] then map[]
    else
      var last := inputs[|inputs| - 1];
      IngestBatches(IngestLocations(inputs[..|inputs| - 1]), last.name, last.batches)
  }

  /** The per-location finalize passes amount to one pass at the end of the run. */
  lemma {:induction false} RunIsOneFinalize(inputs: seq<LocationData>)
    ensures RunLocations(inputs) == Finalize(IngestLocations(inputs))
    decreases |inputs|
  {
    if inputs != [] {
      var init := inputs[..|inputs| - 1];
      var last := inputs[|inputs| - 1];
      RunIsOneFinalize(init);
      IntermediateFinalizeInvisible(IngestLocations(init), last.name, last.batches);
    } else {
      assert Finalize(map[]) == map[];
    }
  }

  /** No batches anywhere gives an empty report, not an error. */
  lemma {:induction false} EmptyInputEmptyReport(inputs: seq<LocationData>)
    requires forall i :: 0 <= i < |inputs| ==> inputs[i].batches == []
    ensures RunLocations(inputs) == map[]
    decreases |inputs|
  {
    if inputs != [] {
      EmptyInputEmptyReport(inputs[..|inputs| - 1]);
      assert Finalize(map[]) == map[];
    }
  }
}
