/**
  Concrete instances of the aggregation, each a behaviour of the source worth
  seeing on small data: the running maximum, the tie-break, the average,
  the malformed-reading skip, and how the exceedance percentage behaves.
 */
module Scenarios {
  import opened Wrappers
  import opened Trays
  import opened Ingest
  import opened Report

  const Hour: int := 60 * 60

  /** A group folded from three readings in order. */
  function Fold3(a: Event, b: Event, c: Event): Metrics
    requires a.count >= 1 && b.count >= 1 && c.count >= 1
  {
    Absorb(Some(Absorb(Some(Absorb(None, a)), b)), c)
  }

  /** Batches of 3, 5, 2 and 7 trays on one day: the tray total ends at 7 and never drops to 2. */
  lemma TrayTotalIsRunningMax()
    ensures var m := Fold3(Event(9 * Hour, 0, 3), Event(10 * Hour, 0, 5), Event(11 * Hour, 0, 2));
      && m.totalTrays == 5
      && Absorb(Some(m), Event(12 * Hour, 0, 7)).totalTrays == 7
  {
  }

  /** (09:00, 5) then (09:05, 5) then (08:50, 6): the count dominates recency. */
  lemma CountDominatesRecency()
    ensures var a := Event(9 * Hour, 0, 5);
      var b := Event(9 * Hour + 300, 0, 5);
      var c := Event(8 * Hour + 3000, 0, 6);
      && Absorb(Some(Absorb(None, a)), b).lastTrayTime == 9 * Hour + 300
      && Fold3(a, b, c).lastTrayTime == 8 * Hour + 3000
      && Fold3(a, b, c).lastTrayCount == 6
      && Fold3(a, b, c).firstTrayTime == 8 * Hour + 3000
  {
  }

  /** One batch ingested into an empty state is its readings ingested in order. */
  lemma OneBatchOfTwo(loc: string, batch: seq<Reading>)
    requires |batch| == 2
    ensures IngestBatches(map[], loc, [batch])
         == IngestReading(IngestReading(map[], loc, 2, batch[0]), loc, 2, batch[1])
  {
    assert [batch][..0] == [];
    assert IngestBatches(map[], loc, [batch]) == IngestReadings(map[], loc, 2, batch);
    assert batch[..|batch| - 1] == [batch[0]];
    assert [batch[0]][..0] == [];
    assert IngestReadings(map[], loc, 2, [batch[0]]) == IngestReading(map[], loc, 2, batch[0]);
  }

  /** Two readings held 2h and 6h in a batch of two: the average is 4h. */
  lemma AverageOfTwoReadings()
    ensures var batch := [Reading(Some(8 * Hour), Some(10 * Hour)), Reading(Some(9 * Hour), Some(15 * Hour))];
      var r := Aggregate([batch], map[], "Store");
      && 0 in r && "Store" in r[0]
      && r[0]["Store"].totalTrays == 2
      && r[0]["Store"].averageHoldTime == Some(4.0 * Hour as real)
      && r[0]["Store"].traysExceedingHoldTime == 1
  {
    var batch := [Reading(Some(8 * Hour), Some(10 * Hour)), Reading(Some(9 * Hour), Some(15 * Hour))];
    OneBatchOfTwo("Store", batch);
    var s1 := IngestReading(map[], "Store", 2, batch[0]);
    assert s1 == map[0 := map["Store" := Seed(Event(8 * Hour, 2 * Hour, 2))]];
    var m := Update(Seed(Event(8 * Hour, 2 * Hour, 2)), Event(9 * Hour, 6 * Hour, 2));
    assert Parse(batch[1], 2) == Some(Event(9 * Hour, 6 * Hour, 2));
    assert DayOf(9 * Hour) == 0;
    assert Lookup(s1, 0, "Store") == Some(Seed(Event(8 * Hour, 2 * Hour, 2)));
    assert Absorb(Some(Seed(Event(8 * Hour, 2 * Hour, 2))), Event(9 * Hour, 6 * Hour, 2)) == m;
    assert IngestReading(s1, "Store", 2, batch[1]) == s1[0 := s1[0]["Store" := m]];
    assert s1[0]["Store" := m] == map["Store" := m];
    assert m.totalHoldTime == 8 * Hour && m.totalTrays == 2 && m.traysExceedingHoldTime == 1;
    var t := IngestBatches(map[], "Store", [batch]);
    assert t == map[0 := map["Store" := m]];
    FinalizeLookup(t, 0, "Store");
    var f := WithAverage(m);
    assert f.averageHoldTime.value * 2.0 == 8.0 * Hour as real;
    assert Lookup(Finalize(t), 0, "Store") == Some(f);
  }

  /**
    A well-formed reading and one missing its current timestamp: only the
    well-formed one reaches the group, but the tray count is still the
    batch's full length of two.
   */
  lemma MalformedReadingSkipped()
    ensures var batch := [Reading(Some(8 * Hour), Some(9 * Hour)), Reading(Some(8 * Hour), None)];
      var r := IngestBatches(map[], "Store", [batch]);
      && r == map[0 := map["Store" := Seed(Event(8 * Hour, Hour, 2))]]
      && r[0]["Store"].totalHoldTime == Hour
      && r[0]["Store"].totalTrays == 2
  {
    var batch := [Reading(Some(8 * Hour), Some(9 * Hour)), Reading(Some(8 * Hour), None)];
    OneBatchOfTwo("Store", batch);
  }

  /** Exactly four hours is not an exceedance; one second more is. */
  lemma ThresholdIsStrict()
    ensures Absorb(None, Event(0, 4 * Hour, 1)).traysExceedingHoldTime == 0
    ensures Absorb(None, Event(0, 4 * Hour + 1, 1)).traysExceedingHoldTime == 1
  {
  }

  /**
    A new group whose first reading is held five hours counts one
    exceedance over one tray, yet its percentage stays 0: the percentage
    is only computed on updates.
   */
  lemma CreationLeavesPercentageZero()
    ensures var m := Absorb(None, Event(0, 5 * Hour, 1));
      m.traysExceedingHoldTime == 1 && m.totalTrays == 1 && m.percentageTraysOverHold == 0.0
  {
  }

  /**
    The percentage is recomputed only on an exceedance: after one exceeding
    reading out of one tray it is 100, and a later batch of four trays with
    no exceedance leaves it at 100 rather than 25.
   */
  lemma PercentageGoesStale()
    ensures var a := Event(0, Hour, 1);
      var b := Event(60, 5 * Hour, 1);
      var m := Fold3(a, b, Event(120, Hour, 4));
      && Absorb(Some(Absorb(None, a)), b).percentageTraysOverHold == 100.0
      && m.traysExceedingHoldTime == 1
      && m.totalTrays == 4
      && m.percentageTraysOverHold == 100.0
  {
  }

  /**
    Exceedances are counted per reading while the tray total is a maximum
    per batch, so one tray seen over hold in three snapshots of one tray
    ends with three exceedances and a percentage of 300.
   */
  lemma PercentageCanPassHundred()
    ensures var m := Fold3(Event(0, 5 * Hour, 1), Event(0, 6 * Hour, 1), Event(0, 7 * Hour, 1));
      m.traysExceedingHoldTime == 3 && m.totalTrays == 1 && m.percentageTraysOverHold == 300.0
  {
  }
}
