/**
  One (day, location) group of the tray hold-time report and the rule that
  folds a single decoded reading into it: create the group from its first
  reading, or update its running metrics.

  Timestamps are whole seconds on one naive clock; the textual formats
  `YYYYMMDD_HHMMSS` and `YYYY-MM-DD HH:MM:SS` are assumed already decoded.
 */
module Trays {
  import opened Wrappers

  /** Compliance threshold: four hours, in seconds. */
  const HoldLimit: int := 4 * 60 * 60

  const SecondsPerDay: int := 24 * 60 * 60

  /** Calendar day (days since the clock's epoch) of a timestamp. */
  function DayOf(t: int): int {
    t / SecondsPerDay
  }

  /** A hold time exceeds the threshold only when strictly longer than it. */
  predicate Exceeds(hold: int) {
    hold > HoldLimit
  }

  /** One tray reading; a key missing from the reading's record is None. */
  datatype Reading = Reading(initialTimestamp: Option<int>, currentTimestamp: Option<int>)

  /** A successfully decoded reading, with the size of the batch it came in. */
  datatype Event = Event(initial: int, hold: int, count: nat)

  /** The running metrics of one (day, location) group. */
  datatype Metrics = Metrics(
    firstTrayTime: int,
    lastTrayCount: nat,
    lastTrayTime: int,
    percentageTraysOverHold: real,
    totalTrays: nat,
    traysExceedingHoldTime: nat,
    totalHoldTime: int,
    averageHoldTime: Option<real>)

  /**
    Decodes a reading that arrived in a batch of `count` readings. A reading
    missing either timestamp yields None and is skipped by the caller.
   */
  function Parse(r: Reading, count: nat): (e: Option<Event>)
    ensures e.Some? <==> r.initialTimestamp.Some? && r.currentTimestamp.Some?
    ensures e.Some? ==> e.value.initial == r.initialTimestamp.value
    ensures e.Some? ==> e.value.initial + e.value.hold == r.currentTimestamp.value
    ensures e.Some? ==> e.value.count == count
  {
    match (r.initialTimestamp, r.currentTimestamp)
    case (Some(initial), Some(current)) => Some(Event(initial, current - initial, count))
    case _ => None
  }

  /** A batch of `count` trays observed at `time` replaces the stored last tray. */
  predicate Supersedes(count: nat, time: int, m: Metrics) {
    count > m.lastTrayCount || (count == m.lastTrayCount && time > m.lastTrayTime)
  }

  function Min(a: int, b: int): int {
    if a <= b then a else b
  }

  function Max(a: nat, b: nat): nat {
    if a >= b then a else b
  }

  /**
    The group created by its first reading: first and last tray coincide,
    the last count is the tray total, at most one exceedance is counted, and
    no average is stored yet.
   */
  function Seed(e: Event): (m: Metrics)
    ensures m.firstTrayTime == m.lastTrayTime
    ensures m.lastTrayCount == m.totalTrays
    ensures m.traysExceedingHoldTime <= 1
    ensures m.averageHoldTime.None?
    ensures e.count >= 1 ==> Valid(m)
  {
    Metrics(
      firstTrayTime := e.initial,
      lastTrayCount := e.count,
      lastTrayTime := e.initial,
      percentageTraysOverHold := 0.0,
      totalTrays := e.count,
      traysExceedingHoldTime := if Exceeds(e.hold) then 1 else 0,
      totalHoldTime := e.hold,
      averageHoldTime := None)
  }

  /**
    Folds a further reading into an existing group. The tray total and the
    exceedance count never decrease, the first tray time never increases,
    the hold total moves by exactly the reading's hold, and the invariant is kept.
   */
  function Update(m: Metrics, e: Event): (r: Metrics)
    requires e.count >= 1
    ensures r.totalTrays >= m.totalTrays
    ensures r.traysExceedingHoldTime >= m.traysExceedingHoldTime
    ensures r.firstTrayTime <= m.firstTrayTime
    ensures r.totalHoldTime - m.totalHoldTime == e.hold
    ensures Valid(m) ==> Valid(r)
  {
    var first := Min(m.firstTrayTime, e.initial);
    var replace := Supersedes(e.count, e.initial, m);
    var lastTime := if replace then e.initial else m.lastTrayTime;
    var lastCount := if replace then e.count else m.lastTrayCount;
    var trays := Max(e.count, m.totalTrays);
    var hold := m.totalHoldTime + e.hold;
    if Exceeds(e.hold) then
      var exceeding := m.traysExceedingHoldTime + 1;
      m.(firstTrayTime := first, lastTrayTime := lastTime, lastTrayCount := lastCount,
         totalTrays := trays, totalHoldTime := hold,
         traysExceedingHoldTime := exceeding,
         percentageTraysOverHold := (exceeding as real / trays as real) * 100.0)
    else
      m.(firstTrayTime := first, lastTrayTime := lastTime, lastTrayCount := lastCount,
         totalTrays := trays, totalHoldTime := hold)
  }

  /** Locate-or-create: the group's metrics after one more reading; every group it yields is valid. */
  function Absorb(g: Option<Metrics>, e: Event): (m: Metrics)
    requires e.count >= 1
    ensures ValidGroup(g) ==> Valid(m)
    ensures m.totalTrays >= e.count
  {
    match g
    case None => Seed(e)
    case Some(m) => Update(m, e)
  }

  /**
    The invariant every group keeps: the last tray count is the running
    maximum, which is at least one, and the first tray is not after the last.
   */
  predicate Valid(m: Metrics) {
    && m.lastTrayCount == m.totalTrays
    && m.totalTrays >= 1
    && m.firstTrayTime <= m.lastTrayTime
  }

  predicate ValidGroup(g: Option<Metrics>) {
    g.Some? ==> Valid(g.value)
  }

  /** Two metrics agree on everything the aggregation maintains (all but the average). */
  predicate SameRunning(a: Metrics, b: Metrics) {
    a.(averageHoldTime := None) == b.(averageHoldTime := None)
  }

  /** Creating a group seeds every running field from its first reading. */
  lemma CreateFromFirstReading(e: Event)
    requires e.count >= 1
    ensures var m := Absorb(None, e);
      && m.firstTrayTime == e.initial && m.lastTrayTime == e.initial
      && m.lastTrayCount == e.count && m.totalTrays == e.count
      && (m.traysExceedingHoldTime == 1 <==> e.hold > HoldLimit)
      && (m.traysExceedingHoldTime == 0 <==> e.hold <= HoldLimit)
      && m.totalHoldTime == e.hold
      && m.percentageTraysOverHold == 0.0
      && Valid(m)
  {
  }

  /**
    Updating a group: the first tray time is the minimum, the last tray is
    replaced exactly when the tie-break favours the new batch, the tray total
    is the running maximum, and the hold time is summed.
   */
  lemma UpdateRunningFields(m: Metrics, e: Event)
    requires e.count >= 1
    ensures var m' := Absorb(Some(m), e);
      && m'.firstTrayTime <= m.firstTrayTime && m'.firstTrayTime <= e.initial
      && (m'.firstTrayTime == m.firstTrayTime || m'.firstTrayTime == e.initial)
      && (Supersedes(e.count, e.initial, m) ==>
            m'.lastTrayTime == e.initial && m'.lastTrayCount == e.count)
      && (!Supersedes(e.count, e.initial, m) ==>
            m'.lastTrayTime == m.lastTrayTime && m'.lastTrayCount == m.lastTrayCount)
      && m'.totalTrays >= m.totalTrays && m'.totalTrays >= e.count
      && (m'.totalTrays == m.totalTrays || m'.totalTrays == e.count)
      && m'.totalHoldTime == m.totalHoldTime + e.hold
      && m'.averageHoldTime == m.averageHoldTime
  {
  }

  /**
    Exceedance on update: a reading strictly over the threshold adds one to
    the count and recomputes the percentage against the current tray total;
    any other reading leaves both unchanged.
   */
  lemma UpdateExceedance(m: Metrics, e: Event)
    requires e.count >= 1
    ensures var m' := Absorb(Some(m), e);
      && (e.hold > HoldLimit ==>
            && m'.traysExceedingHoldTime == m.traysExceedingHoldTime + 1
            && m'.percentageTraysOverHold * (m'.totalTrays as real)
               == (m'.traysExceedingHoldTime as real) * 100.0)
      && (e.hold <= HoldLimit ==>
            && m'.traysExceedingHoldTime == m.traysExceedingHoldTime
            && m'.percentageTraysOverHold == m.percentageTraysOverHold)
  {
  }

  /** Absorbing a reading ignores a stored average and keeps it as it was. */
  lemma AbsorbIgnoresAverage(a: Metrics, b: Metrics, e: Event)
    requires e.count >= 1
    requires SameRunning(a, b)
    ensures SameRunning(Absorb(Some(a), e), Absorb(Some(b), e))
    ensures Absorb(Some(a), e).averageHoldTime == a.averageHoldTime
  {
  }
}
