/**
  The metrics of one group after a sequence of readings, and the
  all-inputs characterisation of every running field against an
  independent reference definition (sum, count, maximum, minimum,
  lexicographic maximum).
 */
module Groups {
  import opened Wrappers
  import opened Trays

  /** Every event came from a batch with at least one reading. */
  predicate CountsPositive(es: seq<Event>) {
    forall i :: 0 <= i < |es| ==> es[i].count >= 1
  }

  /** The group after absorbing `es` in order, starting from `g` (None: no group yet). */
  function GroupFold(g: Option<Metrics>, es: seq<Event>): Option<Metrics>
    requires CountsPositive(es)
    decreases |es|
  {
    if es == [] then g
    else Some(Absorb(GroupFold(g, es[..|es| - 1]), es[|es| - 1]))
  }

  function SumHold(es: seq<Event>): int
    decreases |es|
  {
    if es == [] then 0 else SumHold(es[..|es| - 1]) + es[|es| - 1].hold
  }

  function CountExceeding(es: seq<Event>): nat
    decreases |es|
  {
    if es == [] then 0
    else CountExceeding(es[..|es| - 1]) + (if Exceeds(es[|es| - 1].hold) then 1 else 0)
  }

  function MaxCount(es: seq<Event>): nat
    decreases |es|
  {
    if es == [] then 0 else Max(MaxCount(es[..|es| - 1]), es[|es| - 1].count)
  }

  function BaseHold(g: Option<Metrics>): int {
    match g
    case None => 0
    case Some(m) => m.totalHoldTime
  }

  function BaseExceeding(g: Option<Metrics>): nat {
    match g
    case None => 0
    case Some(m) => m.traysExceedingHoldTime
  }

  function BaseTrays(g: Option<Metrics>): nat {
    match g
    case None => 0
    case Some(m) => m.totalTrays
  }

  /** A group exists after the fold exactly when it existed or some reading reached it. */
  lemma {:induction false} FoldCreates(g: Option<Metrics>, es: seq<Event>)
    requires CountsPositive(es)
    ensures GroupFold(g, es).Some? <==> g.Some? || es != []
    ensures es == [] ==> GroupFold(g, es) == g
  {
  }

  /** The total hold time is the stored total plus the sum over the readings. */
  lemma {:induction false} HoldTimeIsSum(g: Option<Metrics>, es: seq<Event>)
    requires CountsPositive(es)
    requires g.Some? || es != []
    ensures GroupFold(g, es).Some?
    ensures GroupFold(g, es).value.totalHoldTime == BaseHold(g) + SumHold(es)
    decreases |es|
  {
    if es != [] {
      var init := es[..|es| - 1];
      if init != [] || g.Some? {
        HoldTimeIsSum(g, init);
      }
    }
  }

  /** The exceedance count is the stored count plus the readings strictly over four hours. */
  lemma {:induction false} ExceedingIsCount(g: Option<Metrics>, es: seq<Event>)
    requires CountsPositive(es)
    requires g.Some? || es != []
    ensures GroupFold(g, es).Some?
    ensures GroupFold(g, es).value.traysExceedingHoldTime == BaseExceeding(g) + CountExceeding(es)
    decreases |es|
  {
    if es != [] {
      var init := es[..|es| - 1];
      if init != [] || g.Some? {
        ExceedingIsCount(g, init);
      }
    }
  }

  /** The tray total is the running maximum of the stored total and every batch size. */
  lemma {:induction false} TotalTraysIsMax(g: Option<Metrics>, es: seq<Event>)
    requires CountsPositive(es)
    requires g.Some? || es != []
    ensures GroupFold(g, es).Some?
    ensures GroupFold(g, es).value.totalTrays == Max(BaseTrays(g), MaxCount(es))
    decreases |es|
  {
    if es != [] {
      var init := es[..|es| - 1];
      if init != [] || g.Some? {
        TotalTraysIsMax(g, init);
      }
    }
  }

  /** The first tray time is the earliest initial timestamp seen (stored or new). */
  lemma {:induction false} FirstTrayIsMin(g: Option<Metrics>, es: seq<Event>)
    requires CountsPositive(es)
    requires g.Some? || es != []
    ensures GroupFold(g, es).Some?
    ensures var r := GroupFold(g, es).value;
      && (forall i :: 0 <= i < |es| ==> r.firstTrayTime <= es[i].initial)
      && (g.Some? ==> r.firstTrayTime <= g.value.firstTrayTime)
      && ((g.Some? && r.firstTrayTime == g.value.firstTrayTime)
          || exists i :: 0 <= i < |es| && r.firstTrayTime == es[i].initial)
    decreases |es|
  {
    if es != [] {
      var init := es[..|es| - 1];
      var last := es[|es| - 1];
      if init != [] || g.Some? {
        FirstTrayIsMin(g, init);
        var p := GroupFold(g, init).value;
        var r := GroupFold(g, es).value;
        if r.firstTrayTime == last.initial {
          assert es[|es| - 1].initial == r.firstTrayTime;
        } else {
          assert r.firstTrayTime == p.firstTrayTime;
          if !(g.Some? && r.firstTrayTime == g.value.firstTrayTime) {
            var i :| 0 <= i < |init| && p.firstTrayTime == init[i].initial;
            assert es[i] == init[i];
          }
        }
      }
    }
  }

  /**
    The last tray is the lexicographic maximum of (batch size, initial
    timestamp) over the stored last tray and every reading: no reading
    supersedes it, and it is one of them.
   */
  lemma {:induction false} LastTrayIsLexMax(g: Option<Metrics>, es: seq<Event>)
    requires CountsPositive(es)
    requires g.Some? || es != []
    ensures GroupFold(g, es).Some?
    ensures var r := GroupFold(g, es).value;
      && (forall i :: 0 <= i < |es| ==> !Supersedes(es[i].count, es[i].initial, r))
      && (g.Some? ==> !Supersedes(g.value.lastTrayCount, g.value.lastTrayTime, r))
      && ((g.Some? && r.lastTrayCount == g.value.lastTrayCount && r.lastTrayTime == g.value.lastTrayTime)
          || exists i :: 0 <= i < |es| && r.lastTrayCount == es[i].count && r.lastTrayTime == es[i].initial)
    decreases |es|
  {
    if es != [] {
      var init := es[..|es| - 1];
      var last := es[|es| - 1];
      var r := GroupFold(g, es).value;
      if init != [] || g.Some? {
        LastTrayIsLexMax(g, init);
        var p := GroupFold(g, init).value;
        assert r == Update(p, last);
        forall i | 0 <= i < |es|
          ensures !Supersedes(es[i].count, es[i].initial, r)
        {
          if i < |init| {
            assert es[i] == init[i];
          }
        }
        if !Supersedes(last.count, last.initial, p) {
          if !(g.Some? && r.lastTrayCount == g.value.lastTrayCount && r.lastTrayTime == g.value.lastTrayTime) {
            var i :| 0 <= i < |init| && p.lastTrayCount == init[i].count && p.lastTrayTime == init[i].initial;
            assert es[i] == init[i];
          }
        } else {
          assert r.lastTrayCount == es[|es| - 1].count && r.lastTrayTime == es[|es| - 1].initial;
        }
      } else {
        assert |es| == 1 && GroupFold(g, init) == None;
        assert r == Seed(last);
        assert r.lastTrayCount == es[0].count && r.lastTrayTime == es[0].initial;
      }
    }
  }

  /** Every group the fold produces keeps the invariant; in particular the last tray count equals the tray total. */
  lemma {:induction false} FoldKeepsValid(g: Option<Metrics>, es: seq<Event>)
    requires CountsPositive(es)
    requires ValidGroup(g)
    ensures ValidGroup(GroupFold(g, es))
    decreases |es|
  {
    if es != [] {
      FoldKeepsValid(g, es[..|es| - 1]);
    }
  }

  /** A stored average plays no part in the fold: starting points that differ only there end the same way. */
  lemma {:induction false} FoldIgnoresAverage(a: Metrics, b: Metrics, es: seq<Event>)
    requires CountsPositive(es)
    requires SameRunning(a, b)
    ensures GroupFold(Some(a), es).Some? && GroupFold(Some(b), es).Some?
    ensures SameRunning(GroupFold(Some(a), es).value, GroupFold(Some(b), es).value)
    decreases |es|
  {
    if es != [] {
      var init := es[..|es| - 1];
      FoldIgnoresAverage(a, b, init);
      AbsorbIgnoresAverage(GroupFold(Some(a), init).value, GroupFold(Some(b), init).value, es[|es| - 1]);
    }
  }
}
