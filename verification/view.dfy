/**
  The order in which the returned dictionary is laid out: days ascending,
  and within a day, locations ascending by name.
 */
module View {
  import opened Ordering
  import opened Trays
  import opened Ingest

  /** A location row of the ordered view. */
  datatype StoreRow = StoreRow(location: string, metrics: Metrics)

  /** A day section of the ordered view. */
  datatype DayRows = DayRows(day: int, stores: seq<StoreRow>)

  /** The rows for the given names, in the given order. */
  function StoreRows(stores: map<string, Metrics>, names: seq<string>): (rows: seq<StoreRow>)
    requires forall i :: 0 <= i < |names| ==> names[i] in stores
    ensures |rows| == |names|
    ensures forall i :: 0 <= i < |rows| ==> rows[i] == StoreRow(names[i], stores[names[i]])
  {
    seq(|names|, i requires 0 <= i < |names| => StoreRow(names[i], stores[names[i]]))
  }

  /**
    The rows list every location of the day exactly once, with its metrics,
    names strictly ascending in code-point order.
   */
  ghost predicate ListsStores(rows: seq<StoreRow>, stores: map<string, Metrics>) {
    && |rows| == |stores|
    && (forall i :: 0 <= i < |rows| ==>
         rows[i].location in stores && rows[i].metrics == stores[rows[i].location])
    && (forall l :: l in stores ==> exists i :: 0 <= i < |rows| && rows[i].location == l)
    && (forall i, j :: 0 <= i < j < |rows| ==> StrLess(rows[i].location, rows[j].location))
  }

  /** Rows built from the sorted key set list the day's locations in order. */
  lemma {:induction false} SortedRowsListStores(stores: map<string, Metrics>, names: seq<string>)
    requires |names| == |stores|
    requires forall i :: 0 <= i < |names| ==> names[i] in stores
    requires forall l :: l in stores ==> l in names
    requires forall i, j :: 0 <= i < j < |names| ==> StrLess(names[i], names[j])
    ensures ListsStores(StoreRows(stores, names), stores)
  {
    var rows := StoreRows(stores, names);
    forall l | l in stores
      ensures exists i :: 0 <= i < |rows| && rows[i].location == l
    {
      var i :| 0 <= i < |names| && names[i] == l;
      assert rows[i].location == l;
    }
  }

  /** One day's groups, location names strictly ascending, each with its metrics. */
  function OrderedStores(stores: map<string, Metrics>): (rows: seq<StoreRow>)
    ensures ListsStores(rows, stores)
  {
    var names := SortedNames(stores.Keys);
    SortedRowsListStores(stores, names);
    StoreRows(stores, names)
  }

  /** The day sections for the given days, in the given order. */
  function DaySections(s: State, days: seq<int>): (v: seq<DayRows>)
    requires forall i :: 0 <= i < |days| ==> days[i] in s
    ensures |v| == |days|
    ensures forall i :: 0 <= i < |v| ==> v[i] == DayRows(days[i], OrderedStores(s[days[i]]))
  {
    seq(|days|, i requires 0 <= i < |days| => DayRows(days[i], OrderedStores(s[days[i]])))
  }

  /**
    The sections list every day of the state exactly once, days strictly
    ascending, each with its ordered location rows.
   */
  ghost predicate ListsDays(v: seq<DayRows>, s: State) {
    && |v| == |s|
    && (forall i :: 0 <= i < |v| ==> v[i].day in s && v[i].stores == OrderedStores(s[v[i].day]))
    && (forall d :: d in s ==> exists i :: 0 <= i < |v| && v[i].day == d)
    && (forall i, j :: 0 <= i < j < |v| ==> v[i].day < v[j].day)
  }

  /** Sections built from the sorted day set list the state's days in order. */
  lemma {:induction false} SortedSectionsListDays(s: State, days: seq<int>)
    requires |days| == |s|
    requires forall i :: 0 <= i < |days| ==> days[i] in s
    requires forall d :: d in s ==> d in days
    requires forall i, j :: 0 <= i < j < |days| ==> days[i] < days[j]
    ensures ListsDays(DaySections(s, days), s)
  {
    var v := DaySections(s, days);
    forall d | d in s
      ensures exists i :: 0 <= i < |v| && v[i].day == d
    {
      var i :| 0 <= i < |days| && days[i] == d;
      assert v[i].day == d;
    }
  }

  /**
    The iteration order of the returned dictionary: days strictly ascending,
    each day's locations strictly ascending by name, every group exactly once.
   */
  function Ordered(s: State): (v: seq<DayRows>)
    ensures ListsDays(v, s)
  {
    var days := SortedDays(s.Keys);
    SortedSectionsListDays(s, days);
    DaySections(s, days)
  }
}
