/**
  The run over all locations, including what the fetch step hands to the
  aggregation. A failed query yields an empty list of batches, but a query
  that succeeds with no rows yields no list at all, and the aggregation then
  aborts the whole run when it tries to iterate it. The as-written run models
  that abort; the intended run treats both cases as an empty list.
 */
module Fetch {
  import opened Wrappers
  import opened Trays
  import opened Ingest
  import opened Report

  /** What a location's query produced: an error, or the (possibly empty) rows. */
  datatype Response = QueryFailed | Rows(batches: seq<seq<Reading>>)

  /** One location's name and query outcome. */
  datatype LocationResponse = LocationResponse(name: string, response: Response)

  /** The batches the fetch step returns as written; None is the absent list of an empty result. */
  function FetchAsWritten(resp: Response): (b: Option<seq<seq<Reading>>>)
    ensures b.None? <==> resp == Rows([])
    ensures b.Some? ==> b.value == (if resp.Rows? then resp.batches else [])
  {
    match resp
    case QueryFailed => Some([])
    case Rows(batches) => if batches == [] then None else Some(batches)
  }

  /** The batches the fetch step evidently means to return: no data is an empty list either way. */
  function FetchIntended(resp: Response): (b: seq<seq<Reading>>)
    ensures b == [] <==> resp.QueryFailed? || resp.batches == []
    ensures FetchAsWritten(resp).Some? ==> FetchAsWritten(resp).value == b
  {
    if resp.Rows? then resp.batches else []
  }

  /**
    The run as written: locations in order, each aggregated into the shared
    state; the first location whose fetch returned no list aborts the run,
    and the failure carries that location's position.
   */
  function RunAsWritten(inputs: seq<LocationResponse>): (r: Result<State, nat>)
    ensures r.Failure? ==> r.error < |inputs|
    decreases |inputs|
  {
    if inputs == [] then Success(map[])
    else
      var last := inputs[|inputs| - 1];
      match RunAsWritten(inputs[..|inputs| - 1])
      case Failure(k) => Failure(k)
      case Success(s) =>
        match FetchAsWritten(last.response)
        case None => Failure(|inputs| - 1)
        case Some(batches) => Success(Aggregate(batches, s, last.name))
  }

  /** The run with the intended fetch: it never aborts. */
  function RunIntended(inputs: seq<LocationResponse>): (r: State)
    ensures StateValid(r)
    decreases |inputs|
  {
    if inputs == [] then map[]
    else
      var last := inputs[|inputs| - 1];
      Aggregate(FetchIntended(last.response), RunIntended(inputs[..|inputs| - 1]), last.name)
  }

  /** Each location's name with the batches the intended fetch hands on. */
  function Fetched(inputs: seq<LocationResponse>): (r: seq<LocationData>)
    ensures |r| == |inputs|
    ensures forall i :: 0 <= i < |r| ==>
      r[i].name == inputs[i].name && r[i].batches == FetchIntended(inputs[i].response)
  {
    seq(|inputs|, i requires 0 <= i < |inputs| => LocationData(inputs[i].name, FetchIntended(inputs[i].response)))
  }

  /** The intended run is the accumulation over all locations applied to the fetched batches. */
  lemma {:induction false} IntendedIsRunLocations(inputs: seq<LocationResponse>)
    ensures RunIntended(inputs) == RunLocations(Fetched(inputs))
    decreases |inputs|
  {
    if inputs != [] {
      var init := inputs[..|inputs| - 1];
      IntendedIsRunLocations(init);
      assert Fetched(inputs)[..|inputs| - 1] == Fetched(init);
    }
  }

  /** The as-written run aborts exactly when some location's query succeeded with no rows, at the first such location. */
  lemma {:induction false} AbortsOnEmptyResult(inputs: seq<LocationResponse>)
    ensures RunAsWritten(inputs).Failure? <==> exists i :: 0 <= i < |inputs| && inputs[i].response == Rows([])
    ensures RunAsWritten(inputs).Failure? ==>
      var k := RunAsWritten(inputs).error;
      inputs[k].response == Rows([]) && forall j :: 0 <= j < k ==> inputs[j].response != Rows([])
    decreases |inputs|
  {
    if inputs != [] {
      var init := inputs[..|inputs| - 1];
      var last := inputs[|inputs| - 1];
      AbortsOnEmptyResult(init);
      assert forall i :: 0 <= i < |init| ==> init[i] == inputs[i];
      match RunAsWritten(init)
      case Failure(k) =>
        assert RunAsWritten(inputs) == Failure(k);
        assert inputs[k] == init[k];
      case Success(_) =>
        assert forall i :: 0 <= i < |init| ==> inputs[i].response != Rows([]);
        if last.response == Rows([]) {
          assert RunAsWritten(inputs) == Failure(|inputs| - 1);
        } else {
          assert RunAsWritten(inputs).Success?;
        }
    }
  }

  /** When the as-written run completes, it agrees with the intended run. */
  lemma {:induction false} AsWrittenAgreesWhenComplete(inputs: seq<LocationResponse>)
    ensures RunAsWritten(inputs).Success? ==> RunAsWritten(inputs).value == RunIntended(inputs)
    decreases |inputs|
  {
    if inputs != [] {
      AsWrittenAgreesWhenComplete(inputs[..|inputs| - 1]);
    }
  }

  /** With the intended fetch, locations that produced no data give an empty report instead of an abort. */
  lemma {:induction false} NoDataEmptyReport(inputs: seq<LocationResponse>)
    requires forall i :: 0 <= i < |inputs| ==> FetchIntended(inputs[i].response) == []
    ensures RunIntended(inputs) == map[]
    decreases |inputs|
  {
    if inputs != [] {
      var init := inputs[..|inputs| - 1];
      assert forall i :: 0 <= i < |init| ==> init[i] == inputs[i];
      NoDataEmptyReport(init);
      assert Finalize(map[]) == map[];
    }
  }

  /** One location whose query returned no rows: the as-written run aborts, the intended one reports nothing. */
  lemma EmptyResultAborts()
    ensures var inputs := [LocationResponse("Store", Rows([]))];
      RunAsWritten(inputs) == Failure(0) && RunIntended(inputs) == map[]
  {
    var inputs := [LocationResponse("Store", Rows([]))];
    assert inputs[..0] == [];
    assert Finalize(map[]) == map[];
  }
}
