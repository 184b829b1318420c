# Tray hold-time aggregation, modelled in Dafny

This project models the core of a weekly food-holding compliance report:
`aggregate_metrics` in `sbarro_report.py`. It takes one location's telemetry
batches. Each batch is a list of tray readings, and each reading has a
placement ("initial") timestamp and a last-seen ("current") timestamp. The
function folds them into a shared map from calendar day to location name to
running metrics:

- first tray time;
- last tray time and count, chosen by a tie-break;
- tray total, a running maximum of batch sizes;
- readings held strictly longer than four hours, and their percentage;
- summed hold time.

A finalize pass then adds each group's average hold time and returns the
map with days and location names in ascending order. The caller runs this
once per location, accumulating into one map.

Modules:

- `Wrappers` (`wrappers.dfy`): `Option`, used for a key that may be
  missing, and `Result`, used for a run that may abort.
- `Ordering` (`ordering.dfy`): code-point order on strings, and sorting a
  finite set's elements into a strictly ascending sequence.
- `Trays` (`trays.dfy`): readings, decoding, the group record, and the
  create-or-update rule for one reading.
- `Groups` (`groups.dfy`): a group folded over a sequence of readings. Each
  running field is tied to an independent reference definition: sum, count,
  maximum, minimum, and lexicographic maximum.
- `Ingest` (`ingest.dfy`): the day → location → metrics state, ingestion of
  readings and batches, and routing of each reading to exactly one group.
- `Report` (`report.dfy`): the finalize pass, the loop-based
  `AggregateMetrics` method, and the run over all locations.
- `View` (`view.dfy`): the day- and name-ordered layout of the returned map.
- `Fetch` (`fetch.dfy`): what the fetch step hands to the aggregation, and
  the run over all locations as written and as intended (see Findings).
- `Scenarios` (`scenarios.dfy`): small concrete runs of notable behaviours.

Representation choices:

- Timestamps are whole seconds on one naive clock.
- A day is `t / 86400`, a day number. For the source's `%Y-%m-%d` keys,
  ascending string order and ascending day order agree.
- A reading holds two `Option<int>` timestamps; a missing key is `None`.
- Averages and percentages are exact `real` ratios.

Behaviours of the code worth knowing:

- A negative hold time (current before initial) is not rejected. It is summed
  like any other.
- A group's first reading never sets the percentage. A new group whose first
  reading is over the limit has one exceedance and a percentage of 0, not
  100 (`Scenarios.CreationLeavesPercentageZero`).
- The percentage is recomputed only when an exceeding reading arrives
  (lines 109-111), while the tray total can grow on any reading (line 105).
  A stale percentage therefore overstates the ratio once the tray total
  grows with no new exceedance: the old, larger ratio stays
  (`Scenarios.PercentageGoesStale`). The only understatement is the
  creation case above.
- Exceedances are counted per reading, but the tray total is the largest
  batch. One tray reported over the limit in several snapshots can
  therefore push the percentage above 100 (`Scenarios.PercentageCanPassHundred`).
- The batch size includes malformed readings, because it is taken before
  any reading is decoded (`Scenarios.MalformedReadingSkipped`).
- The four-hour limit is a constant in the code, not a parameter, and so it
  is a constant here (`Trays.HoldLimit`).

## Model

| member | source | states |
|---|---|---|
| `Trays.Parse` | sbarro_report.py:74-77 | A reading decodes exactly when both timestamps are present; the hold time is the current minus the initial timestamp; the event carries the batch size |
| `Trays.Seed` | sbarro_report.py:83-91 | A created group has equal first and last tray times, last count equal to its tray total, at most one exceedance and no average yet; it is valid whenever the batch is non-empty |
| `Trays.CreateFromFirstReading` | sbarro_report.py:80-91 | A new group has first and last tray time equal to the reading's initial timestamp and last count and tray total equal to the batch size. It counts one exceedance exactly when the hold is strictly over four hours, its hold total is the reading's hold, its percentage is 0, and it satisfies the group invariant |
| `Trays.Update` | sbarro_report.py:93-111 | An update never lowers the tray total or the exceedance count, never moves the first tray time later, adds exactly the reading's hold to the hold total, and keeps a valid group valid |
| `Trays.UpdateRunningFields` | sbarro_report.py:93-106 | On update: first tray time is the minimum of the stored and new initial timestamps. Last time and count are replaced exactly when the batch is larger, or equal in size and strictly later, and are otherwise unchanged. Tray total is the maximum and never decreases; hold total grows by the reading's hold |
| `Trays.UpdateExceedance` | sbarro_report.py:108-111 | A reading strictly over four hours adds one exceedance and sets the percentage so that percentage × current tray total = 100 × exceedances; any other reading leaves count and percentage unchanged |
| `Trays.Absorb` | sbarro_report.py:82-111 | Creating or updating a group keeps last count = tray total ≥ 1 and first tray time ≤ last tray time, and leaves a tray total of at least the batch size |
| `Trays.AbsorbIgnoresAverage` | sbarro_report.py:93-111 | An update neither reads nor changes a stored average |
| `Groups.FoldCreates` | sbarro_report.py:80-83 | A group exists after a sequence of readings exactly when it existed before or at least one reading reached it |
| `Groups.HoldTimeIsSum` | sbarro_report.py:90-106 | A group's hold total is its previous total plus the sum of the hold times of every reading routed to it |
| `Groups.ExceedingIsCount` | sbarro_report.py:89-110 | A group's exceedance count is its previous count plus the number of routed readings strictly over four hours |
| `Groups.TotalTraysIsMax` | sbarro_report.py:72-105 | A group's tray total is the maximum of its previous total and the sizes of the batches of its routed readings |
| `Groups.FirstTrayIsMin` | sbarro_report.py:84-95 | A group's first tray time is at or before every routed reading's initial timestamp and the previous value, and equals one of them |
| `Groups.LastTrayIsLexMax` | sbarro_report.py:85-103 | The stored (last count, last time) is the lexicographic maximum of (batch size, initial timestamp) over the previous pair and every routed reading: none supersedes it, and it is one of them |
| `Groups.FoldKeepsValid` | sbarro_report.py:84-105 | Over any sequence of readings a valid group stays valid; in particular last tray count always equals tray total |
| `Groups.FoldIgnoresAverage` | sbarro_report.py:93-111 | Groups that differ only in a stored average stay that way over any sequence of readings |
| `Ingest.ParseAll` | sbarro_report.py:72-77 | Every decoded reading of a batch comes from one of its readings, and every reading with both timestamps is decoded; there are at most as many as readings, each carrying the batch's full size, and when no reading is malformed they are exactly the readings' decodings in order |
| `Ingest.ParseAllMultiset` | sbarro_report.py:72-77 | Each decoded reading occurs in a batch's decoding exactly as many times as the well-formed reading it comes from occurs in the batch, and only with the batch's size |
| `Ingest.ParseAllAppend` | sbarro_report.py:73-77 | Decoding the concatenation of two parts of a batch is the first part's decoding followed by the second's, so decoding keeps the readings' order |
| `Ingest.OnDay` | sbarro_report.py:79 | The readings routed to a day are exactly those whose initial timestamp falls on it, each as often as it occurs in the input and no other reading at all |
| `Ingest.ApplyEvent` | sbarro_report.py:79-83 | After a decoded reading, its day is present and holds the location; no other day is added, and no day or location disappears |
| `Ingest.ApplyEventTouchesOneGroup` | sbarro_report.py:79-93 | A decoded reading changes only the group (its day, the location), creating it if absent; every other group and day is unchanged |
| `Ingest.DaysAfterEvents` | sbarro_report.py:79-81 | After a location's readings the days present are the previous days plus the days of those readings |
| `Ingest.RoutedToDayGroup` | sbarro_report.py:77-111 | After a location's readings, its group for a day is the fold of exactly that day's readings in order, and every other location's group is unchanged |
| `Ingest.ReadingsAsEvents` | sbarro_report.py:73-114 | Ingesting a batch's readings equals applying their decodings in order; a reading with a missing timestamp contributes nothing and processing goes on |
| `Ingest.BatchesAsEvents` | sbarro_report.py:70-73 | Ingesting a location's batches equals applying all their decoded readings in batch order |
| `Ingest.MissingFieldSkipped` | sbarro_report.py:112-114 | A reading missing either timestamp leaves the state unchanged |
| `Ingest.IngestReading` | sbarro_report.py:74-114 | A reading missing a timestamp leaves the state unchanged; a well-formed one makes its day and the location present; no day or location disappears |
| `Ingest.IngestReadings` | sbarro_report.py:73-114 | Ingesting a batch's readings in order never removes a day or a location |
| `Ingest.IngestBatch` | sbarro_report.py:70-114 | Ingesting one batch, every reading tagged with the batch's size, never removes a day or a location |
| `Ingest.IngestBatches` | sbarro_report.py:70-73 | Ingesting a location's batches never removes a day or a location |
| `Report.WithAverage` | sbarro_report.py:118-121 | The group with its average filled in keeps every running metric; the average times the tray total is the hold total, and the average is 0 when the tray total is 0 |
| `Report.Finalize` | sbarro_report.py:116-121 | Finalize keeps days, locations and all running metrics. Each average × tray total equals the hold total, and the average is 0 when the tray total is 0 |
| `Report.FinalizeLookup` | sbarro_report.py:116-121 | A group of the finalized state is the stored group with its average filled in, and no group appears or vanishes |
| `Report.FinalizeIdempotent` | sbarro_report.py:116-123 | Finalizing twice gives the same state as finalizing once |
| `Report.FinalizeOfSameRunning` | sbarro_report.py:116-121 | Finalize depends only on the running metrics, not on any stored average |
| `Report.ApplyEventsSameRunning` | sbarro_report.py:93-111 | States differing only in stored averages stay that way under any readings |
| `Report.IntermediateFinalizeInvisible` | sbarro_report.py:116-124 | Aggregating into an already finalized state gives the same result as aggregating into the unfinalized one |
| `Report.IngestKeepsValid` | sbarro_report.py:105-111 | Ingestion keeps every group valid; tray totals stay at least 1, so the percentage division never divides by zero |
| `Report.FinalizeKeepsValid` | sbarro_report.py:116-121 | Finalizing keeps every group valid |
| `Report.Aggregate` | sbarro_report.py:68-124 | One location's aggregation leaves exactly the previous days plus the days of its decoded readings, and keeps every group valid |
| `Report.AggregateKeepsValid` | sbarro_report.py:68-124 | Ingesting then finalizing keeps every group valid |
| `Report.IngestedGroup` | sbarro_report.py:70-111 | After a location's batches, its group for a day is the fold of that day's decoded readings from all batches |
| `Report.FinalizedGroup` | sbarro_report.py:77-121 | A reported group exists exactly when it existed or got a reading. Its hold total, exceedance count and tray total are the sum, count-over-four-hours and maximum batch size over its readings, combined with the stored values; its average is hold total per tray |
| `Report.AggregatedGroup` | sbarro_report.py:68-124 | One location's aggregation reports, for each day, the finalized fold of exactly that day's decoded readings |
| `Report.OtherLocationsUntouched` | sbarro_report.py:82-93 | Aggregating one location changes no other location's group beyond filling in its average |
| `Report.UpdateGroup` | sbarro_report.py:93-111 | The field-by-field in-place update produces the reference group update |
| `Report.IngestOne` | sbarro_report.py:74-114 | The per-reading step (decode, locate or create, update, or skip) produces the reference ingestion of that reading |
| `Report.AggregateMetrics` | sbarro_report.py:68-124 | The nested loops over batches and readings, followed by the finalize pass, compute ingestion-then-finalize of the whole batch sequence |
| `Report.RunLocations` | sbarro_report.py:245-249 | Every group of a whole run over all locations satisfies the group invariant |
| `Report.RunIsOneFinalize` | sbarro_report.py:245-249 | Aggregating locations one after another, finalizing each time, equals ingesting all of them and finalizing once |
| `Report.EmptyInputEmptyReport` | sbarro_report.py:245-249 | When every location yields an empty list of batches (the value a failed query returns, line 61), the result is the empty map |
| `View.OrderedStores` | sbarro_report.py:123 | A day's rows list every location exactly once with its metrics, names strictly ascending in code-point order |
| `View.Ordered` | sbarro_report.py:123 | The returned order lists every day exactly once, days strictly ascending, each with its location rows in order |
| `Fetch.FetchAsWritten` | sbarro_report.py:58-61 | The fetch step returns no list exactly when the query succeeds with no rows; a failed query gives an empty list, any other result its batches |
| `Fetch.FetchIntended` | sbarro_report.py:58-61 | No data, whether from a failed or an empty query, is an empty list; otherwise the batches, agreeing with the as-written fetch whenever that returns a list |
| `Fetch.RunAsWritten` | sbarro_report.py:245-249 | The run over all locations as written; an abort names a location of the input |
| `Fetch.AbortsOnEmptyResult` | sbarro_report.py:245-249 | The as-written run aborts exactly when some location's query succeeded with no rows, and it aborts at the first such location |
| `Fetch.EmptyResultAborts` | sbarro_report.py:58-70 | One location whose query returns no rows aborts the as-written run, while the intended run reports the empty map |
| `Fetch.RunIntended` | sbarro_report.py:245-249 | The run with the intended fetch never aborts, and every group it reports is valid |
| `Fetch.AsWrittenAgreesWhenComplete` | sbarro_report.py:245-249 | Whenever the as-written run completes, its result equals the intended run's |
| `Fetch.IntendedIsRunLocations` | sbarro_report.py:245-249 | The intended run is the accumulation over all locations applied to the intended fetch's batches |
| `Fetch.NoDataEmptyReport` | sbarro_report.py:245-249 | With the intended fetch, locations that produced no data give the empty map |
| `Ordering.SortSet` | sbarro_report.py:123 | Sorting a set yields each element once, strictly ascending under the given order |
| `Ordering.StrLessIsStrictTotal` | sbarro_report.py:123 | Code-point string order is irreflexive, transitive and total, so location names sort uniquely |
| `Scenarios.TrayTotalIsRunningMax` | sbarro_report.py:105 | Batches of 3, 5, 2, 7 trays give a tray total of 5 after three and 7 after four |
| `Scenarios.CountDominatesRecency` | sbarro_report.py:98-103 | (09:00, 5), (09:05, 5), (08:50, 6) leave last tray 08:50 with count 6, via 09:05 after the second |
| `Scenarios.AverageOfTwoReadings` | sbarro_report.py:116-121 | Hold times 2h and 6h in a batch of two average 4h, with one exceedance |
| `Scenarios.MalformedReadingSkipped` | sbarro_report.py:72-114 | A reading missing its current timestamp is skipped, but still counts toward the batch size |
| `Scenarios.ThresholdIsStrict` | sbarro_report.py:89 | Exactly four hours is not an exceedance; one second more is |
| `Scenarios.CreationLeavesPercentageZero` | sbarro_report.py:87-89 | A new group whose first reading is held five hours has one exceedance and percentage 0 |
| `Scenarios.PercentageGoesStale` | sbarro_report.py:105-111 | After an exceedance the percentage stays at 100 when the tray total grows to 4 without another exceedance |
| `Scenarios.PercentageCanPassHundred` | sbarro_report.py:105-111 | Three over-limit readings in one-tray batches give a percentage of 300 |

## Left out

- Connecting to the telemetry service, running the query and resolving location names (`sbarro_report.py:30-66`). These are network calls. A query's outcome (`Fetch.Response`) and a location's display name are inputs.
- The console messages for a location with no data and for a failed query (`sbarro_report.py:58-60`), and the message naming a skipped reading (`sbarro_report.py:113`). They are output only; the model keeps the values returned and the skip.
- Unwrapping the response envelope `records["data"]["readings"]["readings"]` (`sbarro_report.py:71`). Batches arrive already decoded as sequences of readings.
- Parsing the two timestamp formats with `strptime` (`sbarro_report.py:75-76`). This is a library call; timestamps are already-decoded integers. A malformed string raises an exception the code does not catch, so it is not modelled as a skip.
- Floating point and `timedelta` rounding in the percentage and the average. Both are exact rationals here.
- PDF rendering, email transport, configuration loading and the `asyncio` driver (`sbarro_report.py:19-28`, `127-260`). Only the pure accumulation loop of `main` (`sbarro_report.py:245-249`) is modelled, as `Report.RunLocations` and, with the fetch step's two no-data shapes, as `Fetch.RunAsWritten`.
- The textual day key. Days are day numbers; ascending string order of `%Y-%m-%d` matches ascending day order for four-digit years.
- The percentage over a whole sequence of readings. It is characterised one step at a time (`Trays.UpdateExceedance`), not over a whole sequence of readings, because its value depends on where the last exceedance fell.
- Report.EmptyInputEmptyReport: covers only the empty list a failed query returns (`sbarro_report.py:61`). A query that succeeds with no rows makes the as-written run abort instead; that path is `Fetch.RunAsWritten` (see Findings).

## Findings

| source | as written | input that shows it | evidently intended | confidence | as-written member | corrected member |
|---|---|---|---|---|---|---|
| sbarro_report.py:58 | A query that succeeds with no rows returns the result of the console message call, which is no list at all. The aggregation then fails iterating it (line 70), and the whole run stops before any report is built | One location whose query returns an empty result (`Fetch.EmptyResultAborts`) | No data is an empty list of batches, as on the failed-query path (line 61), so the run goes on and reports nothing for that location | high; not executed | `Fetch.RunAsWritten` (`Fetch.AbortsOnEmptyResult`) | `Fetch.RunIntended` (`Fetch.AsWrittenAgreesWhenComplete`, `Fetch.NoDataEmptyReport`) |
