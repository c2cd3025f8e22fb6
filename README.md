# YCSB time-series measurement and RonDB client dispatch, in Dafny

This project models two parts of the YCSB benchmark client.

**The time-series latency measurement** (`OneMeasurementTimeSeries`):

- It averages the latencies of one operation type, such as READ, in fixed windows of `granularity` milliseconds.
- It keeps the lifetime count, total, minimum and maximum.
- It keeps a second pair of counters that the status reporter drains with `getSummary`.
- At export, it force-closes the open window. It then writes the statistics and one record per window.

**The RonDB client binding** (`RonDBClient`):

- One instance exists per worker thread.
- `init` does four things:
  - takes the next worker ordinal from a shared counter;
  - creates the shared completion latch once;
  - builds a ClusterJ writer;
  - chooses a reader: the writer itself, a REST client or a gRPC client.
- Each operation goes to the reader or the writer. A read or scan without a field list gets the known field names; a batch read's field lists pass unchanged. An exception from a backend becomes `ERROR`.
- `cleanup` counts the latch down, waits for every peer, then cleans the reader and the writer.

Files:

- `timeseries.dfy` (module `TimeSeries`) holds:
  - class `OneMeasurementTimeSeries`, whose methods update its fields in place;
  - the ghost `Fields`/`Log` value of those fields;
  - the specification functions of each step (`Opened`, `CloseAt`, `AfterCheck`, `Sampled`, `AfterMeasure`, `Drained`);
  - the object invariant `Inv` and the lemmas about it.
- The ghost `Log` records the history behind the counters:
  - every sample;
  - the samples and elapsed times of each closed window and of the open one;
  - the last clock reading;
  - where the status window began;
  - whether a close was ever forced.

  The invariant ties every counter to this history.
- `rondb.dfy` (module `RonDB`) holds:
  - the classes `RonDBClient`, `Backend` (a backend that records the calls it receives), `Latch` (the completion latch as a counter) and `RunContext` (the shared static state: ordinal counter and latch);
  - pure functions for the parts that only choose: selector, routing, status mapping and exception wrapping.
- `decimal.dfy` (module `Decimal`) renders integers in decimal, as `Long.toString` and string concatenation with an `int` do.
- `wrappers.dfy` (module `Wrappers`) holds `Option`, `Outcome` and `Result`.

Conventions:

- The wall clock is the parameter `now`.
- Answers and exceptions of the backends are parameters (`Answer`, `Option<Exception>`).
- The parsed configuration is a `Config` value.
- An average is the exact pair `Average(total, operations)`, never divided. A window closed without samples holds `Average(0, 0)`, where Java computes 0.0/0.0.

## Model

| member | source | states |
|---|---|---|
| TimeSeries.UnitOf | core/src/main/java/site/ycsb/measurements/OneMeasurementTimeSeries.java:91 | The window of an elapsed time is a non-negative multiple of the granularity, at most the elapsed time and more than elapsed − granularity. |
| TimeSeries.UnitOfIsDivision | core/src/main/java/site/ycsb/measurements/OneMeasurementTimeSeries.java:91 | That window equals `(elapsed / granularity) * granularity`. |
| TimeSeries.UnitOfMonotone | core/src/main/java/site/ycsb/measurements/OneMeasurementTimeSeries.java:91 | A later elapsed time never falls into an earlier window. |
| TimeSeries.TrackedMaxUnset | core/src/main/java/site/ycsb/measurements/OneMeasurementTimeSeries.java:115-117 | While every sample is negative, `max` stays at the −1 sentinel. |
| TimeSeries.TrackedMaxIsMaximum | core/src/main/java/site/ycsb/measurements/OneMeasurementTimeSeries.java:115-117 | Once some sample is non-negative, the tracked `max` (starting at the −1 sentinel) is a sample and no sample exceeds it. |
| TimeSeries.TrackedMinIsMinimum | core/src/main/java/site/ycsb/measurements/OneMeasurementTimeSeries.java:119-121 | When there is at least one sample and none is negative, the tracked `min` is a sample and no sample is below it, so a sample of 0 is kept. |
| TimeSeries.TrackedMinAfterNegative | core/src/main/java/site/ycsb/measurements/OneMeasurementTimeSeries.java:119-121 | A negative `min` counts as unset: after −5 the next sample 3 replaces it, a later 7 does not and a later 2 does. |
| TimeSeries.SeriesEventsAt | core/src/main/java/site/ycsb/measurements/OneMeasurementTimeSeries.java:147-149 | One write per window record, in list order; the k-th is labelled with the decimal offset of the k-th window and carries its average. |
| TimeSeries.HeaderOrder | core/src/main/java/site/ycsb/measurements/OneMeasurementTimeSeries.java:129-146 | The write order: BatchSize first only for "BATCH_READ"/"BATCH_UPDATE", with the matching batch size. Then Operations, AverageLatency(us), MinLatency(us) and MaxLatency(us), prefixed "Batch" exactly for those two names. Then the status counts. |
| TimeSeries.ExportOrder | core/src/main/java/site/ycsb/measurements/OneMeasurementTimeSeries.java:129-149 | The export is the statistics writes followed by one write per window record, the k-th reporting the k-th window. |
| TimeSeries.ClosedWindowsExact | core/src/main/java/site/ycsb/measurements/OneMeasurementTimeSeries.java:93-101 | Window by window, each record's average is exactly the total and count of the samples that window received, each taken inside it. |
| TimeSeries.ChainOrdered | core/src/main/java/site/ycsb/measurements/OneMeasurementTimeSeries.java:91-97 | Element by element, the recorded offsets are non-negative multiples of the granularity within a bound, and non-decreasing (strictly increasing when strict). |
| TimeSeries.ChainWeaken | core/src/main/java/site/ycsb/measurements/OneMeasurementTimeSeries.java:93-97 | Strictly increasing offsets are also non-decreasing, so a forced close keeps the weaker ordering. |
| TimeSeries.WindowTimesOrdered | core/src/main/java/site/ycsb/measurements/OneMeasurementTimeSeries.java:91-97 | The recorded offsets are multiples of the granularity, at most the open window's, and never decrease; they strictly increase while no close was forced. |
| TimeSeries.InitialInv | core/src/main/java/site/ycsb/measurements/OneMeasurementTimeSeries.java:57-69 | The initial field values (start, currentunit, min, max at −1; counters at 0; no records) satisfy the invariant. |
| TimeSeries.OpenedKeepsInv | core/src/main/java/site/ycsb/measurements/OneMeasurementTimeSeries.java:84-89 | Reading a clock that does not go back, and starting the clock on the first check, keeps the invariant. |
| TimeSeries.CloseAtKeepsInv | core/src/main/java/site/ycsb/measurements/OneMeasurementTimeSeries.java:93-101 | Closing the open window and opening the window of the clock keeps the invariant, when that window is later or the close is forced. |
| TimeSeries.CheckKeepsInv | core/src/main/java/site/ycsb/measurements/OneMeasurementTimeSeries.java:83-102 | A whole `checkEndOfUnit` keeps the invariant. |
| TimeSeries.CheckOpensNow | core/src/main/java/site/ycsb/measurements/OneMeasurementTimeSeries.java:86-97 | After a check, the start lies at or before `now` and the open window is the window `now` lies in. |
| TimeSeries.FirstCheck | core/src/main/java/site/ycsb/measurements/OneMeasurementTimeSeries.java:86-93 | The first check sets start to `now` and opens window 0. Unforced, it appends nothing; forced, it appends exactly one empty record at offset 0. |
| TimeSeries.CheckEffect | core/src/main/java/site/ycsb/measurements/OneMeasurementTimeSeries.java:83-102 | Exactly one record (old window offset, its total and count) is appended, and the window counters reset, iff the window moved on or the close is forced. The new window is the one of `now`, never earlier. Skipped windows add nothing. Lifetime totals, status counters, min and max are unchanged. |
| TimeSeries.MeasureEffect | core/src/main/java/site/ycsb/measurements/OneMeasurementTimeSeries.java:104-122 | A measurement is an unforced check, then count, operations and windowoperations +1 and sum, totallatency and windowtotallatency +latency, with min/max updated under the −1 sentinel. |
| TimeSeries.SampledKeepsInv | core/src/main/java/site/ycsb/measurements/OneMeasurementTimeSeries.java:108-121 | Adding a sample taken in the open window keeps the invariant. |
| TimeSeries.DrainedInv | core/src/main/java/site/ycsb/measurements/OneMeasurementTimeSeries.java:158-160 | Resetting the status counters keeps the invariant: they then count the samples since this drain. |
| TimeSeries.TotalsAgree | core/src/main/java/site/ycsb/measurements/OneMeasurementTimeSeries.java:106-113 | Lifetime operations and totallatency count and sum every sample. Each equals the closed windows' totals plus the open window's count or sum. The closed and open windows partition the samples. |
| TimeSeries.WindowsExact | core/src/main/java/site/ycsb/measurements/OneMeasurementTimeSeries.java:93-113 | Each record averages exactly its window's samples, all taken at elapsed times in `[time, time + granularity)`. The open window's count and sum describe its samples, all inside it. |
| TimeSeries.MultipleGap | core/src/main/java/site/ycsb/measurements/OneMeasurementTimeSeries.java:91 | Two different window offsets lie at least one granularity apart. |
| TimeSeries.WindowsDisjoint | core/src/main/java/site/ycsb/measurements/OneMeasurementTimeSeries.java:91-113 | The converse of WindowsExact while no close was forced: a sample whose elapsed time lies in record i's window was counted in record i and in no other record, and no open-window sample lies in a record's window. |
| TimeSeries.WindowOrder | core/src/main/java/site/ycsb/measurements/OneMeasurementTimeSeries.java:91-97 | For the object's state: record offsets are multiples of the granularity and never decrease, strictly increasing below the open window while no close was forced. |
| TimeSeries.ExtremesAgree | core/src/main/java/site/ycsb/measurements/OneMeasurementTimeSeries.java:115-121 | For the object's state: `max` is the largest sample once some sample is non-negative, and −1 while all are negative; `min` is the smallest sample once samples exist and none is negative. |
| TimeSeries.OneMeasurementTimeSeries.constructor | core/src/main/java/site/ycsb/measurements/OneMeasurementTimeSeries.java:73-81 | Stores name, granularity and batch sizes; fields at their initial values; invariant holds. |
| TimeSeries.OneMeasurementTimeSeries.CheckEndOfUnit | core/src/main/java/site/ycsb/measurements/OneMeasurementTimeSeries.java:83-102 | The new state is `AfterCheck` of the old one (see CheckEffect), and the invariant is kept. |
| TimeSeries.OneMeasurementTimeSeries.ReadClock | core/src/main/java/site/ycsb/measurements/OneMeasurementTimeSeries.java:84-89 | The first reading sets start to `now` and currentunit to 0; nothing else changes. |
| TimeSeries.OneMeasurementTimeSeries.CloseWindow | core/src/main/java/site/ycsb/measurements/OneMeasurementTimeSeries.java:93-101 | Appends the record of the open window, moves to `unit` and zeroes count and sum. |
| TimeSeries.OneMeasurementTimeSeries.Measure | core/src/main/java/site/ycsb/measurements/OneMeasurementTimeSeries.java:104-122 | The new state is `AfterMeasure` of the old one (see MeasureEffect), and the invariant is kept. |
| TimeSeries.OneMeasurementTimeSeries.Record | core/src/main/java/site/ycsb/measurements/OneMeasurementTimeSeries.java:108-121 | With `now` inside the open window, the sample joins the three counter sets and the extremes, and the invariant is kept. |
| TimeSeries.OneMeasurementTimeSeries.AddToWindow | core/src/main/java/site/ycsb/measurements/OneMeasurementTimeSeries.java:108-109 | count +1 and sum +latency; nothing else changes. |
| TimeSeries.OneMeasurementTimeSeries.AddToTotals | core/src/main/java/site/ycsb/measurements/OneMeasurementTimeSeries.java:110-113 | The lifetime and status counters take the sample; nothing else changes. |
| TimeSeries.OneMeasurementTimeSeries.TrackExtremes | core/src/main/java/site/ycsb/measurements/OneMeasurementTimeSeries.java:115-121 | max rises to a larger latency; min falls to a smaller latency or is set while unset (negative). |
| TimeSeries.OneMeasurementTimeSeries.GetSummary | core/src/main/java/site/ycsb/measurements/OneMeasurementTimeSeries.java:153-162 | No report and no change when windowoperations is 0. Otherwise the report is the exact average of the samples since the last drain, and only the two status counters reset. |
| TimeSeries.OneMeasurementTimeSeries.ExportMeasurements | core/src/main/java/site/ycsb/measurements/OneMeasurementTimeSeries.java:125-150 | Force-closes the open window: exactly one record of it is appended, even an empty one, and its counters reset. The writes are then `ExportEvents` of the resulting state (see HeaderOrder, ExportOrder). |
| TimeSeries.OneMeasurementTimeSeries.WriteStatistics | core/src/main/java/site/ycsb/measurements/OneMeasurementTimeSeries.java:129-146 | The statistics writes are exactly `HeaderEvents` of the current fields. |
| TimeSeries.OneMeasurementTimeSeries.WriteMeasurements | core/src/main/java/site/ycsb/measurements/OneMeasurementTimeSeries.java:129-149 | The loop over the records yields exactly `ExportEvents` of the current fields. |
| Decimal.NatToString | core/src/main/java/site/ycsb/measurements/OneMeasurementTimeSeries.java:148 | Non-empty, digits only, no leading zero. |
| Decimal.NatToStringRoundTrip | core/src/main/java/site/ycsb/measurements/OneMeasurementTimeSeries.java:148 | Reading the digits of a rendered offset back gives the offset. |
| Decimal.NatToStringInjective | rondb/src/main/java/site/ycsb/db/RonDBClient.java:85 | Distinct numbers render differently. |
| Decimal.IntToStringSign | core/src/main/java/site/ycsb/measurements/OneMeasurementTimeSeries.java:148 | The rendering starts with '-' iff the value is negative; a non-negative value reads back as itself. |
| RonDB.ClientKindExact | rondb/src/main/java/site/ycsb/db/RonDBClient.java:111-118 | The selector picks a kind iff the string equals that kind's name ignoring case. |
| RonDB.SelectorIgnoresCase | rondb/src/main/java/site/ycsb/db/RonDBClient.java:111-116 | "clusterj", "Rest" and "gRPC" select ClusterJ, REST and gRPC. |
| RonDB.SelectorRejectsOthers | rondb/src/main/java/site/ycsb/db/RonDBClient.java:117-118 | An unknown selector such as "HTTP" selects nothing. |
| RonDB.AsDBException | rondb/src/main/java/site/ycsb/db/RonDBClient.java:95-102 | The result is always a DBException; it is the original iff that was a DBException, otherwise it wraps it as cause. |
| RonDB.InitOutcomeCases | rondb/src/main/java/site/ycsb/db/RonDBClient.java:56-88 | `init` succeeds iff the latch can be created or exists, the writer comes up, and the reader is the writer (CLUSTERJ) or a REST/gRPC client that comes up. Every other failure is a DBException, and a writer's own DBException is raised unchanged. |
| RonDB.FieldNameSetSize | rondb/src/main/java/site/ycsb/db/RonDBClient.java:83-86 | The field-name set has exactly fieldCount names (none for a negative count). |
| RonDB.FieldNameInjective | rondb/src/main/java/site/ycsb/db/RonDBClient.java:85 | Two field names with the same prefix are equal only for the same index. |
| RonDB.BuildFieldNames | rondb/src/main/java/site/ycsb/db/RonDBClient.java:83-86 | The loop builds exactly `{prefix + i : 0 ≤ i < fieldCount}`. |
| RonDB.FieldNamesOfTwo | rondb/src/main/java/site/ycsb/db/RonDBClient.java:83-86 | Prefix "field" with count 2 gives {"field0", "field1"}. |
| RonDB.RouteRole | rondb/src/main/java/site/ycsb/db/RonDBClient.java:159-275 | read and batchRead go to the reader, and only they do; scan, update, insert, delete and batchUpdate go to the writer. |
| RonDB.RouteForwards | rondb/src/main/java/site/ycsb/db/RonDBClient.java:159-217 | The forwarded operation is the issued one, except that read and scan with no field list ask for the known field names; batchRead is never defaulted. |
| RonDB.StatusOf | rondb/src/main/java/site/ycsb/db/RonDBClient.java:162-167 | A backend's returned status passes unchanged; any exception becomes ERROR. |
| RonDB.Latch.CountDown | rondb/src/main/java/site/ycsb/db/RonDBClient.java:138 | The count drops by one and never below zero. |
| RonDB.RunContext.NextThreadID | rondb/src/main/java/site/ycsb/db/RonDBClient.java:64 | The ordinal is the old counter value, never issued before, and the counter rises by one. |
| RonDB.InitBackend | rondb/src/main/java/site/ycsb/db/RonDBClient.java:90-106 | A failing construction or init fails with the exception wrapped as a DBException. Otherwise a fresh backend of the requested kind, with the given ordinal, has received init. |
| RonDB.InitClient | rondb/src/main/java/site/ycsb/db/RonDBClient.java:108-131 | An unknown selector fails with a wrapped IllegalArgumentException; a failing backend fails wrapped; otherwise a fresh backend of the selected kind (REST and gRPC built with the worker ordinal) has received init. |
| RonDB.RonDBClient.constructor | rondb/src/main/java/site/ycsb/db/RonDBClient.java:49-50 | A new client has no backends, no field names and ordinal 0. |
| RonDB.RonDBClient.Init | rondb/src/main/java/site/ycsb/db/RonDBClient.java:56-88 | Outcome as InitOutcome. The latch is created only when absent, sized by the thread count. The ordinal is the next unused one. The writer is a fresh ClusterJ client. The reader is the writer iff the selector is CLUSTERJ ignoring case, otherwise a fresh REST/gRPC client with this ordinal. Field names are set on success, and a failure leaves the reader, the field count and the names as they were. |
| RonDB.RonDBClient.Dispatch | rondb/src/main/java/site/ycsb/db/RonDBClient.java:159-275 | The routed backend alone receives the routed operation, and the caller gets its status or ERROR. A missing backend gives ERROR. |
| RonDB.RonDBClient.AwaitAndClean | rondb/src/main/java/site/ycsb/db/RonDBClient.java:139-146 | An interrupt gives RuntimeException. With peers outstanding, the worker is parked and nothing is cleaned. Otherwise the reader is cleaned, then the writer unless the reader's cleanup raised. One instance in both roles is cleaned twice. |
| RonDB.RonDBClient.Cleanup | rondb/src/main/java/site/ycsb/db/RonDBClient.java:137-147 | Counts the latch down first, then waits and cleans as AwaitAndClean. Without a latch it is a null dereference and nothing is cleaned. |
| RonDB.RoutingRun | rondb/src/main/java/site/ycsb/db/RonDBClient.java:159-217 | With a REST reader, a field-less read reaches only the reader with {"field0","field1"}, while a scan and a batch update reach only the writer. A backend exception comes back as ERROR. |
| RonDB.StartTwoWorkers | rondb/src/main/java/site/ycsb/db/RonDBClient.java:56-88 | Two inits with thread count 2 share one latch of count 2, get ordinals 0 and 1, and each own a distinct reader and writer. |
| RonDB.TwoWorkerRun | rondb/src/main/java/site/ycsb/db/RonDBClient.java:137-147 | The first worker to clean up is parked, its backends untouched, until the second counts down; then each of the two workers' readers and writers has been cleaned exactly once. |

## Left out

- Java `long`/`int` overflow: counters, sums and offsets are unbounded integers. `windowoperations`, `min` and `max` are Java `int`, and none is wrapped here.
- Doubles: averages are exact (total, count) pairs. The 0.0/0.0 of an empty window is the pair (0, 0). `DecimalFormat` rendering in `getSummary` is left out; the summary is an optional pair.
- Concurrency:
  - `synchronized`, the static lock, and the fact that `measure`'s increments run outside the synchronized `checkEndOfUnit`.
  - Every call is modelled sequentially.
  - The latch's blocking wait is modelled as `Parked`, and a later call to `AwaitAndClean` stands for the wait going on.
- TimeSeries.OneMeasurementTimeSeries.CheckEndOfUnit: requires a clock that never goes back (`now` at or after the last reading). Java's wall clock has no such promise.
- TimeSeries.OneMeasurementTimeSeries.Measure: requires the same non-decreasing clock as CheckEndOfUnit.
- TimeSeries.OneMeasurementTimeSeries.ExportMeasurements: requires the same non-decreasing clock as CheckEndOfUnit.
- TimeSeries.OneMeasurementTimeSeries.constructor: requires a positive granularity. With 0, Java throws ArithmeticException at the first check. A negative granularity is accepted by Java and, since truncating division is followed by the multiplication, behaves like its absolute value; the model does not cover it.
- TimeSeries.TrackedMinIsMinimum: stated only when no latency is negative. A negative `min` counts as unset, so the next sample replaces it whatever its value: `[-5, 3, 7]` ends with `min == 3`, as the model's `MinStep` also gives (TrackedMinAfterNegative).
- TimeSeries.ExtremesAgree: its `min` half is stated only when no latency is negative, for the reason given for TrackedMinIsMinimum; its `max` half needs only one non-negative latency.
- TimeSeries.WindowsDisjoint: stated only while no close was forced. A forced close can leave the next record at the same offset as the closed one, so after an export two records can share a window.
- Property parsing: `Integer.parseInt`/`Long.parseLong` failures (NumberFormatException) are left out; `Config` holds already-parsed values.
  - The defaults in `ConfigKeys` and `CoreWorkload` are not part of this model.
  - Only the thread-count default 1 is modelled.
- `RonDBAPIType.toString()` is not part of this model. The names are taken to be "CLUSTERJ", "REST" and "GRPC".
- Case-insensitive comparison folds ASCII letters and the four non-ASCII characters whose case mapping lands on an ASCII letter (ı, İ, ſ, and the Kelvin sign). No other Unicode case folding is modelled.
- `exportStatusCounts`, defined in the parent class `OneMeasurement`, is not part of this model; it appears as one `StatusCounts` step in the write sequence.
- Read results: the result maps and vectors that `read`, `scan` and `batchRead` fill are not modelled; only the routed call and the returned status are.
- The field-name loop counts with a Java `int` against a `long` field count; counts beyond the `int` range are not modelled.
- Logging and `printStackTrace` are left out.
- Exporter failures: `exportMeasurements` declares `IOException`, and a failing exporter stops the writes partway. The model's write list is always complete, since the exporter is a recorded list of writes.
- Construction, connection and network behaviour of `ClusterJClient`, `RestApiClient` and `GrpcClient` are left out. Each is a call-recording `Backend` whose answers and exceptions are parameters.
- `InfinispanClient` is not part of this model.
- Cleanup: the code cleans a reader shared with the writer twice, and an exception from the reader's cleanup skips the writer's. A cleanup that attempts both teardowns, or cleans a shared instance once, would differ from the code; the model does what the code does.
