/**
 * The time-series latency measurement of a benchmark metric (one named
 * operation class, such as READ): samples are averaged in fixed-width time
 * windows, lifetime count/total/min/max are kept, and a second pair of
 * counters is drained independently by the status reporter.
 *
 * The clock is a parameter `now` (milliseconds); averages are kept as exact
 * (total, operations) pairs rather than divided into doubles.
 */
module TimeSeries {
  import opened Wrappers
  import Decimal

  /** An average kept exact: `total` divided by `operations` (0/0 when empty). */
  datatype Average = Average(total: int, operations: int)

  /** One closed window: its offset in ms from the first sample, and its average. */
  datatype SeriesUnit = SeriesUnit(time: int, average: Average)

  /** A value handed to the exporter: an integer or a (double) quotient. */
  datatype Value = Number(n: int) | Mean(average: Average)

  /** One step of the export: a `write(metric, label, value)` call, or the
   *  status-code counts written by the parent class. */
  datatype ExportEvent =
    | Write(metric: string, key: string, value: Value)
    | StatusCounts(metric: string)

  // ---------------------------------------------------------------------
  // Sums

  function Sum(s: seq<int>): int {
    if s == [] then 0 else Sum(s[..|s| - 1]) + s[|s| - 1]
  }

  /** Appending one element adds it to the sum of every suffix. */
  lemma SumAppend(s: seq<int>, k: nat, x: int)
    requires k <= |s|
    ensures Sum((s + [x])[k..]) == Sum(s[k..]) + x
  {
    assert (s + [x])[k..][..|s| - k] == s[k..];
  }

  /** The summed totals of closed windows. */
  function UnitsTotal(m: seq<SeriesUnit>): int {
    if m == [] then 0 else UnitsTotal(m[..|m| - 1]) + m[|m| - 1].average.total
  }

  /** The summed operation counts of closed windows. */
  function UnitsOperations(m: seq<SeriesUnit>): int {
    if m == [] then 0 else UnitsOperations(m[..|m| - 1]) + m[|m| - 1].average.operations
  }

  // ---------------------------------------------------------------------
  // Window arithmetic

  lemma MulAtLeast(d: int, g: int)
    requires d >= 1 && g > 0
    ensures d * g >= g
  {
  }

  /** Euclidean quotient and remainder are unique. */
  lemma DivModUnique(a: int, g: int, q: int, r: int)
    requires 0 < g && 0 <= r < g && a == q * g + r
    ensures a % g == r && a / g == q
  {
    var q', r' := a / g, a % g;
    assert q' * g + r' == q * g + r;
    if q > q' {
      MulAtLeast(q - q', g);
    } else if q' > q {
      MulAtLeast(q' - q, g);
    }
  }

  /** Whether `u` is a non-negative multiple of `g` (stated by repeated
   *  subtraction, so that the verifier reasons about it linearly). */
  predicate IsMultiple(u: int, g: int)
    requires g > 0
    decreases if u < 0 then 0 else u
  {
    if u <= 0 then u == 0 else u >= g && IsMultiple(u - g, g)
  }

  /** Two different multiples of the granularity lie at least one window
   *  apart. */
  lemma {:induction false} MultipleGap(a: int, b: int, g: int)
    requires g > 0 && IsMultiple(a, g) && IsMultiple(b, g) && a < b
    ensures a + g <= b
    decreases if a < 0 then 0 else a
  {
    if a > 0 {
      MultipleGap(a - g, b - g, g);
    }
  }

  /**
   * The offset of the window that an elapsed time falls into: the largest
   * multiple of the granularity not above it. Computed by repeated
   * subtraction; UnitOfIsDivision shows it equals the source's
   * `(elapsed / granularity) * granularity`.
   */
  function UnitOf(elapsed: int, granularity: int): (u: int)
    requires 0 <= elapsed && 0 < granularity
    ensures 0 <= u <= elapsed < u + granularity
    ensures IsMultiple(u, granularity)
    decreases elapsed
  {
    if elapsed < granularity then 0 else UnitOf(elapsed - granularity, granularity) + granularity
  }

  /** Repeated subtraction agrees with truncating division and
   *  multiplication, which for the non-negative elapsed times of a
   *  monotone clock is what Java's `/` on longs computes. */
  lemma {:induction false} UnitOfIsDivision(elapsed: int, granularity: int)
    requires 0 <= elapsed && 0 < granularity
    ensures UnitOf(elapsed, granularity) == (elapsed / granularity) * granularity
    decreases elapsed
  {
    if elapsed < granularity {
      DivModUnique(elapsed, granularity, 0, elapsed);
    } else {
      var e := elapsed - granularity;
      UnitOfIsDivision(e, granularity);
      DivModUnique(elapsed, granularity, e / granularity + 1, e % granularity);
      assert (e / granularity + 1) * granularity == (e / granularity) * granularity + granularity;
    }
  }

  /** A later time never falls into an earlier window. */
  lemma {:induction false} UnitOfMonotone(e1: int, e2: int, g: int)
    requires 0 <= e1 <= e2 && 0 < g
    ensures UnitOf(e1, g) <= UnitOf(e2, g)
    decreases e2
  {
    if e1 >= g {
      UnitOfMonotone(e1 - g, e2 - g, g);
    }
  }

  // ---------------------------------------------------------------------
  // Lifetime minimum and maximum, with -1 as the "unset" sentinel

  function MaxStep(max: int, latency: int): int {
    if latency > max then latency else max
  }

  function MinStep(min: int, latency: int): int {
    if latency < min || min < 0 then latency else min
  }

  /** The `max` field after measuring every latency of `s` in order. */
  function TrackedMax(s: seq<int>): int {
    if s == [] then -1 else MaxStep(TrackedMax(s[..|s| - 1]), s[|s| - 1])
  }

  /** The `min` field after measuring every latency of `s` in order. */
  function TrackedMin(s: seq<int>): int {
    if s == [] then -1 else MinStep(TrackedMin(s[..|s| - 1]), s[|s| - 1])
  }

  ghost predicate IsMaximum(x: int, s: seq<int>) {
    x in s && forall i :: 0 <= i < |s| ==> s[i] <= x
  }

  ghost predicate IsMinimum(x: int, s: seq<int>) {
    x in s && forall i :: 0 <= i < |s| ==> x <= s[i]
  }

  ghost predicate NonNegative(s: seq<int>) {
    forall i :: 0 <= i < |s| ==> s[i] >= 0
  }

  /** While every latency is negative, `max` stays at the sentinel -1. */
  lemma {:induction false} TrackedMaxUnset(s: seq<int>)
    requires forall i :: 0 <= i < |s| ==> s[i] < 0
    ensures TrackedMax(s) == -1
  {
    if s != [] {
      TrackedMaxUnset(s[..|s| - 1]);
    }
  }

  /** Once some latency is non-negative, `max` is the largest latency. */
  lemma {:induction false} TrackedMaxIsMaximum(s: seq<int>)
    requires exists i :: 0 <= i < |s| && s[i] >= 0
    ensures IsMaximum(TrackedMax(s), s)
  {
    var init, x := s[..|s| - 1], s[|s| - 1];
    assert s == init + [x];
    if exists i :: 0 <= i < |init| && init[i] >= 0 {
      TrackedMaxIsMaximum(init);
    } else {
      TrackedMaxUnset(init);
      var i :| 0 <= i < |s| && s[i] >= 0;
      assert i == |s| - 1;
    }
  }

  /** When latencies were measured and none is negative, `min` is the
   *  smallest; in particular a latency of 0 is kept, not taken for "unset". */
  lemma {:induction false} TrackedMinIsMinimum(s: seq<int>)
    requires s != [] && NonNegative(s)
    ensures IsMinimum(TrackedMin(s), s)
  {
    var init := s[..|s| - 1];
    assert s == init + [s[|s| - 1]];
    if init != [] {
      TrackedMinIsMinimum(init);
    }
  }

  /** A negative `min` counts as unset, so the sample after a negative one
   *  replaces it whatever its value; from then on `min` follows the smaller
   *  value again. */
  lemma TrackedMinAfterNegative()
    ensures TrackedMin([-5, 3, 7]) == 3
    ensures TrackedMin([-5, 3, 2]) == 2
  {
    assert [-5, 3, 7][..2] == [-5, 3] && [-5, 3][..1] == [-5] && [-5][..0] == [];
    assert [-5, 3, 2][..2] == [-5, 3];
  }

  // ---------------------------------------------------------------------
  // The export write sequence

  /** Whether the metric is one of the two batch metrics. */
  predicate IsBatch(name: string) {
    name == "BATCH_READ" || name == "BATCH_UPDATE"
  }

  /** The label prefix the batch metrics use. */
  function Prepend(name: string): string {
    if IsBatch(name) then "Batch" else ""
  }

  /** The writes before the window records: the batch size (batch metrics
   *  only), the four lifetime statistics with their labels, and the status
   *  counts. */
  function HeaderEvents(name: string, readBatchSize: int, updateBatchSize: int,
                        operations: int, totallatency: int, min: int, max: int): seq<ExportEvent>
  {
    var p := Prepend(name);
    (if name == "BATCH_READ" then [Write(name, "BatchSize", Number(readBatchSize))] else [])
    + (if name == "BATCH_UPDATE" then [Write(name, "BatchSize", Number(updateBatchSize))] else [])
    + [ Write(name, p + "Operations", Number(operations)),
        Write(name, p + "AverageLatency(us)", Mean(Average(totallatency, operations))),
        Write(name, p + "MinLatency(us)", Number(min)),
        Write(name, p + "MaxLatency(us)", Number(max)),
        StatusCounts(name) ]
  }

  /** One write per closed window, in list order, labelled by its offset. */
  function SeriesEvents(name: string, m: seq<SeriesUnit>): seq<ExportEvent> {
    if m == [] then []
    else SeriesEvents(name, m[..|m| - 1])
         + [Write(name, Decimal.IntToString(m[|m| - 1].time), Mean(m[|m| - 1].average))]
  }

  /** Everything the export writes, in order. */
  function ExportEvents(name: string, readBatchSize: int, updateBatchSize: int,
                        operations: int, totallatency: int, min: int, max: int,
                        m: seq<SeriesUnit>): seq<ExportEvent>
  {
    HeaderEvents(name, readBatchSize, updateBatchSize, operations, totallatency, min, max)
    + SeriesEvents(name, m)
  }

  /** The k-th window write reports the k-th window. */
  lemma {:induction false} SeriesEventsAt(name: string, m: seq<SeriesUnit>)
    ensures |SeriesEvents(name, m)| == |m|
    ensures forall k :: 0 <= k < |m| ==>
      SeriesEvents(name, m)[k] == Write(name, Decimal.IntToString(m[k].time), Mean(m[k].average))
  {
    if m != [] {
      SeriesEventsAt(name, m[..|m| - 1]);
    }
  }

  /**
   * The writes before the window records: a batch metric first writes its
   * batch size (and only a batch metric does), then Operations,
   * AverageLatency, MinLatency and MaxLatency, labelled with the "Batch"
   * prefix exactly for batch metrics, then the status counts.
   */
  lemma HeaderOrder(name: string, readBatchSize: int, updateBatchSize: int,
                    operations: int, totallatency: int, min: int, max: int)
    ensures var h := HeaderEvents(name, readBatchSize, updateBatchSize, operations, totallatency, min, max);
            var b := if IsBatch(name) then 1 else 0;
            var p := if IsBatch(name) then "Batch" else "";
            && |h| == b + 5
            && (name == "BATCH_READ" ==> h[0] == Write(name, "BatchSize", Number(readBatchSize)))
            && (name == "BATCH_UPDATE" ==> h[0] == Write(name, "BatchSize", Number(updateBatchSize)))
            && (h[0].Write? && h[0].key == "BatchSize" <==> IsBatch(name))
            && h[b] == Write(name, p + "Operations", Number(operations))
            && h[b + 1] == Write(name, p + "AverageLatency(us)", Mean(Average(totallatency, operations)))
            && h[b + 2] == Write(name, p + "MinLatency(us)", Number(min))
            && h[b + 3] == Write(name, p + "MaxLatency(us)", Number(max))
            && h[b + 4] == StatusCounts(name)
  {
    if !IsBatch(name) {
      var h := HeaderEvents(name, readBatchSize, updateBatchSize, operations, totallatency, min, max);
      assert h[0].key == "Operations";
      assert |"Operations"| != |"BatchSize"|;
    }
  }

  /** The export writes the header, then one write per closed window, the
   *  k-th reporting the k-th window. */
  lemma ExportOrder(name: string, readBatchSize: int, updateBatchSize: int,
                    operations: int, totallatency: int, min: int, max: int,
                    m: seq<SeriesUnit>)
    ensures var ev := ExportEvents(name, readBatchSize, updateBatchSize,
                                   operations, totallatency, min, max, m);
            var h := HeaderEvents(name, readBatchSize, updateBatchSize, operations, totallatency, min, max);
            && |ev| == |h| + |m| && ev[..|h|] == h
            && forall k :: 0 <= k < |m| ==>
                 ev[|h| + k] == Write(name, Decimal.IntToString(m[k].time), Mean(m[k].average))
  {
    SeriesEventsAt(name, m);
  }

  // ---------------------------------------------------------------------
  /** The samples of consecutive windows, one after the other. */
  function Concat(w: seq<seq<int>>): seq<int> {
    if w == [] then [] else Concat(w[..|w| - 1]) + w[|w| - 1]
  }

  // ---------------------------------------------------------------------
  // The parts of the measurement object's invariant

  /** Clock, start and open window: before the first check nothing has
   *  happened; afterwards the open window is a multiple of the granularity
   *  no later than the window of the latest clock reading. */
  ghost predicate ClockOk(granularity: int, clock: int, start: int, currentunit: int,
                          samples: seq<int>, measurements: seq<SeriesUnit>, forced: bool)
    requires granularity > 0
  {
    && clock >= 0
    && (start < 0 ==> start == -1 && currentunit == -1 && samples == [] && measurements == [] && !forced)
    && (start >= 0 ==> start <= clock
                       && 0 <= currentunit <= UnitOf(clock - start, granularity)
                       && IsMultiple(currentunit, granularity))
  }

  /** The closed windows and the open one partition the samples, and the
   *  open window's counters describe its samples. */
  ghost predicate PartitionOk(samples: seq<int>, windows: seq<seq<int>>, open: seq<int>, count: int, sum: int) {
    samples == Concat(windows) + open && count == |open| && sum == Sum(open)
  }

  /** The lifetime counters describe all samples, and equal the closed
   *  windows' totals plus the open window's; min and max follow the samples. */
  ghost predicate LifetimeOk(samples: seq<int>, measurements: seq<SeriesUnit>, count: int, sum: int,
                             operations: int, totallatency: int, min: int, max: int)
  {
    && operations == |samples| && totallatency == Sum(samples)
    && operations == UnitsOperations(measurements) + count
    && totallatency == UnitsTotal(measurements) + sum
    && min == TrackedMin(samples) && max == TrackedMax(samples)
  }

  /** The status-window counters describe the samples since the last drain. */
  ghost predicate DrainOk(samples: seq<int>, drainFrom: nat, windowoperations: int, windowtotallatency: int) {
    && drainFrom <= |samples|
    && windowoperations == |samples| - drainFrom && windowtotallatency == Sum(samples[drainFrom..])
  }

  /** Every elapsed time in `times` lies in the window at offset `unit`. */
  ghost predicate AllIn(times: seq<int>, granularity: int, unit: int)
    requires granularity > 0
  {
    forall k :: 0 <= k < |times| ==> 0 <= times[k] && UnitOf(times[k], granularity) == unit
  }

  /** Each closed window, read from the newest back, averages exactly the
   *  samples it received, and each of those samples lies in it. */
  ghost predicate ClosedOk(granularity: int, measurements: seq<SeriesUnit>,
                           windows: seq<seq<int>>, windowTimes: seq<seq<int>>)
    requires granularity > 0
    decreases |measurements|
  {
    && |windows| == |measurements| && |windowTimes| == |measurements|
    && (measurements != [] ==>
          var k := |measurements| - 1;
          && |windowTimes[k]| == |windows[k]|
          && measurements[k].average == Average(Sum(windows[k]), |windows[k]|)
          && AllIn(windowTimes[k], granularity, measurements[k].time)
          && ClosedOk(granularity, measurements[..k], windows[..k], windowTimes[..k]))
  }

  /** The closed windows are exact, and every sample of the open window lies
   *  in the open window. */
  ghost predicate WindowsOk(granularity: int, measurements: seq<SeriesUnit>,
                            windows: seq<seq<int>>, windowTimes: seq<seq<int>>,
                            open: seq<int>, openTimes: seq<int>, currentunit: int)
    requires granularity > 0
  {
    && ClosedOk(granularity, measurements, windows, windowTimes)
    && |openTimes| == |open|
    && AllIn(openTimes, granularity, currentunit)
  }

  /** What the closed windows promise, window by window. */
  lemma {:induction false} ClosedWindowsExact(g: int, m: seq<SeriesUnit>, w: seq<seq<int>>, wt: seq<seq<int>>)
    requires g > 0 && ClosedOk(g, m, w, wt)
    ensures |w| == |m| && |wt| == |m|
    ensures forall i :: 0 <= i < |m| ==>
              && m[i].average == Average(Sum(w[i]), |w[i]|)
              && |wt[i]| == |w[i]|
              && AllIn(wt[i], g, m[i].time)
    decreases |m|
  {
    if m != [] {
      var k := |m| - 1;
      ClosedWindowsExact(g, m[..k], w[..k], wt[..k]);
      forall i | 0 <= i < k
        ensures m[i].average == Average(Sum(w[i]), |w[i]|) && |wt[i]| == |w[i]| && AllIn(wt[i], g, m[i].time)
      {
        assert m[..k][i] == m[i] && w[..k][i] == w[i] && wt[..k][i] == wt[i];
      }
    }
  }

  /** Window offsets, read from the newest back: each is a non-negative
   *  multiple of the granularity below (when `strict`) or at most the bound
   *  set by the window after it. */
  ghost predicate Chain(granularity: int, m: seq<SeriesUnit>, bound: int, strict: bool)
    requires granularity > 0
    decreases |m|
  {
    m == [] ||
    var t := m[|m| - 1].time;
    && 0 <= t && IsMultiple(t, granularity)
    && (if strict then t < bound else t <= bound)
    && Chain(granularity, m[..|m| - 1], t, strict)
  }

  /** Window offsets are multiples of the granularity, never decrease, stay
   *  at most the open window's, and strictly increase (below the open
   *  window's) while no window has been closed by force. */
  ghost predicate TimesOk(granularity: int, measurements: seq<SeriesUnit>, currentunit: int, forced: bool)
    requires granularity > 0
  {
    Chain(granularity, measurements, currentunit, !forced)
  }

  /** A strict chain is also a non-strict one. */
  lemma {:induction false} ChainWeaken(g: int, m: seq<SeriesUnit>, bound: int)
    requires g > 0 && Chain(g, m, bound, true)
    ensures Chain(g, m, bound, false)
    decreases |m|
  {
    if m != [] {
      ChainWeaken(g, m[..|m| - 1], m[|m| - 1].time);
    }
  }

  /** What a chain promises, element by element: every offset is a
   *  non-negative multiple of the granularity within the bound, and later
   *  offsets are no smaller (strictly larger when `strict`). */
  lemma {:induction false} ChainOrdered(g: int, m: seq<SeriesUnit>, bound: int, strict: bool)
    requires g > 0 && Chain(g, m, bound, strict)
    ensures forall i :: 0 <= i < |m| ==>
              0 <= m[i].time <= bound && IsMultiple(m[i].time, g) && (strict ==> m[i].time < bound)
    ensures forall i, j :: 0 <= i < j < |m| ==>
              m[i].time <= m[j].time && (strict ==> m[i].time < m[j].time)
    decreases |m|
  {
    if m != [] {
      var init := m[..|m| - 1];
      ChainOrdered(g, init, m[|m| - 1].time, strict);
      assert forall i :: 0 <= i < |init| ==> m[i] == init[i];
    }
  }

  /** The offsets of the closed windows, as the invariant keeps them. */
  lemma WindowTimesOrdered(g: int, m: seq<SeriesUnit>, currentunit: int, forced: bool)
    requires g > 0 && TimesOk(g, m, currentunit, forced)
    ensures forall i :: 0 <= i < |m| ==>
              0 <= m[i].time <= currentunit && IsMultiple(m[i].time, g) && (!forced ==> m[i].time < currentunit)
    ensures forall i, j :: 0 <= i < j < |m| ==>
              m[i].time <= m[j].time && (!forced ==> m[i].time < m[j].time)
  {
    ChainOrdered(g, m, currentunit, !forced);
  }

  // ---------------------------------------------------------------------
  // How each part of the invariant survives a window close and a sample

  lemma CloseKeepsPartition(samples: seq<int>, windows: seq<seq<int>>, open: seq<int>, count: int, sum: int)
    requires PartitionOk(samples, windows, open, count, sum)
    ensures PartitionOk(samples, windows + [open], [], 0, 0)
  {
    assert (windows + [open])[..|windows|] == windows;
  }

  lemma CloseKeepsLifetime(samples: seq<int>, m: seq<SeriesUnit>, count: int, sum: int,
                           operations: int, totallatency: int, min: int, max: int, cu: int)
    requires LifetimeOk(samples, m, count, sum, operations, totallatency, min, max)
    ensures LifetimeOk(samples, m + [SeriesUnit(cu, Average(sum, count))], 0, 0,
                       operations, totallatency, min, max)
  {
    assert (m + [SeriesUnit(cu, Average(sum, count))])[..|m|] == m;
  }

  lemma CloseKeepsWindows(g: int, m: seq<SeriesUnit>, windows: seq<seq<int>>, windowTimes: seq<seq<int>>,
                          open: seq<int>, openTimes: seq<int>, cu: int, unit: int)
    requires g > 0 && WindowsOk(g, m, windows, windowTimes, open, openTimes, cu)
    ensures WindowsOk(g, m + [SeriesUnit(cu, Average(Sum(open), |open|))],
                      windows + [open], windowTimes + [openTimes], [], [], unit)
  {
    var m' := m + [SeriesUnit(cu, Average(Sum(open), |open|))];
    assert m'[..|m|] == m;
    assert (windows + [open])[..|m|] == windows;
    assert (windowTimes + [openTimes])[..|m|] == windowTimes;
  }

  lemma CloseKeepsTimes(g: int, m: seq<SeriesUnit>, cu: int, unit: int, a: Average, forced: bool)
    requires g > 0 && TimesOk(g, m, cu, forced)
    requires 0 <= cu <= unit && IsMultiple(cu, g) && (forced || cu < unit)
    ensures TimesOk(g, m + [SeriesUnit(cu, a)], unit, forced)
  {
    assert (m + [SeriesUnit(cu, a)])[..|m|] == m;
  }

  lemma SampleKeepsPartition(samples: seq<int>, windows: seq<seq<int>>, open: seq<int>,
                             count: int, sum: int, latency: int)
    requires PartitionOk(samples, windows, open, count, sum)
    ensures PartitionOk(samples + [latency], windows, open + [latency], count + 1, sum + latency)
  {
    assert (open + [latency])[..|open|] == open;
  }

  lemma SampleKeepsLifetime(samples: seq<int>, m: seq<SeriesUnit>, count: int, sum: int,
                            operations: int, totallatency: int, min: int, max: int, latency: int)
    requires LifetimeOk(samples, m, count, sum, operations, totallatency, min, max)
    ensures LifetimeOk(samples + [latency], m, count + 1, sum + latency, operations + 1,
                       totallatency + latency, MinStep(min, latency), MaxStep(max, latency))
  {
    assert (samples + [latency])[..|samples|] == samples;
  }

  lemma SampleKeepsDrain(samples: seq<int>, drainFrom: nat, windowoperations: int,
                         windowtotallatency: int, latency: int)
    requires DrainOk(samples, drainFrom, windowoperations, windowtotallatency)
    ensures DrainOk(samples + [latency], drainFrom, windowoperations + 1, windowtotallatency + latency)
  {
    SumAppend(samples, drainFrom, latency);
  }

  lemma SampleKeepsWindows(g: int, m: seq<SeriesUnit>, windows: seq<seq<int>>, windowTimes: seq<seq<int>>,
                           open: seq<int>, openTimes: seq<int>, cu: int, latency: int, elapsed: int)
    requires g > 0 && WindowsOk(g, m, windows, windowTimes, open, openTimes, cu)
    requires 0 <= elapsed && UnitOf(elapsed, g) == cu
    ensures WindowsOk(g, m, windows, windowTimes, open + [latency], openTimes + [elapsed], cu)
  {
  }

  // ---------------------------------------------------------------------
  // The state of a measurement object and its transitions

  /** What the object's fields do not record but the proofs need: the
   *  latest clock reading, every latency measured, the latencies and
   *  elapsed times each closed window and the open one received, the index
   *  of the first sample since the last status drain, and whether a window
   *  was ever closed by force. */
  datatype Log = Log(
    clock: int, samples: seq<int>,
    windows: seq<seq<int>>, windowTimes: seq<seq<int>>,
    open: seq<int>, openTimes: seq<int>,
    drainFrom: nat, forced: bool)

  /** The fields of a measurement object, with its log. */
  datatype Fields = Fields(
    start: int, currentunit: int, count: int, sum: int,
    operations: int, totallatency: int, windowoperations: int, windowtotallatency: int,
    min: int, max: int, measurements: seq<SeriesUnit>, log: Log)

  /** The state of a freshly constructed object. */
  const Initial := Fields(-1, -1, 0, 0, 0, 0, 0, 0, -1, -1, [], Log(0, [], [], [], [], [], 0, false))

  /** The object invariant. */
  ghost predicate Inv(g: int, s: Fields)
    requires g > 0
  {
    && ClockOk(g, s.log.clock, s.start, s.currentunit, s.log.samples, s.measurements, s.log.forced)
    && PartitionOk(s.log.samples, s.log.windows, s.log.open, s.count, s.sum)
    && LifetimeOk(s.log.samples, s.measurements, s.count, s.sum, s.operations, s.totallatency, s.min, s.max)
    && DrainOk(s.log.samples, s.log.drainFrom, s.windowoperations, s.windowtotallatency)
    && WindowsOk(g, s.measurements, s.log.windows, s.log.windowTimes, s.log.open, s.log.openTimes, s.currentunit)
    && TimesOk(g, s.measurements, s.currentunit, s.log.forced)
  }

  /** The start time once a check at `now` has run: the first check sets it. */
  function CheckedStart(s: Fields, now: int): int {
    if s.start < 0 then now else s.start
  }

  /** The fields once a check at `now` has read the clock: the first check
   *  sets the start to `now` and opens window 0, and a forced check is
   *  remembered. */
  ghost function Opened(s: Fields, forceend: bool, now: int): Fields {
    var o := if s.start < 0 then s.(start := now, currentunit := 0) else s;
    o.(log := o.log.(clock := now, forced := o.log.forced || forceend))
  }

  /** The fields once the open window is closed and the window at offset
   *  `unit` opened: the closed window's offset and average are appended
   *  and its samples move to the closed windows. */
  ghost function CloseAt(s: Fields, unit: int): Fields {
    var l := s.log;
    s.(currentunit := unit, count := 0, sum := 0,
       measurements := s.measurements + [SeriesUnit(s.currentunit, Average(s.sum, s.count))],
       log := l.(windows := l.windows + [l.open], windowTimes := l.windowTimes + [l.openTimes],
                 open := [], openTimes := []))
  }

  /** The state after `checkEndOfUnit(forceend)` at `now`. A close happens
   *  when `now` lies past the open window or when forced; windows in
   *  between that saw no sample produce no record. */
  ghost function AfterCheck(g: int, s: Fields, forceend: bool, now: int): Fields
    requires g > 0 && now >= CheckedStart(s, now)
  {
    var o := Opened(s, forceend, now);
    var unit := UnitOf(now - o.start, g);
    if unit > o.currentunit || forceend then CloseAt(o, unit) else o
  }

  /** A check, step by step: read the clock, then close when the window of
   *  the reading lies past the open one or the close is forced. */
  lemma AfterCheckSteps(g: int, s: Fields, forceend: bool, now: int, o: Fields, unit: int)
    requires g > 0 && now >= CheckedStart(s, now)
    requires o == Opened(s, forceend, now) && unit == UnitOf(now - o.start, g)
    ensures AfterCheck(g, s, forceend, now) == if unit > o.currentunit || forceend then CloseAt(o, unit) else o
  {
  }

  /** The state after the sample `latency`, taken `elapsed` ms after the
   *  start, joins the open window, the totals and the extremes. */
  ghost function Sampled(s: Fields, latency: int, elapsed: int): Fields {
    var l := s.log;
    s.(count := s.count + 1, sum := s.sum + latency,
       operations := s.operations + 1, totallatency := s.totallatency + latency,
       windowoperations := s.windowoperations + 1, windowtotallatency := s.windowtotallatency + latency,
       min := MinStep(s.min, latency), max := MaxStep(s.max, latency),
       log := l.(samples := l.samples + [latency], open := l.open + [latency], openTimes := l.openTimes + [elapsed]))
  }

  /** The state after `measure(latency)` at `now`. */
  ghost function AfterMeasure(g: int, s: Fields, latency: int, now: int): Fields
    requires g > 0 && now >= CheckedStart(s, now)
  {
    var c := AfterCheck(g, s, false, now);
    Sampled(c, latency, now - c.start)
  }

  /** The state after the status reporter drains a non-empty status window. */
  ghost function Drained(s: Fields): Fields {
    var l := s.log;
    s.(windowoperations := 0, windowtotallatency := 0, log := l.(drainFrom := |l.samples|))
  }

  /** A drain keeps the invariant. */
  lemma DrainedInv(g: int, s: Fields)
    requires g > 0 && Inv(g, s)
    ensures Inv(g, Drained(s))
  {
  }

  /** The initial state satisfies the invariant. */
  lemma InitialInv(g: int)
    requires g > 0
    ensures Inv(g, Initial)
  {
  }

  /** Reading the clock keeps the invariant: on the first check nothing has
   *  been recorded and window 0 is the window of the start; later, time
   *  only moves forward, so the open window stays no later than the window
   *  of the clock; a forced check only weakens the ordering promised. */
  lemma OpenedKeepsInv(g: int, s: Fields, forceend: bool, now: int)
    requires g > 0 && Inv(g, s) && now >= s.log.clock
    ensures Inv(g, Opened(s, forceend, now))
  {
    if s.start < 0 {
      assert s.log.windows == [] && s.log.windowTimes == [];
    } else {
      UnitOfMonotone(s.log.clock - s.start, now - s.start, g);
      if forceend && !s.log.forced {
        ChainWeaken(g, s.measurements, s.currentunit);
      }
    }
  }

  /** Closing the open window and opening the window of the clock keeps the
   *  invariant, provided that window lies later or closes are forced. */
  lemma CloseAtKeepsInv(g: int, o: Fields, unit: int)
    requires g > 0 && Inv(g, o) && o.start >= 0
    requires unit == UnitOf(o.log.clock - o.start, g)
    requires unit > o.currentunit || o.log.forced
    ensures Inv(g, CloseAt(o, unit))
  {
    var l := o.log;
    CloseKeepsPartition(l.samples, l.windows, l.open, o.count, o.sum);
    CloseKeepsLifetime(l.samples, o.measurements, o.count, o.sum, o.operations, o.totallatency, o.min, o.max,
                       o.currentunit);
    CloseKeepsWindows(g, o.measurements, l.windows, l.windowTimes, l.open, l.openTimes, o.currentunit, unit);
    CloseKeepsTimes(g, o.measurements, o.currentunit, unit, Average(o.sum, o.count), l.forced);
  }

  /** A check keeps the invariant. */
  lemma CheckKeepsInv(g: int, s: Fields, forceend: bool, now: int)
    requires g > 0 && Inv(g, s) && now >= s.log.clock
    ensures now >= CheckedStart(s, now)
    ensures Inv(g, AfterCheck(g, s, forceend, now))
  {
    OpenedKeepsInv(g, s, forceend, now);
    var o := Opened(s, forceend, now);
    var unit := UnitOf(now - o.start, g);
    AfterCheckSteps(g, s, forceend, now, o, unit);
    if unit > o.currentunit || forceend {
      CloseAtKeepsInv(g, o, unit);
    }
  }

  /** After a check, the open window is the window `now` lies in. */
  lemma CheckOpensNow(g: int, s: Fields, forceend: bool, now: int)
    requires g > 0 && Inv(g, s) && now >= s.log.clock
    ensures now >= CheckedStart(s, now)
    ensures var r := AfterCheck(g, s, forceend, now);
            0 <= r.start <= now && r.currentunit == UnitOf(now - r.start, g)
  {
    if s.start >= 0 {
      UnitOfMonotone(s.log.clock - s.start, now - s.start, g);
    }
  }

  /**
   * What a check does, field by field. The first check sets the start to
   * `now`. Afterwards the open window is the window `now` lies in, never
   * before the window open until then (window 0 on the first check). A
   * record of that window, with the average of its counters, is appended
   * exactly when the window moved on or the close is forced, and then the
   * window's counters restart. The totals and extremes are left alone.
   */
  lemma CheckEffect(g: int, s: Fields, forceend: bool, now: int)
    requires g > 0 && Inv(g, s) && now >= s.log.clock
    ensures now >= CheckedStart(s, now)
    ensures var r := AfterCheck(g, s, forceend, now);
            var openUnit := if s.start < 0 then 0 else s.currentunit;
            var closes := r.currentunit > openUnit || forceend;
            && r.start == (if s.start < 0 then now else s.start) && r.log.clock == now
            && 0 <= r.start <= now && r.currentunit == UnitOf(now - r.start, g)
            && openUnit <= r.currentunit
            && r.measurements == (if closes then s.measurements + [SeriesUnit(openUnit, Average(s.sum, s.count))]
                                  else s.measurements)
            && r.count == (if closes then 0 else s.count) && r.sum == (if closes then 0 else s.sum)
            && r.operations == s.operations && r.totallatency == s.totallatency
            && r.windowoperations == s.windowoperations && r.windowtotallatency == s.windowtotallatency
            && r.min == s.min && r.max == s.max
  {
    var o := Opened(s, forceend, now);
    var unit := UnitOf(now - o.start, g);
    AfterCheckSteps(g, s, forceend, now, o, unit);
    if s.start >= 0 {
      UnitOfMonotone(s.log.clock - s.start, now - s.start, g);
    }
  }

  /**
   * What a measurement does, field by field: the check's effect without
   * force, then the sample joins the open window's counters, the lifetime
   * totals, the status-window counters and the extremes.
   */
  lemma MeasureEffect(g: int, s: Fields, latency: int, now: int)
    requires g > 0 && Inv(g, s) && now >= s.log.clock
    ensures now >= CheckedStart(s, now)
    ensures var r := AfterMeasure(g, s, latency, now);
            var openUnit := if s.start < 0 then 0 else s.currentunit;
            var closes := r.currentunit > openUnit;
            && r.start == (if s.start < 0 then now else s.start) && r.log.clock == now
            && 0 <= r.start <= now && r.currentunit == UnitOf(now - r.start, g)
            && openUnit <= r.currentunit
            && r.measurements == (if closes then s.measurements + [SeriesUnit(openUnit, Average(s.sum, s.count))]
                                  else s.measurements)
            && r.count == (if closes then 0 else s.count) + 1
            && r.sum == (if closes then 0 else s.sum) + latency
            && r.operations == s.operations + 1 && r.totallatency == s.totallatency + latency
            && r.windowoperations == s.windowoperations + 1
            && r.windowtotallatency == s.windowtotallatency + latency
            && r.min == MinStep(s.min, latency) && r.max == MaxStep(s.max, latency)
            && r.log.samples == s.log.samples + [latency]
  {
    CheckEffect(g, s, false, now);
  }

  /** The first check starts the clock at `now` and opens window 0; without
   *  force it records nothing, and a forced first check records one empty
   *  window at offset 0. */
  lemma FirstCheck(g: int, s: Fields, forceend: bool, now: int)
    requires g > 0 && Inv(g, s) && s.start < 0 && now >= s.log.clock
    ensures now >= CheckedStart(s, now)
    ensures var r := AfterCheck(g, s, forceend, now);
            && r.start == now && r.currentunit == 0
            && r.measurements == (if forceend then [SeriesUnit(0, Average(0, 0))] else [])
  {
    assert UnitOf(0, g) == 0;
  }

  // ---------------------------------------------------------------------
  // What the invariant promises

  /** The lifetime counters cover every sample measured, and equal the
   *  closed windows' totals plus the open window's counters. */
  lemma TotalsAgree(g: int, s: Fields)
    requires g > 0 && Inv(g, s)
    ensures s.operations == |s.log.samples| && s.totallatency == Sum(s.log.samples)
    ensures s.operations == UnitsOperations(s.measurements) + s.count
    ensures s.totallatency == UnitsTotal(s.measurements) + s.sum
    ensures s.log.samples == Concat(s.log.windows) + s.log.open
  {
  }

  /**
   * Each closed window averages exactly the samples it received, each of
   * them measured at an elapsed time inside that window; every sample of the
   * open window lies inside the open window.
   */
  lemma WindowsExact(g: int, s: Fields)
    requires g > 0 && Inv(g, s)
    ensures |s.log.windows| == |s.measurements| && |s.log.windowTimes| == |s.measurements|
    ensures forall i :: 0 <= i < |s.measurements| ==>
              && s.measurements[i].average == Average(Sum(s.log.windows[i]), |s.log.windows[i]|)
              && |s.log.windowTimes[i]| == |s.log.windows[i]|
              && forall t :: t in s.log.windowTimes[i] ==>
                   s.measurements[i].time <= t < s.measurements[i].time + g
    ensures s.count == |s.log.open| && s.sum == Sum(s.log.open) && |s.log.openTimes| == s.count
    ensures forall t :: t in s.log.openTimes ==> s.currentunit <= t < s.currentunit + g
  {
    var m, w, wt := s.measurements, s.log.windows, s.log.windowTimes;
    ClosedWindowsExact(g, m, w, wt);
    forall i, t | 0 <= i < |m| && t in wt[i]
      ensures m[i].time <= t < m[i].time + g
    {
      var k :| 0 <= k < |wt[i]| && wt[i][k] == t;
    }
    forall t | t in s.log.openTimes
      ensures s.currentunit <= t < s.currentunit + g
    {
      var k :| 0 <= k < |s.log.openTimes| && s.log.openTimes[k] == t;
    }
  }

  /** Window offsets are multiples of the granularity, never decrease and
   *  stay at most the open window's; while no close was forced they
   *  strictly increase and stay below it. */
  lemma WindowOrder(g: int, s: Fields)
    requires g > 0 && Inv(g, s)
    ensures forall i :: 0 <= i < |s.measurements| ==>
              && 0 <= s.measurements[i].time <= s.currentunit && IsMultiple(s.measurements[i].time, g)
              && (!s.log.forced ==> s.measurements[i].time < s.currentunit)
    ensures forall i, j :: 0 <= i < j < |s.measurements| ==>
              && s.measurements[i].time <= s.measurements[j].time
              && (!s.log.forced ==> s.measurements[i].time < s.measurements[j].time)
  {
    WindowTimesOrdered(g, s.measurements, s.currentunit, s.log.forced);
  }

  /**
   * The converse of WindowsExact while no close was forced: a sample whose
   * elapsed time lies in the window of record i was counted in record i and
   * in no other record, and no sample of the open window lies in the window
   * of a record.
   */
  lemma WindowsDisjoint(g: int, s: Fields)
    requires g > 0 && Inv(g, s) && !s.log.forced
    ensures |s.log.windowTimes| == |s.measurements|
    ensures forall i, j, t ::
              (0 <= i < |s.measurements| && 0 <= j < |s.measurements| && t in s.log.windowTimes[j] &&
               s.measurements[i].time <= t < s.measurements[i].time + g) ==> i == j
    ensures forall i, t :: 0 <= i < |s.measurements| && t in s.log.openTimes ==>
              !(s.measurements[i].time <= t < s.measurements[i].time + g)
  {
    var m, wt := s.measurements, s.log.windowTimes;
    WindowsExact(g, s);
    WindowOrder(g, s);
    forall i, j, t | 0 <= i < |m| && 0 <= j < |m| && t in wt[j] && m[i].time <= t < m[i].time + g
      ensures i == j
    {
      if i < j {
        MultipleGap(m[i].time, m[j].time, g);
      } else if j < i {
        MultipleGap(m[j].time, m[i].time, g);
      }
    }
    forall i, t | 0 <= i < |m| && t in s.log.openTimes
      ensures !(m[i].time <= t < m[i].time + g)
    {
      MultipleGap(m[i].time, s.currentunit, g);
    }
  }

  /**
   * `max` is the largest latency measured once one of them is non-negative,
   * and the sentinel -1 before; `min` is the smallest latency measured once
   * a sample is in and none is negative.
   */
  lemma ExtremesAgree(g: int, s: Fields)
    requires g > 0 && Inv(g, s)
    ensures (exists i :: 0 <= i < |s.log.samples| && s.log.samples[i] >= 0) ==>
              IsMaximum(s.max, s.log.samples)
    ensures (forall i :: 0 <= i < |s.log.samples| ==> s.log.samples[i] < 0) ==> s.max == -1
    ensures s.log.samples != [] && NonNegative(s.log.samples) ==> IsMinimum(s.min, s.log.samples)
  {
    var l := s.log.samples;
    if exists i :: 0 <= i < |l| && l[i] >= 0 {
      TrackedMaxIsMaximum(l);
    } else {
      TrackedMaxUnset(l);
    }
    if l != [] && NonNegative(l) {
      TrackedMinIsMinimum(l);
    }
  }

  /** A sample taken in the open window keeps the invariant. */
  lemma SampledKeepsInv(g: int, s: Fields, latency: int, elapsed: int)
    requires g > 0 && Inv(g, s) && s.start >= 0
    requires 0 <= elapsed && UnitOf(elapsed, g) == s.currentunit
    ensures Inv(g, Sampled(s, latency, elapsed))
  {
    var l := s.log;
    SampleKeepsPartition(l.samples, l.windows, l.open, s.count, s.sum, latency);
    SampleKeepsLifetime(l.samples, s.measurements, s.count, s.sum, s.operations, s.totallatency, s.min, s.max, latency);
    SampleKeepsDrain(l.samples, l.drainFrom, s.windowoperations, s.windowtotallatency, latency);
    SampleKeepsWindows(g, s.measurements, l.windows, l.windowTimes, l.open, l.openTimes, s.currentunit,
                       latency, elapsed);
    var r := Sampled(s, latency, elapsed);
    assert A1: ClockOk(g, r.log.clock, r.start, r.currentunit, r.log.samples, r.measurements, r.log.forced);
    assert A2: PartitionOk(r.log.samples, r.log.windows, r.log.open, r.count, r.sum);
    assert A3: LifetimeOk(r.log.samples, r.measurements, r.count, r.sum, r.operations, r.totallatency, r.min, r.max);
    assert A4: DrainOk(r.log.samples, r.log.drainFrom, r.windowoperations, r.windowtotallatency);
    assert A5: WindowsOk(g, r.measurements, r.log.windows, r.log.windowTimes, r.log.open, r.log.openTimes, r.currentunit);
    assert A6: TimesOk(g, r.measurements, r.currentunit, r.log.forced);
  }

  // ---------------------------------------------------------------------
  // The measurement object

  class OneMeasurementTimeSeries {
    const name: string
    /** Window width in ms. */
    const granularity: int
    const readBatchSize: int
    const updateBatchSize: int

    /** The closed windows, oldest first. */
    var measurements: seq<SeriesUnit>
    var start: int
    var currentunit: int
    var count: int
    var sum: int
    var operations: int
    var totallatency: int
    var windowoperations: int
    var windowtotallatency: int
    var min: int
    var max: int

    ghost var log: Log

    /** The fields, as one value. */
    ghost function State(): Fields
      reads this
    {
      Fields(start, currentunit, count, sum, operations, totallatency,
             windowoperations, windowtotallatency, min, max, measurements, log)
    }

    ghost predicate Valid()
      reads this
    {
      granularity > 0 && Inv(granularity, State())
    }

    constructor (name: string, granularity: int, readBatchSize: int, updateBatchSize: int)
      requires granularity > 0
      ensures Valid()
      ensures this.name == name && this.granularity == granularity
      ensures this.readBatchSize == readBatchSize && this.updateBatchSize == updateBatchSize
      ensures State() == Initial
    {
      this.name := name;
      this.granularity := granularity;
      this.readBatchSize := readBatchSize;
      this.updateBatchSize := updateBatchSize;
      measurements := [];
      start, currentunit := -1, -1;
      count, sum, operations, totallatency := 0, 0, 0, 0;
      windowoperations, windowtotallatency := 0, 0;
      min, max := -1, -1;
      log := Log(0, [], [], [], [], [], 0, false);
      InitialInv(granularity);
    }

    /**
     * Opens the first window on the first call; closes the open window
     * when `now` lies past it or when forced, and opens the window `now`
     * lies in.
     */
    method CheckEndOfUnit(forceend: bool, now: int)
      requires Valid() && now >= log.clock
      modifies this
      ensures Valid()
      ensures State() == AfterCheck(granularity, old(State()), forceend, now)
    {
      ghost var s0 := State();
      OpenedKeepsInv(granularity, s0, forceend, now);
      ReadClock(forceend, now);
      ghost var o := State();

      var unit := UnitOf(now - start, granularity);
      AfterCheckSteps(granularity, s0, forceend, now, o, unit);
      if unit > currentunit || forceend {
        CloseAtKeepsInv(granularity, o, unit);
        CloseWindow(unit);
      }
    }

    /** Records the clock reading; the first reading sets the start and
     *  opens window 0. */
    method ReadClock(forceend: bool, now: int)
      modifies this
      ensures State() == Opened(old(State()), forceend, now)
    {
      if start < 0 {
        currentunit := 0;
        start := now;
      }
      log := log.(clock := now, forced := log.forced || forceend);
    }

    /** Appends the open window's record and opens the window at `unit`. */
    method CloseWindow(unit: int)
      modifies this
      ensures State() == CloseAt(old(State()), unit)
    {
      var avg := Average(sum, count);
      measurements := measurements + [SeriesUnit(currentunit, avg)];
      log := log.(windows := log.windows + [log.open], windowTimes := log.windowTimes + [log.openTimes],
                  open := [], openTimes := []);
      currentunit := unit;
      count := 0;
      sum := 0;
    }

    /**
     * Adds one latency sample: the check first closes a window that `now`
     * lies past, then the sample goes into the open window, the lifetime
     * totals and the status-window counters, and updates the lifetime
     * extremes.
     */
    method Measure(latency: int, now: int)
      requires Valid() && now >= log.clock
      modifies this
      ensures Valid()
      ensures State() == AfterMeasure(granularity, old(State()), latency, now)
    {
      ghost var s0 := State();
      CheckOpensNow(granularity, s0, false, now);
      CheckEndOfUnit(false, now);
      ghost var c := State();
      Record(latency, now);
      assert State() == Sampled(c, latency, now - c.start);
    }

    /** The part of `measure` after the check: `now` lies in the open window. */
    method Record(latency: int, now: int)
      requires Valid() && 0 <= start <= now && UnitOf(now - start, granularity) == currentunit
      modifies this
      ensures Valid()
      ensures State() == Sampled(old(State()), latency, now - old(start))
    {
      ghost var s0 := State();
      AddToWindow(latency, now);
      AddToTotals(latency);
      TrackExtremes(latency);
      assert State() == Sampled(s0, latency, now - s0.start);
      SampledKeepsInv(granularity, s0, latency, now - s0.start);
    }

    /** The open window's counters and its ledger take the sample. */
    method AddToWindow(latency: int, now: int)
      modifies this
      ensures State() == old(State()).(count := old(count) + 1, sum := old(sum) + latency,
                                       log := old(log).(samples := old(log.samples) + [latency],
                                                        open := old(log.open) + [latency],
                                                        openTimes := old(log.openTimes) + [now - old(start)]))
    {
      log := log.(samples := log.samples + [latency], open := log.open + [latency],
                  openTimes := log.openTimes + [now - start]);
      count := count + 1;
      sum := sum + latency;
    }

    /** The lifetime totals and the status-window counters take the sample. */
    method AddToTotals(latency: int)
      modifies this
      ensures State() == old(State()).(totallatency := old(totallatency) + latency,
                                       operations := old(operations) + 1,
                                       windowoperations := old(windowoperations) + 1,
                                       windowtotallatency := old(windowtotallatency) + latency)
    {
      totallatency := totallatency + latency;
      operations := operations + 1;
      windowoperations := windowoperations + 1;
      windowtotallatency := windowtotallatency + latency;
    }

    /** The lifetime extremes follow the sample; a negative `min` means none yet. */
    method TrackExtremes(latency: int)
      modifies this
      ensures State() == old(State()).(min := MinStep(old(min), latency), max := MaxStep(old(max), latency))
    {
      if latency > max {
        max := latency;
      }

      if latency < min || min < 0 {
        min := latency;
      }
    }

    /**
     * The status reporter's drain: no report (and no change) when nothing
     * was measured since the last drain; otherwise the average over exactly
     * those samples, after which the status-window counters are reset.
     * The window accounting and the lifetime statistics are left alone.
     */
    method GetSummary() returns (report: Option<Average>)
      requires Valid()
      modifies this
      ensures Valid()
      ensures old(windowoperations) == 0 ==> report == None && State() == old(State())
      ensures old(windowoperations) != 0 ==>
        && report == Some(Average(old(windowtotallatency), old(windowoperations)))
        && State() == Drained(old(State()))
      ensures report.Some? ==>
        report.value == Average(Sum(old(log.samples)[old(log.drainFrom)..]), |old(log.samples)| - old(log.drainFrom))
    {
      if windowoperations == 0 {
        return None;
      }
      DrainedInv(granularity, State());
      report := Some(Average(windowtotallatency, windowoperations));
      windowtotallatency := 0;
      windowoperations := 0;
      log := log.(drainFrom := |log.samples|);
    }

    /**
     * Closes the open window by force (even an empty one, whose average is
     * 0/0), then writes the statistics and every closed window in order.
     */
    method ExportMeasurements(now: int) returns (events: seq<ExportEvent>)
      requires Valid() && now >= log.clock
      modifies this
      ensures Valid()
      ensures State() == AfterCheck(granularity, old(State()), true, now)
      ensures measurements == old(measurements)
                + [SeriesUnit(if old(start) < 0 then 0 else old(currentunit), Average(old(sum), old(count)))]
      ensures count == 0 && sum == 0
      ensures events == ExportEvents(name, readBatchSize, updateBatchSize,
                                     operations, totallatency, min, max, measurements)
    {
      CheckEffect(granularity, State(), true, now);
      CheckEndOfUnit(true, now);
      events := WriteMeasurements();
    }

    /** The writes before the window records, in the order the exporter
     *  makes them. */
    method WriteStatistics() returns (events: seq<ExportEvent>)
      ensures events == HeaderEvents(name, readBatchSize, updateBatchSize, operations, totallatency, min, max)
    {
      var prepend := "";
      events := [];
      if name == "BATCH_READ" {
        events := events + [Write(name, "BatchSize", Number(readBatchSize))];
        prepend := "Batch";
      }
      if name == "BATCH_UPDATE" {
        events := events + [Write(name, "BatchSize", Number(updateBatchSize))];
        prepend := "Batch";
      }
      events := events + [Write(name, prepend + "Operations", Number(operations))];
      events := events + [Write(name, prepend + "AverageLatency(us)", Mean(Average(totallatency, operations)))];
      events := events + [Write(name, prepend + "MinLatency(us)", Number(min))];
      events := events + [Write(name, prepend + "MaxLatency(us)", Number(max))];
      events := events + [StatusCounts(name)];
    }

    /** The exporter writes, in order, for the current state. */
    method WriteMeasurements() returns (events: seq<ExportEvent>)
      ensures events == ExportEvents(name, readBatchSize, updateBatchSize,
                                     operations, totallatency, min, max, measurements)
    {
      events := WriteStatistics();
      ghost var header := events;

      for i := 0 to |measurements|
        invariant events == header + SeriesEvents(name, measurements[..i])
      {
        var unit := measurements[i];
        assert measurements[..i + 1][..i] == measurements[..i];
        events := events + [Write(name, Decimal.IntToString(unit.time), Mean(unit.average))];
      }
      assert measurements[..|measurements|] == measurements;
    }
  }

}
