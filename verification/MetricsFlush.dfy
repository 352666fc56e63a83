/** The metrics loop's buffer: samples are gathered and stored as means of batches. */
module MetricsFlush {
  import opened Common

  datatype Metric = CpuPercent | RamPercent | SwapPercent | NetRx | NetTx

  datatype Sample = Sample(
    ts: int,
    cpuPercent: real,
    ramPercent: real,
    swapPercent: real,
    netRx: real,
    netTx: real,
    ramUsed: int,
    ramTotal: int,
    disks: string, // as JSON
    gpu: string)

  function Value(s: Sample, m: Metric): real {
    match m
    case CpuPercent => s.cpuPercent
    case RamPercent => s.ramPercent
    case SwapPercent => s.swapPercent
    case NetRx => s.netRx
    case NetTx => s.netTx
  }

  function Sum(batch: seq<Sample>, m: Metric): real {
    if batch == [] then 0.0 else Sum(batch[..|batch| - 1], m) + Value(batch[|batch| - 1], m)
  }

  /** `statistics.fmean`. */
  function Mean(batch: seq<Sample>, m: Metric): real
    requires batch != []
  {
    Sum(batch, m) / (|batch| as real)
  }

  /** A row of `resource_snapshots`: means of a batch, with the rest from its last sample. */
  datatype Row = Row(ts: int, means: map<Metric, real>, ramUsed: int, ramTotal: int, disks: string, gpu: string)

  function RowOf(batch: seq<Sample>): Row
    requires batch != []
  {
    var latest := batch[|batch| - 1];
    Row(latest.ts,
        map[CpuPercent := Mean(batch, CpuPercent), RamPercent := Mean(batch, RamPercent),
            SwapPercent := Mean(batch, SwapPercent), NetRx := Mean(batch, NetRx), NetTx := Mean(batch, NetTx)],
        latest.ramUsed, latest.ramTotal, latest.disks, latest.gpu)
  }

  // -- the loop ------------------------------------------------------------------------------

  /** One round: the sample taken and the clock read after it. */
  datatype Tick = Tick(sample: Sample, now: int)

  /** `batches` and `times` record the flushes so far. */
  datatype State = State(buffer: seq<Sample>, lastFlush: int, batches: seq<seq<Sample>>, times: seq<int>)

  function Next(s: State, tick: Tick, interval: int): State {
    var buffer := s.buffer + [tick.sample];
    if tick.now - s.lastFlush >= interval then State([], tick.now, s.batches + [buffer], s.times + [tick.now])
    else s.(buffer := buffer)
  }

  function After(ticks: seq<Tick>, start: int, interval: int): State {
    if ticks == [] then State([], start, [], [])
    else Next(After(ticks[..|ticks| - 1], start, interval), ticks[|ticks| - 1], interval)
  }

  class MetricsLoop {
    var buffer: seq<Sample>
    var lastFlush: int
    var rows: seq<Row>
    ghost var batches: seq<seq<Sample>>
    ghost var times: seq<int>

    ghost predicate Valid()
      reads this
    {
      |rows| == |batches| && forall i :: 0 <= i < |rows| ==> batches[i] != [] && rows[i] == RowOf(batches[i])
    }

    constructor (start: int)
      ensures Valid() && State(buffer, lastFlush, batches, times) == State([], start, [], [])
    {
      buffer, lastFlush, rows, batches, times := [], start, [], [], [];
    }

    method SumOf(m: Metric) returns (sum: real)
      ensures sum == Sum(buffer, m)
    {
      sum := 0.0;
      for i := 0 to |buffer|
        invariant sum == Sum(buffer[..i], m)
      {
        assert buffer[..i + 1][..i] == buffer[..i];
        sum := sum + Value(buffer[i], m);
      }
      assert buffer[..|buffer|] == buffer;
    }

    /** `_flush_snapshot_buffer`. */
    method Flush()
      requires Valid() && buffer != []
      modifies this`rows, this`batches
      ensures Valid() && batches == old(batches) + [buffer] && rows == old(rows) + [RowOf(buffer)]
    {
      var latest, n := buffer[|buffer| - 1], |buffer| as real;
      var cpu := SumOf(CpuPercent);
      var ram := SumOf(RamPercent);
      var swap := SumOf(SwapPercent);
      var rx := SumOf(NetRx);
      var tx := SumOf(NetTx);
      rows := rows + [Row(latest.ts,
        map[CpuPercent := cpu / n, RamPercent := ram / n, SwapPercent := swap / n, NetRx := rx / n, NetTx := tx / n],
        latest.ramUsed, latest.ramTotal, latest.disks, latest.gpu)];
      batches := batches + [buffer];
    }

    /** One round of `run_metrics_loop`. */
    method Round(tick: Tick, interval: int)
      requires Valid()
      modifies this
      ensures Valid()
      ensures State(buffer, lastFlush, batches, times)
           == Next(old(State(buffer, lastFlush, batches, times)), tick, interval)
    {
      buffer := buffer + [tick.sample];
      if buffer != [] && tick.now - lastFlush >= interval {
        Flush();
        buffer := [];
        lastFlush := tick.now;
        times := times + [tick.now];
      }
    }
  }

  // -- over any run --------------------------------------------------------------------------

  function Samples(ticks: seq<Tick>): seq<Sample> {
    if ticks == [] then [] else Samples(ticks[..|ticks| - 1]) + [ticks[|ticks| - 1].sample]
  }

  /** The flushed batches and then the buffer are the samples taken, in order; no batch is empty. */
  lemma {:induction false} SamplesAreConserved(ticks: seq<Tick>, start: int, interval: int)
    ensures var s := After(ticks, start, interval);
      && Flatten(s.batches) + s.buffer == Samples(ticks)
      && (forall i :: 0 <= i < |s.batches| ==> s.batches[i] != [])
  {
    if ticks != [] {
      var init, last := ticks[..|ticks| - 1], ticks[|ticks| - 1];
      SamplesAreConserved(init, start, interval);
      var s := After(init, start, interval);
      FlattenAppend(s.batches, s.buffer + [last.sample]);
      assert Flatten(s.batches) + (s.buffer + [last.sample]) == (Flatten(s.batches) + s.buffer) + [last.sample];
      assert Flatten(s.batches) + (s.buffer + [last.sample]) + [] == Flatten(s.batches) + (s.buffer + [last.sample]);
    }
  }

  /** Flushes are at least the interval apart, and none that is due is put off. */
  lemma {:induction false} FlushesAreSpaced(ticks: seq<Tick>, start: int, interval: int)
    ensures var s := After(ticks, start, interval);
      && |s.times| == |s.batches|
      && s.lastFlush == (if s.times == [] then start else s.times[|s.times| - 1])
      && (s.times != [] ==> s.times[0] - start >= interval)
      && (forall i :: 0 < i < |s.times| ==> s.times[i] - s.times[i - 1] >= interval)
      && (ticks != [] && interval > 0 ==> ticks[|ticks| - 1].now - s.lastFlush < interval)
  {
    if ticks != [] {
      FlushesAreSpaced(ticks[..|ticks| - 1], start, interval);
    }
  }

  // -- what a mean says -----------------------------------------------------------------------

  predicate Within(batch: seq<Sample>, m: Metric, low: real, high: real) {
    forall i :: 0 <= i < |batch| ==> low <= Value(batch[i], m) <= high
  }

  function Times(x: real, k: nat): real { if k == 0 then 0.0 else Times(x, k - 1) + x }

  lemma Distribute(x: real, n: real)
    ensures x * (n + 1.0) == x * n + x
  {
  }

  lemma {:induction false} TimesIsProduct(x: real, k: nat)
    ensures Times(x, k) == x * (k as real)
  {
    if k > 0 {
      TimesIsProduct(x, k - 1);
      Distribute(x, (k - 1) as real);
      assert k as real == (k - 1) as real + 1.0;
    }
  }

  lemma {:induction false} SumWithin(batch: seq<Sample>, m: Metric, low: real, high: real)
    requires Within(batch, m, low, high)
    ensures Times(low, |batch|) <= Sum(batch, m) <= Times(high, |batch|)
  {
    if batch != [] {
      var n := |batch| - 1;
      SumWithin(batch[..n], m, low, high);
      assert low <= Value(batch[n], m) <= high;
    }
  }

  lemma MulLess(a: real, b: real, n: real)
    requires a < b && n > 0.0
    ensures a * n < b * n
  {
    assert (b - a) * n > 0.0;
  }

  lemma DivideWithin(sum: real, n: real, low: real, high: real)
    requires n > 0.0 && low * n <= sum <= high * n
    ensures low <= sum / n <= high && sum / n * n == sum
  {
    var q := sum / n;
    assert q * n == sum;
    if q < low {
      MulLess(q, low, n);
    }
    if q > high {
      MulLess(high, q, n);
    }
  }

  lemma RowMean(batch: seq<Sample>, m: Metric)
    requires batch != []
    ensures m in RowOf(batch).means && RowOf(batch).means[m] == Mean(batch, m)
  {
  }

  /** A stored mean lies between any bounds of its batch. */
  lemma MeanIsBetween(batch: seq<Sample>, m: Metric, low: real, high: real)
    requires batch != [] && Within(batch, m, low, high)
    ensures m in RowOf(batch).means && low <= RowOf(batch).means[m] <= high
  {
    SumWithin(batch, m, low, high);
    TimesIsProduct(low, |batch|);
    TimesIsProduct(high, |batch|);
    DivideWithin(Sum(batch, m), |batch| as real, low, high);
    RowMean(batch, m);
  }

  lemma {:induction false} SumAppend(a: seq<Sample>, b: seq<Sample>, m: Metric)
    ensures Sum(a + b, m) == Sum(a, m) + Sum(b, m)
  {
    if b == [] {
      assert a + b == a;
    } else {
      assert (a + b)[..|a + b| - 1] == a + b[..|b| - 1];
      SumAppend(a, b[..|b| - 1], m);
    }
  }

  lemma MeanWeighs(batch: seq<Sample>, m: Metric)
    requires batch != []
    ensures Mean(batch, m) * (|batch| as real) == Sum(batch, m)
  {
    var n := |batch| as real;
    assert n > 0.0;
  }

  function Total(xs: seq<real>): real { if xs == [] then 0.0 else xs[0] + Total(xs[1..]) }

  lemma {:induction false} SumIsTotal(batch: seq<Sample>, m: Metric, xs: seq<real>)
    requires |xs| == |batch| && forall i :: 0 <= i < |batch| ==> xs[i] == Value(batch[i], m)
    ensures Sum(batch, m) == Total(xs)
  {
    if batch != [] {
      SumIsTotal(batch[1..], m, xs[1..]);
      assert batch == [batch[0]] + batch[1..] && [batch[0]][..0] == [];
      SumAppend([batch[0]], batch[1..], m);
    }
  }

  /** Which column each metric is. */
  lemma Columns(s: Sample)
    ensures Value(s, CpuPercent) == s.cpuPercent && Value(s, RamPercent) == s.ramPercent
    ensures Value(s, SwapPercent) == s.swapPercent && Value(s, NetRx) == s.netRx && Value(s, NetTx) == s.netTx
  {
  }

  /** Each stored mean is that of its own column of the batch. */
  lemma MeanOfColumn(batch: seq<Sample>, xs: seq<real>, m: Metric)
    requires batch != [] && |xs| == |batch| && forall i :: 0 <= i < |batch| ==> xs[i] == Value(batch[i], m)
    ensures m in RowOf(batch).means && RowOf(batch).means[m] == Total(xs) / (|batch| as real)
  {
    SumIsTotal(batch, m, xs);
    RowMean(batch, m);
  }

  /** The other columns of a row are those of the latest sample. */
  lemma RowIsLatest(earlier: seq<Sample>, last: Sample)
    ensures var r := RowOf(earlier + [last]);
      r.ts == last.ts && r.ramUsed == last.ramUsed && r.ramTotal == last.ramTotal
      && r.disks == last.disks && r.gpu == last.gpu
  {
  }

  /** The stored means, each times the size of its batch. */
  function Weights(batches: seq<seq<Sample>>, m: Metric): seq<real>
    requires forall i :: 0 <= i < |batches| ==> batches[i] != []
  {
    seq(|batches|, i requires 0 <= i < |batches| => Mean(batches[i], m) * (|batches[i]| as real))
  }

  lemma {:induction false} TotalIsSum(batches: seq<seq<Sample>>, xs: seq<real>, m: Metric)
    requires |xs| == |batches| && forall i :: 0 <= i < |xs| ==> xs[i] == Sum(batches[i], m)
    ensures Total(xs) == Sum(Flatten(batches), m)
  {
    if batches != [] {
      TotalIsSum(batches[1..], xs[1..], m);
      SumAppend(batches[0], Flatten(batches[1..]), m);
    }
  }

  lemma WeightAt(batches: seq<seq<Sample>>, m: Metric, i: nat)
    requires (forall j :: 0 <= j < |batches| ==> batches[j] != []) && i < |batches|
    ensures Weights(batches, m)[i] == Sum(batches[i], m)
  {
    MeanWeighs(batches[i], m);
  }

  lemma WeightsTotal(batches: seq<seq<Sample>>, m: Metric)
    requires forall i :: 0 <= i < |batches| ==> batches[i] != []
    ensures Total(Weights(batches, m)) == Sum(Flatten(batches), m)
  {
    var xs := Weights(batches, m);
    forall i | 0 <= i < |xs| ensures xs[i] == Sum(batches[i], m) {
      WeightAt(batches, m, i);
    }
    TotalIsSum(batches, xs, m);
  }

  /** Over any run the stored means, weighted, and the buffer make up the sum of all samples. */
  lemma MeansAddUp(ticks: seq<Tick>, start: int, interval: int, m: Metric)
    ensures var s := After(ticks, start, interval);
      && (forall i :: 0 <= i < |s.batches| ==> s.batches[i] != [])
      && Total(Weights(s.batches, m)) + Sum(s.buffer, m) == Sum(Samples(ticks), m)
  {
    SamplesAreConserved(ticks, start, interval);
    var s := After(ticks, start, interval);
    WeightsTotal(s.batches, m);
    SumAppend(Flatten(s.batches), s.buffer, m);
  }
}
