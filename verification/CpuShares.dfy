/** Spreading cumulative CPU time over wall-clock buckets by integer interpolation. */
module CpuShares {
  import opened Sequences
  import opened Arithmetic

  /** Buckets `[origin + i * width, origin + (i + 1) * width)` for `0 <= i < count`. */
  datatype Grid = Grid(origin: int, width: int, count: int) {
    predicate Valid() {
      width > 0 && count > 0
    }

    function Edge(i: int): int {
      origin + i * width
    }

    /** `_bucket_index`: floor division, never below bucket 0. */
    function Index(t: int): int
      requires width > 0
    {
      if (t - origin) / width < 0 then 0 else (t - origin) / width
    }
  }

  datatype Sample = Sample(at: int, cpu: int)

  function Min(a: int, b: int): int { if a <= b then a else b }
  function Max(a: int, b: int): int { if a >= b then a else b }

  predicate Accepted(a: Sample, b: Sample) {
    a.at < b.at && a.cpu <= b.cpu
  }

  /** CPU time the pair has spent by wall time `x`, rounded down. */
  function SpentBy(a: Sample, b: Sample, x: int): int
    requires a.at < b.at
  {
    (b.cpu - a.cpu) * (x - a.at) / (b.at - a.at)
  }

  /** CPU time of the pair between wall times `lo` and `hi`, nothing if that is empty. */
  function SpentIn(a: Sample, b: Sample, lo: int, hi: int): int
    requires a.at < b.at
  {
    if hi <= lo then 0 else SpentBy(a, b, hi) - SpentBy(a, b, lo)
  }

  /** What the pair adds to bucket `i`. */
  function Share(g: Grid, a: Sample, b: Sample, i: int): int {
    if !Accepted(a, b) then 0
    else SpentIn(a, b, Max(a.at, g.Edge(i)), Min(b.at, g.Edge(i + 1)))
  }

  function PairShares(g: Grid, samples: seq<Sample>, i: int): int {
    if |samples| < 2 then 0
    else PairShares(g, Front(samples), i) + Share(g, samples[|samples| - 2], Last(samples), i)
  }

  /** Adds one pair of samples to every bucket it crosses. */
  method SpreadPair(g: Grid, a: Sample, b: Sample, cpu: array<int>)
    requires g.Valid() && cpu.Length == g.count
    modifies cpu
    ensures forall i :: 0 <= i < g.count ==> cpu[i] == old(cpu[i]) + Share(g, a, b, i)
  {
    var wall, delta := b.at - a.at, b.cpu - a.cpu;
    if wall <= 0 || delta < 0 {
      return;
    }
    var first := g.Index(a.at);
    var last := g.Index(Max(a.at, b.at - 1));
    forall i | 0 <= i < g.count && (i < first || last < i) ensures Share(g, a, b, i) == 0 {
      OutsideRange(g, a, b, i);
    }
    var index := first;
    while index < Min(last + 1, g.count)
      invariant first <= index
      invariant forall i :: 0 <= i < g.count ==>
        cpu[i] == old(cpu[i]) + (if i < index then Share(g, a, b, i) else 0)
    {
      var bucketStart := Max(a.at, g.origin + index * g.width);
      var bucketEnd := Min(b.at, g.origin + (index + 1) * g.width);
      if bucketStart < bucketEnd {
        var before := delta * (bucketStart - a.at) / wall;
        var after := delta * (bucketEnd - a.at) / wall;
        cpu[index] := cpu[index] + (after - before);
      }
      index := index + 1;
    }
  }

  /** Adds every consecutive pair of one worker's sorted samples. */
  method SpreadWorker(g: Grid, samples: seq<Sample>, cpu: array<int>)
    requires g.Valid() && cpu.Length == g.count
    modifies cpu
    ensures forall i :: 0 <= i < g.count ==> cpu[i] == old(cpu[i]) + PairShares(g, samples, i)
  {
    var n := 1;
    while n < |samples|
      invariant 1 <= n && (|samples| == 0 || n <= |samples|)
      invariant forall i :: 0 <= i < g.count ==>
        cpu[i] == old(cpu[i]) + PairShares(g, samples[..Min(n, |samples|)], i)
    {
      SpreadPair(g, samples[n - 1], samples[n], cpu);
      TakeSnoc(samples, n);
      n := n + 1;
    }
    assert samples[..Min(n, |samples|)] == samples;
  }

  // ---------------------------------------------------------------- which buckets a pair crosses

  lemma BeforeRange(g: Grid, t: int, i: int)
    requires g.Valid() && i < (t - g.origin) / g.width
    ensures g.Edge(i + 1) <= t
  {
    DivBounds(t - g.origin, g.width);
    MulMonotone(i + 1, (t - g.origin) / g.width, g.width);
  }

  lemma AfterRange(g: Grid, t: int, i: int)
    requires g.Valid() && (t - g.origin) / g.width < i
    ensures t < g.Edge(i)
  {
    DivBounds(t - g.origin, g.width);
    MulMonotone((t - g.origin) / g.width + 1, i, g.width);
  }

  lemma OutsideRange(g: Grid, a: Sample, b: Sample, i: int)
    requires g.Valid() && 0 <= i && a.at < b.at
    requires i < g.Index(a.at) || g.Index(Max(a.at, b.at - 1)) < i
    ensures Share(g, a, b, i) == 0
  {
    if i < g.Index(a.at) {
      BeforeRange(g, a.at, i);
    } else {
      AfterRange(g, b.at - 1, i);
    }
  }

  // ---------------------------------------------------------------- conservation

  lemma SpentByMonotone(a: Sample, b: Sample, x: int, y: int)
    requires Accepted(a, b) && x <= y
    ensures SpentBy(a, b, x) <= SpentBy(a, b, y)
  {
    var d, w := b.cpu - a.cpu, b.at - a.at;
    MulMonotone(x - a.at, y - a.at, d);
    DivMonotone(d * (x - a.at), d * (y - a.at), w);
  }

  lemma SpentByEnds(a: Sample, b: Sample)
    requires a.at < b.at
    ensures SpentBy(a, b, a.at) == 0 && SpentBy(a, b, b.at) == b.cpu - a.cpu
  {
    var d, w := b.cpu - a.cpu, b.at - a.at;
    assert d * 0 == 0;
    MulDiv(d, w);
  }

  lemma FloorDifference(d: int, w: int, x: int, y: int)
    requires w > 0
    ensures -w < (d * y / w - d * x / w) * w - d * (y - x) < w
  {
    var m, n := d * x, d * y;
    DivBounds(m, w);
    DivBounds(n, w);
    Distribute(w, n / w, m / w);
    Distribute(d, y, x);
  }

  /** A share is never negative, and is within one nanosecond of the exact
      proportional share of the part of the pair inside the bucket. */
  lemma ShareIsProportional(g: Grid, a: Sample, b: Sample, i: int)
    requires g.Valid() && Accepted(a, b)
    ensures Share(g, a, b, i) >= 0
    ensures
      var lo, hi, wall := Max(a.at, g.Edge(i)), Min(b.at, g.Edge(i + 1)), b.at - a.at;
      lo < hi ==> -wall < Share(g, a, b, i) * wall - (b.cpu - a.cpu) * (hi - lo) < wall
  {
    var lo, hi, wall, d := Max(a.at, g.Edge(i)), Min(b.at, g.Edge(i + 1)), b.at - a.at, b.cpu - a.cpu;
    if lo < hi {
      SpentByMonotone(a, b, lo, hi);
      FloorDifference(d, wall, lo - a.at, hi - a.at);
      assert (hi - a.at) - (lo - a.at) == hi - lo;
    }
  }

  /** The part of the pair inside the first `n` buckets. */
  function Clipped(g: Grid, a: Sample, b: Sample, n: int): int {
    if !Accepted(a, b) then 0
    else SpentIn(a, b, Max(a.at, g.origin), Min(b.at, g.Edge(n)))
  }

  function ShareSum(g: Grid, a: Sample, b: Sample, n: nat): int {
    if n == 0 then 0 else ShareSum(g, a, b, n - 1) + Share(g, a, b, n - 1)
  }

  /** The shares telescope: no nanosecond is lost or invented between buckets. */
  lemma {:induction false} SharesTelescope(g: Grid, a: Sample, b: Sample, n: nat)
    requires g.Valid()
    ensures ShareSum(g, a, b, n) == Clipped(g, a, b, n)
  {
    if n == 0 {
      assert g.Edge(0) == g.origin;
    } else {
      SharesTelescope(g, a, b, n - 1);
      MulMonotone(0, n - 1, g.width);
      assert g.Edge(n) == g.Edge(n - 1) + g.width by {
        assert n * g.width == (n - 1) * g.width + g.width;
      }
    }
  }

  /** A pair inside the grid is spread without loss: the shares sum to its CPU delta. */
  lemma PairIsConserved(g: Grid, a: Sample, b: Sample)
    requires g.Valid() && Accepted(a, b)
    requires g.origin <= a.at && b.at <= g.Edge(g.count)
    ensures ShareSum(g, a, b, g.count) == b.cpu - a.cpu
  {
    SharesTelescope(g, a, b, g.count);
    SpentByEnds(a, b);
  }

  // ---------------------------------------------------------------- all workers

  function AllShares(g: Grid, workers: seq<seq<Sample>>, i: int): int {
    if workers == [] then 0
    else AllShares(g, Front(workers), i) + PairShares(g, Last(workers), i)
  }

  method SpreadAll(g: Grid, workers: seq<seq<Sample>>, cpu: array<int>)
    requires g.Valid() && cpu.Length == g.count
    modifies cpu
    ensures forall i :: 0 <= i < g.count ==> cpu[i] == old(cpu[i]) + AllShares(g, workers, i)
  {
    for n := 0 to |workers|
      invariant forall i :: 0 <= i < g.count ==> cpu[i] == old(cpu[i]) + AllShares(g, workers[..n], i)
    {
      SpreadWorker(g, workers[n], cpu);
      TakeSnoc(workers, n);
    }
    assert workers[..|workers|] == workers;
  }

  /** CPU time the samples of one worker prove inside the grid. */
  function ClippedDeltas(g: Grid, samples: seq<Sample>): int {
    if |samples| < 2 then 0
    else ClippedDeltas(g, Front(samples)) + Clipped(g, samples[|samples| - 2], Last(samples), g.count)
  }

  function AllClipped(g: Grid, workers: seq<seq<Sample>>): int {
    if workers == [] then 0
    else AllClipped(g, Front(workers)) + ClippedDeltas(g, Last(workers))
  }

  /** The first `n` bucket totals, added up. */
  function Total(g: Grid, workers: seq<seq<Sample>>, n: nat): int {
    if n == 0 then 0 else Total(g, workers, n - 1) + AllShares(g, workers, n - 1)
  }

  function WorkerTotal(g: Grid, samples: seq<Sample>, n: nat): int {
    if n == 0 then 0 else WorkerTotal(g, samples, n - 1) + PairShares(g, samples, n - 1)
  }

  lemma {:induction false} WorkerTotalSplits(g: Grid, samples: seq<Sample>, n: nat)
    ensures WorkerTotal(g, samples, n) ==
      if |samples| < 2 then 0
      else WorkerTotal(g, Front(samples), n) + ShareSum(g, samples[|samples| - 2], Last(samples), n)
  {
    if n > 0 {
      WorkerTotalSplits(g, samples, n - 1);
    }
  }

  lemma {:induction false} WorkerConserved(g: Grid, samples: seq<Sample>)
    requires g.Valid()
    ensures WorkerTotal(g, samples, g.count) == ClippedDeltas(g, samples)
  {
    WorkerTotalSplits(g, samples, g.count);
    if |samples| >= 2 {
      WorkerConserved(g, Front(samples));
      SharesTelescope(g, samples[|samples| - 2], Last(samples), g.count);
    }
  }

  lemma {:induction false} TotalSplits(g: Grid, workers: seq<seq<Sample>>, n: nat)
    ensures Total(g, workers, n) ==
      if workers == [] then 0 else Total(g, Front(workers), n) + WorkerTotal(g, Last(workers), n)
  {
    if n > 0 {
      TotalSplits(g, workers, n - 1);
    }
  }

  /** Over all workers the buckets hold exactly the CPU time of the parts of the
      sample pairs that lie inside the grid. */
  lemma {:induction false} CpuIsConserved(g: Grid, workers: seq<seq<Sample>>)
    requires g.Valid()
    ensures Total(g, workers, g.count) == AllClipped(g, workers)
  {
    TotalSplits(g, workers, g.count);
    if workers != [] {
      CpuIsConserved(g, Front(workers));
      WorkerConserved(g, Last(workers));
    }
  }

  ghost predicate Inside(g: Grid, samples: seq<Sample>) {
    forall i :: 0 <= i < |samples| ==> g.origin <= samples[i].at <= g.Edge(g.count)
  }

  /** CPU time of the accepted pairs of one worker. */
  function AcceptedDeltas(samples: seq<Sample>): int {
    if |samples| < 2 then 0
    else
      var a, b := samples[|samples| - 2], Last(samples);
      AcceptedDeltas(Front(samples)) + (if Accepted(a, b) then b.cpu - a.cpu else 0)
  }

  function AllAccepted(workers: seq<seq<Sample>>): int {
    if workers == [] then 0 else AllAccepted(Front(workers)) + AcceptedDeltas(Last(workers))
  }

  lemma {:induction false} AcceptedConserved(g: Grid, samples: seq<Sample>)
    requires g.Valid() && Inside(g, samples)
    ensures ClippedDeltas(g, samples) == AcceptedDeltas(samples)
  {
    if |samples| >= 2 {
      AcceptedConserved(g, Front(samples));
      var a, b := samples[|samples| - 2], Last(samples);
      if Accepted(a, b) {
        SharesTelescope(g, a, b, g.count);
        PairIsConserved(g, a, b);
      }
    }
  }

  /** When every sample lies inside the grid, the buckets together hold exactly
      the CPU time of the accepted sample pairs. */
  lemma {:induction false} PairsAreConserved(g: Grid, workers: seq<seq<Sample>>)
    requires g.Valid() && forall i :: 0 <= i < |workers| ==> Inside(g, workers[i])
    ensures Total(g, workers, g.count) == AllAccepted(workers)
  {
    TotalSplits(g, workers, g.count);
    if workers != [] {
      PairsAreConserved(g, Front(workers));
      WorkerConserved(g, Last(workers));
      AcceptedConserved(g, Last(workers));
    }
  }

  /** A process CPU counter read at increasing instants. */
  ghost predicate Cumulative(samples: seq<Sample>) {
    forall i, j :: 0 <= i < j < |samples| ==>
      samples[i].cpu <= samples[j].cpu && (samples[i].at < samples[j].at || samples[i] == samples[j])
  }

  function Used(samples: seq<Sample>): int {
    if samples == [] then 0 else Last(samples).cpu - samples[0].cpu
  }

  function AllUsed(workers: seq<seq<Sample>>): int {
    if workers == [] then 0 else AllUsed(Front(workers)) + Used(Last(workers))
  }

  lemma {:induction false} CounterAdvance(samples: seq<Sample>)
    requires Cumulative(samples)
    ensures AcceptedDeltas(samples) == Used(samples)
  {
    if |samples| >= 2 {
      CounterAdvance(Front(samples));
      assert Last(Front(samples)) == samples[|samples| - 2];
    }
  }

  lemma {:induction false} CountersAdvance(workers: seq<seq<Sample>>)
    requires forall i :: 0 <= i < |workers| ==> Cumulative(workers[i])
    ensures AllAccepted(workers) == AllUsed(workers)
  {
    if workers != [] {
      CountersAdvance(Front(workers));
      CounterAdvance(Last(workers));
    }
  }

  /** So cumulative counters read inside the grid are spread without loss: the
      buckets hold exactly what the counters advanced by. */
  lemma CountersAreConserved(g: Grid, workers: seq<seq<Sample>>)
    requires g.Valid()
    requires forall i :: 0 <= i < |workers| ==> Inside(g, workers[i]) && Cumulative(workers[i])
    ensures Total(g, workers, g.count) == AllUsed(workers)
  {
    PairsAreConserved(g, workers);
    CountersAdvance(workers);
  }

  lemma {:induction false} TotalOfSeq(g: Grid, workers: seq<seq<Sample>>, cpu: seq<int>)
    requires forall i :: 0 <= i < |cpu| ==> cpu[i] == AllShares(g, workers, i)
    ensures Sum(cpu) == Total(g, workers, |cpu|)
  {
    if cpu != [] {
      TotalOfSeq(g, workers, Front(cpu));
    }
  }
}
