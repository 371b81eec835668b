/** `analyze` and `check_limits`: lifetimes, peaks, buckets and the limit verdict. */
module Footprint {
  import opened Sequences
  import opened Arithmetic
  import opened Sorting
  import opened Events
  import opened Lifetimes
  import opened Sweep
  import opened CpuShares

  const MAX_BUCKETS := 1_000_000

  datatype Bucket = Bucket(
    start: int,
    end: int,
    liveSteps: set<Key>,
    liveWorkers: set<Key>,
    processCpu: int)

  datatype Stats = Stats(
    steps: seq<Interval>,
    workers: seq<Interval>,
    maxSteps: int,
    maxWorkers: int,
    buckets: seq<Bucket>,
    issues: seq<Issue>)

  datatype AnalysisError = BucketNotPositive | TooManyBuckets(count: int)

  datatype Outcome = Ok(stats: Stats) | Err(error: AnalysisError)

  // ---------------------------------------------------------------- the bucket grid

  function FirstStart(s: seq<Interval>): (t: int)
    requires s != []
    ensures (forall v :: v in s ==> t <= v.start) && exists v :: v in s && v.start == t
  {
    assert s == Front(s) + [Last(s)];
    if |s| == 1 then s[0].start else Min(FirstStart(Front(s)), Last(s).start)
  }

  function LastEnd(s: seq<Interval>): (t: int)
    requires s != []
    ensures (forall v :: v in s ==> v.end <= t) && exists v :: v in s && v.end == t
  {
    assert s == Front(s) + [Last(s)];
    if |s| == 1 then s[0].end else Max(LastEnd(Front(s)), Last(s).end)
  }

  /** The grid starts on a multiple of the width and reaches the last end. */
  function GridOf(s: seq<Interval>, width: int): (g: Grid)
    requires s != [] && width > 0
    ensures g.Valid() && g.width == width
  {
    var origin := FirstStart(s) / width * width;
    Grid(origin, width, Max(1, (LastEnd(s) - origin + width - 1) / width))
  }

  /** The grid begins in the width-aligned stretch that holds the first start, and
      its last bucket is the first to reach the last end. */
  lemma GridIsTight(s: seq<Interval>, width: int)
    requires s != [] && width > 0
    ensures var g := GridOf(s, width);
      && g.origin % width == 0
      && (exists v :: v in s && g.origin <= v.start < g.origin + width && forall u :: u in s ==> v.start <= u.start)
      && (forall v :: v in s ==> v.end <= g.Edge(g.count))
      && (g.count == 1 || exists v :: v in s && g.Edge(g.count - 1) < v.end)
  {
    var g, n := GridOf(s, width), LastEnd(s) - FirstStart(s) / width * width + width - 1;
    DivBounds(FirstStart(s), width);
    DivBounds(n, width);
    Multiple(FirstStart(s) / width, width);
    assert (n / width - 1) * width == n / width * width - width;
    assert n / width <= 1 ==> n / width * width <= width by {
      if n / width <= 1 {
        MulMonotone(n / width, 1, width);
      }
    }
  }

  lemma Multiple(q: int, d: int)
    requires d > 0
    ensures q * d % d == 0
  {
    MulDiv(q, d);
  }

  /** Every bucket a lifetime overlaps is in the grid: the clamp to the bucket
      count loses nothing. */
  lemma GridCovers(s: seq<Interval>, width: int, v: Interval, i: int)
    requires width > 0 && v in s
    requires var g := GridOf(s, width); v.Overlaps(g.Edge(i), g.Edge(i + 1))
    ensures 0 <= i < GridOf(s, width).count
  {
    var g := GridOf(s, width);
    DivBounds(FirstStart(s), width);
    DivBounds(LastEnd(s) - g.origin + width - 1, width);
    if i < 0 {
      MulMonotone(i + 1, 0, width);
      assert false;
    }
    if g.count <= i {
      MulMonotone((LastEnd(s) - g.origin + width - 1) / width, i, width);
      assert false;
    }
  }

  /** The identities with a lifetime overlapping `[lo, hi)`. */
  ghost function LiveIn(s: seq<Interval>, lo: int, hi: int): set<Key> {
    set v | v in s && v.Overlaps(lo, hi) :: v.key
  }

  lemma OverlapInRange(g: Grid, v: Interval, i: int)
    requires g.Valid() && 0 <= i && v.Overlaps(g.Edge(i), g.Edge(i + 1))
    ensures g.Index(v.start) <= i <= g.Index(Max(v.start, v.end - 1))
  {
    if i < (v.start - g.origin) / g.width {
      BeforeRange(g, v.start, i);
      assert false;
    }
    if (Max(v.start, v.end - 1) - g.origin) / g.width < i {
      AfterRange(g, Max(v.start, v.end - 1), i);
      assert false;
    }
  }

  predicate InBucket(g: Grid, v: Interval, i: int) {
    v.Overlaps(g.Edge(i), g.Edge(i + 1))
  }

  /** The range of bucket indices to look at: no overlapped bucket is outside it. */
  method IndexRange(g: Grid, v: Interval) returns (first: nat, last: int)
    requires g.Valid()
    ensures forall i :: 0 <= i && InBucket(g, v, i) ==> first <= i <= last
  {
    first := g.Index(v.start);
    last := g.Index(Max(v.start, v.end - 1));
    forall i | 0 <= i && InBucket(g, v, i) ensures first <= i <= last {
      OverlapInRange(g, v, i);
    }
  }

  method OverlapsBucket(g: Grid, v: Interval, index: int) returns (b: bool)
    ensures b == InBucket(g, v, index)
  {
    var bucketStart := g.origin + index * g.width;
    assert g.Edge(index + 1) == bucketStart + g.width;
    b := v.Overlaps(bucketStart, bucketStart + g.width);
  }

  /** Adds one lifetime's identity to every bucket it overlaps. */
  method MarkInterval(g: Grid, v: Interval, live: array<set<Key>>)
    requires g.Valid() && live.Length == g.count
    modifies live
    ensures forall i :: 0 <= i < live.Length ==>
      live[i] == old(live[i]) + (if InBucket(g, v, i) then {v.key} else {})
  {
    var first, last := IndexRange(g, v);
    var index := first;
    while index < Min(last + 1, live.Length)
      invariant first <= index
      invariant forall i :: 0 <= i < live.Length ==>
        live[i] == old(live[i]) + (if i < index && InBucket(g, v, i) then {v.key} else {})
    {
      var here := OverlapsBucket(g, v, index);
      if here {
        live[index] := live[index] + {v.key};
      }
      index := index + 1;
    }
  }

  /** Bucket `i` ends up with exactly the identities that overlap it. */
  method MarkLive(g: Grid, s: seq<Interval>, live: array<set<Key>>)
    requires g.Valid() && live.Length == g.count
    requires forall i :: 0 <= i < g.count ==> live[i] == {}
    modifies live
    ensures forall i :: 0 <= i < g.count ==> live[i] == LiveIn(s, g.Edge(i), g.Edge(i + 1))
  {
    for n := 0 to |s|
      invariant forall i :: 0 <= i < g.count ==> live[i] == LiveIn(s[..n], g.Edge(i), g.Edge(i + 1))
    {
      MarkInterval(g, s[n], live);
      forall i | 0 <= i < g.count
        ensures live[i] == LiveIn(s[..n + 1], g.Edge(i), g.Edge(i + 1))
      {
      }
    }
    assert s[..|s|] == s;
  }

  // ---------------------------------------------------------------- worker CPU samples

  predicate SampleOrder(a: Sample, b: Sample) {
    a.at < b.at || (a.at == b.at && a.cpu <= b.cpu)
  }

  /** A worker record that carries a CPU reading. */
  predicate HasSample(e: Event) {
    && (e.kind.WorkerStart? || e.kind.WorkerSample? || e.kind.WorkerEnd?)
    && e.ts.Some? && e.step.Some? && e.worker.Some? && e.pid.Some? && e.cpuNs.Some?
  }

  function SampleKey(e: Event): Key
    requires HasSample(e)
  {
    WorkerKey(e.step.value, e.worker.value, e.pid.value)
  }

  function SamplesOf(k: Key, events: seq<Event>): seq<Sample> {
    if events == [] then []
    else if HasSample(Last(events)) && SampleKey(Last(events)) == k then
      SamplesOf(k, Front(events)) + [Sample(Last(events).ts.value, Last(events).cpuNs.value)]
    else SamplesOf(k, Front(events))
  }

  /** Workers in order of their first reading. */
  function WorkersSeen(events: seq<Event>): seq<Key> {
    if events == [] then []
    else if HasSample(Last(events)) && SampleKey(Last(events)) !in WorkersSeen(Front(events)) then
      WorkersSeen(Front(events)) + [SampleKey(Last(events))]
    else WorkersSeen(Front(events))
  }

  /** Each worker's readings, sorted. */
  function SampleLists(events: seq<Event>): seq<seq<Sample>> {
    Map((k: Key) => Sort(SampleOrder, SamplesOf(k, events)), WorkersSeen(events))
  }

  lemma {:induction false} UnseenHasNoSamples(k: Key, events: seq<Event>)
    ensures k !in WorkersSeen(events) ==> SamplesOf(k, events) == []
  {
    if events != [] {
      UnseenHasNoSamples(k, Front(events));
    }
  }

  method TabulateSamples(events: seq<Event>) returns (order: seq<Key>, table: map<Key, seq<Sample>>)
    ensures order == WorkersSeen(events)
    ensures forall k :: k in order ==> k in table && table[k] == SamplesOf(k, events)
  {
    order, table := [], map[];
    for n := 0 to |events|
      invariant order == WorkersSeen(events[..n])
      invariant forall k :: k in table.Keys <==> k in order
      invariant forall k :: k in table ==> table[k] == SamplesOf(k, events[..n])
    {
      var e := events[n];
      TakeSnoc(events, n);
      if HasSample(e) {
        var k := SampleKey(e);
        if k !in table {
          UnseenHasNoSamples(k, events[..n]);
          order := order + [k];
          table := table[k := []];
        }
        table := table[k := table[k] + [Sample(e.ts.value, e.cpuNs.value)]];
      }
    }
    assert events[..|events|] == events;
  }

  method GroupSamples(events: seq<Event>) returns (lists: seq<seq<Sample>>)
    ensures lists == SampleLists(events)
  {
    var order, table := TabulateSamples(events);
    lists := [];
    for n := 0 to |order|
      invariant |lists| == n
      invariant forall i :: 0 <= i < n ==> lists[i] == Sort(SampleOrder, SamplesOf(order[i], events))
    {
      assert order[n] in order;
      lists := lists + [Sort(SampleOrder, table[order[n]])];
    }
    assert lists == SampleLists(events);
  }

  // ---------------------------------------------------------------- analyze

  ghost predicate BucketsOf(events: seq<Event>, steps: seq<Interval>, workers: seq<Interval>, g: Grid,
    buckets: seq<Bucket>)
  {
    && |buckets| == g.count
    && (forall i :: 0 <= i < |buckets| ==> buckets[i].start == g.Edge(i) && buckets[i].end == g.Edge(i + 1))
    && (forall i :: 0 <= i < |buckets| ==> buckets[i].liveSteps == LiveIn(steps, g.Edge(i), g.Edge(i + 1)))
    && (forall i :: 0 <= i < |buckets| ==> buckets[i].liveWorkers == LiveIn(workers, g.Edge(i), g.Edge(i + 1)))
    && (forall i :: 0 <= i < |buckets| ==> buckets[i].processCpu == AllShares(g, SampleLists(events), i))
  }

  /** What a successful analysis of a log says. */
  ghost predicate AnalysisOf(events: seq<Event>, width: int, stats: Stats) {
    var steps, workers := Matched(Steps, events), Matched(Workers, events);
    && width > 0
    && stats.steps == steps.intervals && stats.workers == workers.intervals
    && IsPeak(stats.steps, stats.maxSteps) && IsPeak(stats.workers, stats.maxWorkers)
    && multiset(stats.issues) == IssueBag(steps) + IssueBag(workers)
    && (if stats.steps + stats.workers == [] then stats.buckets == []
        else BucketsOf(events, stats.steps, stats.workers, GridOf(stats.steps + stats.workers, width), stats.buckets))
  }

  method AssembleBuckets(g: Grid, liveSteps: seq<set<Key>>, liveWorkers: seq<set<Key>>, processCpu: seq<int>)
    returns (buckets: seq<Bucket>)
    requires g.Valid() && |liveSteps| == |liveWorkers| == |processCpu| == g.count
    ensures |buckets| == g.count
    ensures forall j :: 0 <= j < |buckets| ==> buckets[j].start == g.Edge(j) && buckets[j].end == g.Edge(j + 1)
    ensures forall j :: 0 <= j < |buckets| ==> buckets[j].liveSteps == liveSteps[j]
    ensures forall j :: 0 <= j < |buckets| ==> buckets[j].liveWorkers == liveWorkers[j]
    ensures forall j :: 0 <= j < |buckets| ==> buckets[j].processCpu == processCpu[j]
  {
    buckets := [];
    for i := 0 to g.count
      invariant |buckets| == i
      invariant forall j :: 0 <= j < i ==> buckets[j].start == g.Edge(j) && buckets[j].end == g.Edge(j + 1)
      invariant forall j :: 0 <= j < i ==> buckets[j].liveSteps == liveSteps[j]
      invariant forall j :: 0 <= j < i ==> buckets[j].liveWorkers == liveWorkers[j]
      invariant forall j :: 0 <= j < i ==> buckets[j].processCpu == processCpu[j]
    {
      buckets := buckets +
        [Bucket(g.Edge(i), g.Edge(i + 1), liveSteps[i], liveWorkers[i], processCpu[i])];
    }
  }

  method FillBuckets(events: seq<Event>, steps: seq<Interval>, workers: seq<Interval>, g: Grid)
    returns (buckets: seq<Bucket>)
    requires g.Valid()
    ensures BucketsOf(events, steps, workers, g, buckets)
  {
    var liveSteps := new set<Key>[g.count](_ => {});
    var liveWorkers := new set<Key>[g.count](_ => {});
    var processCpu := new int[g.count](_ => 0);
    MarkLive(g, steps, liveSteps);
    MarkLive(g, workers, liveWorkers);
    var lists := GroupSamples(events);
    SpreadAll(g, lists, processCpu);
    buckets := AssembleBuckets(g, liveSteps[..], liveWorkers[..], processCpu[..]);
  }

  function AllLifetimes(events: seq<Event>): seq<Interval> {
    Matched(Steps, events).intervals + Matched(Workers, events).intervals
  }

  /** How many buckets the lifetimes of a log would take. */
  function BucketCount(events: seq<Event>, width: int): int
    requires width > 0
  {
    if AllLifetimes(events) == [] then 0 else GridOf(AllLifetimes(events), width).count
  }

  predicate TooFine(events: seq<Event>, width: int)
    requires width > 0
  {
    BucketCount(events, width) > 1_000_000
  }

  method Analyze(events: seq<Event>, width: int) returns (r: Outcome)
    ensures r.Ok? ==> AnalysisOf(events, width, r.stats)
    ensures r == Err(BucketNotPositive) <==> width <= 0
    ensures r.Err? && 0 < width <==> 0 < width && TooFine(events, width)
    ensures 0 < width && TooFine(events, width) ==> r == Err(TooManyBuckets(BucketCount(events, width)))
  {
    if width <= 0 {
      return Err(BucketNotPositive);
    }
    var steps, stepIssues := CompletedIntervals(Steps, events);
    var workers, workerIssues := CompletedIntervals(Workers, events);
    var all := steps + workers;
    if all == [] {
      return Ok(Stats([], [], 0, 0, [], stepIssues + workerIssues));
    }
    var g := GridOf(all, width);
    if g.count > MAX_BUCKETS {
      return Err(TooManyBuckets(g.count));
    }
    var buckets := FillBuckets(events, steps, workers, g);
    var maxSteps := MaxOverlap(steps);
    var maxWorkers := MaxOverlap(workers);
    return Ok(Stats(steps, workers, maxSteps, maxWorkers, buckets, stepIssues + workerIssues));
  }

  // ---------------------------------------------------------------- check_limits

  datatype Violation =
    | IssueFound(issue: Issue)
    | StepsPeaked(peak: int, limit: int)
    | WorkersPeaked(peak: int, limit: int)

  datatype Verdict = Verdict(ok: bool, violations: seq<Violation>)

  function CheckLimits(stats: Stats, maxSteps: Option<int>, maxWorkers: Option<int>): Verdict {
    var violations :=
      Map((i: Issue) => IssueFound(i), stats.issues)
      + (if maxSteps.Some? && stats.maxSteps > maxSteps.value
         then [StepsPeaked(stats.maxSteps, maxSteps.value)] else [])
      + (if maxWorkers.Some? && stats.maxWorkers > maxWorkers.value
         then [WorkersPeaked(stats.maxWorkers, maxWorkers.value)] else []);
    Verdict(violations == [], violations)
  }
}
