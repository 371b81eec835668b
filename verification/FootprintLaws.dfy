/** End-to-end statements about the analyser, for every log. */
module FootprintLaws {
  import opened Sequences
  import opened Arithmetic
  import opened Sorting
  import opened Events
  import opened Lifetimes
  import opened LifetimeLaws
  import opened LiveSets
  import opened Sweep
  import opened CpuShares
  import opened Footprint

  /** At no instant are more than `limit` identities live, by the raw log. */
  ghost predicate WithinLimit(side: Side, events: seq<Event>, limit: Option<int>) {
    limit.Some? ==> forall t, live :: IsLiveSet(side, events, t, live) ==> |live| <= limit.value
  }

  lemma SameLiveSet(side: Side, events: seq<Event>, t: int, a: set<Key>, b: set<Key>)
    requires IsLiveSet(side, events, t, a) && IsLiveSet(side, events, t, b)
    ensures a == b
  {
  }

  lemma PeakWithinLimit(side: Side, events: seq<Event>, peak: int, limit: int)
    requires Orderable(events) && WellBracketed(side, events)
    requires IsPeak(Matched(side, events).intervals, peak)
    ensures peak <= limit <==> WithinLimit(side, events, Some(limit))
  {
    var s := Matched(side, events).intervals;
    forall t, live | IsLiveSet(side, events, t, live) ensures |live| <= peak {
      var all := LiveCount(side, events, t);
      SameLiveSet(side, events, t, live, all);
    }
    var top :| Count(LiveAt(top), s) == peak;
    var live := LiveCount(side, events, top);
  }

  lemma NoIssuesInBoth(issues: seq<Issue>, a: multiset<Issue>, b: multiset<Issue>)
    requires multiset(issues) == a + b
    ensures issues == [] <==> a == multiset{} && b == multiset{}
  {
    assert |multiset(issues)| == |issues|;
    assert |a + b| == |a| + |b|;
  }

  lemma OkIff(stats: Stats, maxSteps: Option<int>, maxWorkers: Option<int>)
    ensures CheckLimits(stats, maxSteps, maxWorkers).ok <==>
      && stats.issues == []
      && (maxSteps.Some? ==> stats.maxSteps <= maxSteps.value)
      && (maxWorkers.Some? ==> stats.maxWorkers <= maxWorkers.value)
  {
  }

  /** The verdict is exact: it is ok precisely when every start and end record is
      well formed, every identity's records alternate and close, and at every
      instant no more steps and workers are live than the limits allow. */
  lemma VerdictIsExact(events: seq<Event>, width: int, stats: Stats, maxSteps: Option<int>, maxWorkers: Option<int>)
    requires Orderable(events) && AnalysisOf(events, width, stats)
    ensures CheckLimits(stats, maxSteps, maxWorkers).ok <==>
      && WellBracketed(Steps, events) && WellBracketed(Workers, events)
      && WithinLimit(Steps, events, maxSteps) && WithinLimit(Workers, events, maxWorkers)
  {
    OkIff(stats, maxSteps, maxWorkers);
    NoIssuesIffBracketed(Steps, events);
    NoIssuesIffBracketed(Workers, events);
    NoIssuesInBoth(stats.issues, IssueBag(Matched(Steps, events)), IssueBag(Matched(Workers, events)));
    if WellBracketed(Steps, events) && maxSteps.Some? {
      PeakWithinLimit(Steps, events, stats.maxSteps, maxSteps.value);
    }
    if WellBracketed(Workers, events) && maxWorkers.Some? {
      PeakWithinLimit(Workers, events, stats.maxWorkers, maxWorkers.value);
    }
  }

  /** The violations named are exactly the issues and the peaks above their limits. */
  lemma ViolationsAreNamed(stats: Stats, maxSteps: Option<int>, maxWorkers: Option<int>, v: Violation)
    ensures v in CheckLimits(stats, maxSteps, maxWorkers).violations <==>
      match v
      case IssueFound(issue) => issue in stats.issues
      case StepsPeaked(peak, limit) => maxSteps == Some(limit) && peak == stats.maxSteps && limit < peak
      case WorkersPeaked(peak, limit) => maxWorkers == Some(limit) && peak == stats.maxWorkers && limit < peak
  {
    var named := Map((i: Issue) => IssueFound(i), stats.issues);
    if v in named {
      var i :| 0 <= i < |named| && named[i] == v;
      assert stats.issues[i] in stats.issues;
    }
    if v.IssueFound? && v.issue in stats.issues {
      var i :| 0 <= i < |stats.issues| && stats.issues[i] == v.issue;
      assert named[i] == v;
    }
  }

  /** The verdict does not depend on how the shared log interleaved its writers,
      nor on the bucket width. */
  lemma VerdictIgnoresInterleaving(a: seq<Event>, b: seq<Event>, widthA: int, widthB: int,
    statsA: Stats, statsB: Stats, maxSteps: Option<int>, maxWorkers: Option<int>)
    requires SameTraces(Steps, a, b) && SameTraces(Workers, a, b)
    requires AnalysisOf(a, widthA, statsA) && AnalysisOf(b, widthB, statsB)
    ensures statsA.maxSteps == statsB.maxSteps && statsA.maxWorkers == statsB.maxWorkers
    ensures multiset(statsA.issues) == multiset(statsB.issues)
    ensures CheckLimits(statsA, maxSteps, maxWorkers).ok == CheckLimits(statsB, maxSteps, maxWorkers).ok
  {
    InterleavingIndependence(Steps, a, b);
    InterleavingIndependence(Workers, a, b);
    PeakOfPermutation(statsA.steps, statsB.steps, statsA.maxSteps, statsB.maxSteps);
    PeakOfPermutation(statsA.workers, statsB.workers, statsA.maxWorkers, statsB.maxWorkers);
    SameVerdict(statsA, statsB, maxSteps, maxWorkers);
  }

  lemma SameVerdict(a: Stats, b: Stats, maxSteps: Option<int>, maxWorkers: Option<int>)
    requires a.maxSteps == b.maxSteps && a.maxWorkers == b.maxWorkers && multiset(a.issues) == multiset(b.issues)
    ensures CheckLimits(a, maxSteps, maxWorkers).ok == CheckLimits(b, maxSteps, maxWorkers).ok
  {
    assert |multiset(a.issues)| == |multiset(b.issues)|;
  }

  lemma PeakOfPermutation(a: seq<Interval>, b: seq<Interval>, p: int, q: int)
    requires multiset(a) == multiset(b) && IsPeak(a, p) && IsPeak(b, q)
    ensures p == q
  {
    forall t ensures Count(LiveAt(t), a) == Count(LiveAt(t), b) {
      CountOfPermutation(LiveAt(t), a, b);
    }
    var t :| Count(LiveAt(t), a) == p;
    var u :| Count(LiveAt(u), b) == q;
    assert Count(LiveAt(t), b) == p && Count(LiveAt(u), a) == q;
  }

  // ---------------------------------------------------------------- peaks and buckets

  lemma LiveFitsBucket(s: seq<Interval>, g: Grid, t: int)
    requires g.Valid() && Sequential(s)
    ensures var i := (t - g.origin) / g.width;
      Count(LiveAt(t), s) <= |LiveIn(s, g.Edge(i), g.Edge(i + 1))|
  {
    var i := (t - g.origin) / g.width;
    BucketHolds(g, t);
    LiveKeysDistinct(s, t);
    var keys := set v | v in s && v.start <= t < v.end :: v.key;
    var live := LiveIn(s, g.Edge(i), g.Edge(i + 1));
    forall k | k in keys ensures k in live {
      var v :| v in s && v.start <= t < v.end && v.key == k;
      assert v.Overlaps(g.Edge(i), g.Edge(i + 1));
    }
    Subset(keys, live);
  }

  lemma BucketHolds(g: Grid, t: int)
    requires g.Valid()
    ensures var i := (t - g.origin) / g.width; g.Edge(i) <= t < g.Edge(i + 1)
  {
    var i := (t - g.origin) / g.width;
    DivBounds(t - g.origin, g.width);
    assert (i + 1) * g.width == i * g.width + g.width;
  }

  lemma PeakFitsBucket(s: seq<Interval>, g: Grid, peak: int) returns (i: int, v: Interval)
    requires g.Valid() && Sequential(s) && IsPeak(s, peak) && peak > 0
    ensures peak <= |LiveIn(s, g.Edge(i), g.Edge(i + 1))|
    ensures v in s && v.Overlaps(g.Edge(i), g.Edge(i + 1))
  {
    var t :| Count(LiveAt(t), s) == peak;
    CountPositive(LiveAt(t), s);
    var j :| 0 <= j < |s| && LiveAt(t)(s[j]);
    i, v := (t - g.origin) / g.width, s[j];
    LiveFitsBucket(s, g, t);
    BucketHolds(g, t);
  }

  lemma StepsFit(events: seq<Event>, steps: seq<Interval>, workers: seq<Interval>, width: int,
    buckets: seq<Bucket>, peak: int)
    requires width > 0 && steps + workers != []
    requires BucketsOf(events, steps, workers, GridOf(steps + workers, width), buckets)
    requires Sequential(steps) && IsPeak(steps, peak) && peak > 0
    ensures exists i :: 0 <= i < |buckets| && peak <= |buckets[i].liveSteps|
  {
    var i, v := PeakFitsBucket(steps, GridOf(steps + workers, width), peak);
    GridCovers(steps + workers, width, v, i);
    assert buckets[i].liveSteps == LiveIn(steps,
      GridOf(steps + workers, width).Edge(i), GridOf(steps + workers, width).Edge(i + 1));
  }

  lemma WorkersFit(events: seq<Event>, steps: seq<Interval>, workers: seq<Interval>, width: int,
    buckets: seq<Bucket>, peak: int)
    requires width > 0 && steps + workers != []
    requires BucketsOf(events, steps, workers, GridOf(steps + workers, width), buckets)
    requires Sequential(workers) && IsPeak(workers, peak) && peak > 0
    ensures exists i :: 0 <= i < |buckets| && peak <= |buckets[i].liveWorkers|
  {
    var i, v := PeakFitsBucket(workers, GridOf(steps + workers, width), peak);
    GridCovers(steps + workers, width, v, i);
    assert buckets[i].liveWorkers == LiveIn(workers,
      GridOf(steps + workers, width).Edge(i), GridOf(steps + workers, width).Edge(i + 1));
  }

  /** The exact peaks never exceed what some single bucket shows: some bucket
      has at least that many live identities. */
  lemma PeaksFitBuckets(events: seq<Event>, width: int, stats: Stats)
    requires Orderable(events) && AnalysisOf(events, width, stats)
    ensures stats.maxSteps > 0 ==>
      exists i :: 0 <= i < |stats.buckets| && stats.maxSteps <= |stats.buckets[i].liveSteps|
    ensures stats.maxWorkers > 0 ==>
      exists i :: 0 <= i < |stats.buckets| && stats.maxWorkers <= |stats.buckets[i].liveWorkers|
  {
    if stats.maxSteps > 0 {
      LifetimesAreSequential(Steps, events);
      StepsFit(events, stats.steps, stats.workers, width, stats.buckets, stats.maxSteps);
    }
    if stats.maxWorkers > 0 {
      LifetimesAreSequential(Workers, events);
      WorkersFit(events, stats.steps, stats.workers, width, stats.buckets, stats.maxWorkers);
    }
  }

  /** One of the lifetimes of `k` overlaps stretch `i` of the grid. */
  ghost predicate SomeOverlap(s: seq<Interval>, k: Key, g: Grid, i: int) {
    exists v :: v in s && v.key == k && v.start < g.origin + (i + 1) * g.width && g.origin + i * g.width < v.end
  }

  /** Bucket `i`, or an empty one outside the grid. */
  function BucketAt(buckets: seq<Bucket>, i: int): Bucket {
    if 0 <= i < |buckets| then buckets[i] else Bucket(0, 0, {}, {}, 0)
  }

  /** An identity is shown live in a bucket exactly when one of its lifetimes
      overlaps that stretch of time: nothing outside the buckets is missed. */
  lemma BucketsShowOverlaps(events: seq<Event>, width: int, stats: Stats, k: Key, i: int)
    requires AnalysisOf(events, width, stats) && stats.steps + stats.workers != []
    ensures SomeOverlap(stats.steps, k, GridOf(stats.steps + stats.workers, width), i) <==>
      k in BucketAt(stats.buckets, i).liveSteps
    ensures SomeOverlap(stats.workers, k, GridOf(stats.steps + stats.workers, width), i) <==>
      k in BucketAt(stats.buckets, i).liveWorkers
  {
    ShownIn(stats.steps, stats.steps + stats.workers, width, k, i);
    ShownIn(stats.workers, stats.steps + stats.workers, width, k, i);
  }

  lemma ShownIn(s: seq<Interval>, all: seq<Interval>, width: int, k: Key, i: int)
    requires all != [] && width > 0 && forall v :: v in s ==> v in all
    ensures var g := GridOf(all, width);
      SomeOverlap(s, k, g, i) <==> 0 <= i < g.count && k in LiveIn(s, g.Edge(i), g.Edge(i + 1))
  {
    var g := GridOf(all, width);
    if v :| v in s && v.key == k && v.start < g.origin + (i + 1) * g.width && g.origin + i * g.width < v.end {
      GridCovers(all, width, v, i);
    }
  }

  function BucketCpu(b: Bucket): int {
    b.processCpu
  }

  lemma BucketCpuSums(g: Grid, workers: seq<seq<Sample>>, buckets: seq<Bucket>)
    requires g.Valid() && |buckets| == g.count
    requires forall i :: 0 <= i < g.count ==> buckets[i].processCpu == AllShares(g, workers, i)
    ensures Sum(Map(BucketCpu, buckets)) == AllClipped(g, workers)
  {
    TotalOfSeq(g, workers, Map(BucketCpu, buckets));
    CpuIsConserved(g, workers);
  }

  lemma BucketsOfConserve(events: seq<Event>, steps: seq<Interval>, workers: seq<Interval>, g: Grid,
    buckets: seq<Bucket>)
    requires g.Valid() && BucketsOf(events, steps, workers, g, buckets)
    ensures Sum(Map(BucketCpu, buckets)) == AllClipped(g, SampleLists(events))
  {
    BucketCpuSums(g, SampleLists(events), buckets);
  }

  /** The buckets hold exactly the CPU time the samples prove inside the grid. */
  lemma BucketsConserveCpu(events: seq<Event>, width: int, stats: Stats)
    requires AnalysisOf(events, width, stats) && stats.steps + stats.workers != []
    ensures var g := GridOf(stats.steps + stats.workers, width);
      Sum(Map(BucketCpu, stats.buckets)) == AllClipped(g, SampleLists(events))
  {
    var g := GridOf(stats.steps + stats.workers, width);
    BucketsOfConserve(events, stats.steps, stats.workers, g, stats.buckets);
  }

  // ---------------------------------------------------------------- whose CPU it is

  /** The record is reading `s` of worker `k`: a start, sample or end that carries
      the worker's identity, an instant and a CPU time. */
  predicate Carries(k: Key, s: Sample, e: Event) {
    && (e.kind == WorkerStart || e.kind == WorkerSample || e.kind == WorkerEnd)
    && k.WorkerKey? && e.step == Some(k.step) && e.worker == Some(k.worker) && e.pid == Some(k.pid)
    && e.ts == Some(s.at) && e.cpuNs == Some(s.cpu)
  }

  function ReadingOf(k: Key, s: Sample): Event -> bool {
    (e: Event) => Carries(k, s, e)
  }

  /** Readings by instant, and by CPU time within one instant. */
  ghost predicate Ascends(samples: seq<Sample>) {
    forall i, j :: 0 <= i < j < |samples| ==>
      samples[i].at < samples[j].at || (samples[i].at == samples[j].at && samples[i].cpu <= samples[j].cpu)
  }

  /** `samples` holds each reading of worker `k` as often as the log does. */
  ghost predicate HoldsReadings(events: seq<Event>, k: Key, samples: seq<Sample>) {
    forall s :: multiset(samples)[s] == Count(ReadingOf(k, s), events)
  }

  ghost predicate SomeReading(events: seq<Event>, k: Key) {
    exists s, i :: 0 <= i < |events| && Carries(k, s, events[i])
  }

  /** `lists` are the readings of the workers `keys`, one ascending list for each
      worker that has a reading. */
  ghost predicate ReadingsByWorker(events: seq<Event>, keys: seq<Key>, lists: seq<seq<Sample>>) {
    && |lists| == |keys|
    && (forall i, j :: 0 <= i < j < |keys| ==> keys[i] != keys[j])
    && (forall k :: k in keys <==> SomeReading(events, k))
    && (forall i :: 0 <= i < |lists| ==> Ascends(lists[i]) && HoldsReadings(events, keys[i], lists[i]))
  }

  lemma CarriesIs(k: Key, e: Event)
    ensures HasSample(e) && SampleKey(e) == k <==> exists s :: Carries(k, s, e)
    ensures HasSample(e) && SampleKey(e) == k ==>
      forall s :: Carries(k, s, e) <==> s == Sample(e.ts.value, e.cpuNs.value)
  {
    if HasSample(e) && SampleKey(e) == k {
      assert Carries(k, Sample(e.ts.value, e.cpuNs.value), e);
    }
  }

  lemma {:induction false} SamplesAreReadings(events: seq<Event>, k: Key, s: Sample)
    ensures multiset(SamplesOf(k, events))[s] == Count(ReadingOf(k, s), events)
  {
    if events != [] {
      SamplesAreReadings(Front(events), k, s);
      CarriesIs(k, Last(events));
    }
  }

  lemma SomeReadingSnoc(events: seq<Event>, k: Key)
    requires events != []
    ensures SomeReading(events, k) <==>
      SomeReading(Front(events), k) || (HasSample(Last(events)) && SampleKey(Last(events)) == k)
  {
    var f := Front(events);
    CarriesIs(k, Last(events));
    assert forall i :: 0 <= i < |f| ==> f[i] == events[i];
    if s, i :| 0 <= i < |f| && Carries(k, s, f[i]) {
      assert Carries(k, s, events[i]);
    }
    if s, i :| 0 <= i < |events| && Carries(k, s, events[i]) {
      assert i < |f| ==> Carries(k, s, f[i]);
    }
    if s :| Carries(k, s, Last(events)) {
      assert Carries(k, s, events[|f|]);
    }
  }

  lemma {:induction false} SeenAreWorkers(events: seq<Event>)
    ensures NoDuplicates(WorkersSeen(events))
    ensures forall k :: k in WorkersSeen(events) <==> SomeReading(events, k)
  {
    if events != [] {
      SeenAreWorkers(Front(events));
      forall k ensures k in WorkersSeen(events) <==> SomeReading(events, k) {
        SomeReadingSnoc(events, k);
      }
    }
  }

  lemma SampleOrderIsTotal()
    ensures TotalPreorder(SampleOrder)
  {
  }

  lemma ListHolds(events: seq<Event>, k: Key)
    ensures Ascends(Sort(SampleOrder, SamplesOf(k, events)))
    ensures HoldsReadings(events, k, Sort(SampleOrder, SamplesOf(k, events)))
  {
    SampleOrderIsTotal();
    SortOrdered(SampleOrder, SamplesOf(k, events));
    SortPermutes(SampleOrder, SamplesOf(k, events));
    forall s ensures multiset(Sort(SampleOrder, SamplesOf(k, events)))[s] == Count(ReadingOf(k, s), events) {
      SamplesAreReadings(events, k, s);
    }
  }

  /** The lists that are spread are the log's readings, worker by worker. */
  lemma SampleListsAreReadings(events: seq<Event>)
    ensures ReadingsByWorker(events, WorkersSeen(events), SampleLists(events))
  {
    var keys := WorkersSeen(events);
    SeenAreWorkers(events);
    forall i | 0 <= i < |keys|
      ensures Ascends(SampleLists(events)[i]) && HoldsReadings(events, keys[i], SampleLists(events)[i])
    {
      ListHolds(events, keys[i]);
    }
  }

  /** With every reading inside the grid, the buckets hold exactly the CPU time of
      the accepted pairs of each worker's consecutive readings. */
  lemma BucketsHoldAcceptedCpu(events: seq<Event>, width: int, stats: Stats)
    returns (keys: seq<Key>, lists: seq<seq<Sample>>)
    requires AnalysisOf(events, width, stats) && stats.steps + stats.workers != []
    requires forall k, s, i :: 0 <= i < |events| && Carries(k, s, events[i]) ==>
      InsideGrid(GridOf(stats.steps + stats.workers, width), s)
    ensures ReadingsByWorker(events, keys, lists)
    ensures Sum(Map(BucketCpu, stats.buckets)) == AllAccepted(lists)
  {
    var g := GridOf(stats.steps + stats.workers, width);
    keys, lists := WorkersSeen(events), SampleLists(events);
    SampleListsAreReadings(events);
    forall i | 0 <= i < |lists| ensures Inside(g, lists[i]) {
      ListInside(events, keys[i], lists[i], g);
    }
    BucketsConserveCpu(events, width, stats);
    CpuIsConserved(g, lists);
    PairsAreConserved(g, lists);
  }

  predicate InsideGrid(g: Grid, s: Sample) {
    g.origin <= s.at <= g.Edge(g.count)
  }

  lemma ListInside(events: seq<Event>, k: Key, samples: seq<Sample>, g: Grid)
    requires HoldsReadings(events, k, samples)
    requires forall s, i :: 0 <= i < |events| && Carries(k, s, events[i]) ==> InsideGrid(g, s)
    ensures Inside(g, samples)
  {
    forall i | 0 <= i < |samples| ensures InsideGrid(g, samples[i]) {
      var s := samples[i];
      assert s in multiset(samples);
      CountPositive(ReadingOf(k, s), events);
      var j :| 0 <= j < |events| && ReadingOf(k, s)(events[j]);
      assert Carries(k, s, events[j]);
    }
  }
}
