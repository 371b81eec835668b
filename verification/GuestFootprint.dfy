/** The guests' shared log, analysed: the barrier makes the steps overlap and the
    analyser reports it. */
module GuestFootprint {
  import opened Sequences
  import opened Sorting
  import opened Events
  import opened Lifetimes
  import opened LifetimeLaws
  import opened LiveSets
  import opened Sweep
  import opened Footprint
  import opened Guest
  import opened BarrierLaws
  import opened GuestLaws

  /** No process expects fewer participants than there are processes. */
  ghost predicate NoLateJoiner(setup: Setup) {
    forall p :: p in setup ==> |setup| <= setup[p].participants
  }

  /** Workers that run at all, for at least a nanosecond. */
  predicate RealWork(c: Config) {
    c.workers >= 1 && c.duration >= 1
  }

  /** The process had begun by the release epoch. */
  ghost predicate BeganInTime(s: State, p: int) {
    s.release.Some? && p in s.began && s.began[p] <= s.release.value
  }

  ghost function Image<A, B>(f: A -> B, S: set<A>): set<B> {
    set x | x in S :: f(x)
  }

  lemma {:induction false} ImageSize<A, B>(f: A -> B, S: set<A>)
    ensures |Image(f, S)| <= |S|
  {
    if S == {} {
      assert Image(f, S) == {};
    } else {
      var x :| x in S;
      ImageSize(f, S - {x});
      assert Image(f, S) == Image(f, S - {x}) + {f(x)};
    }
  }

  lemma Pick<T>(s: set<T>) returns (x: T)
    requires s != {}
    ensures x in s
  {
    x :| x in s;
  }

  lemma FullSubset<T>(a: set<T>, b: set<T>)
    requires a <= b && |b| <= |a|
    ensures a == b
  {
    assert b == a + (b - a);
    assert |b - a| == 0;
  }

  lemma AllArrived(setup: Setup, ready: seq<Arrival>)
    requires forall i :: 0 <= i < |ready| ==> ready[i].pid in setup && ready[i].step == setup[ready[i].pid].step
    requires |Identities(ready)| >= |setup|
    ensures forall p :: p in setup ==> exists i :: 0 <= i < |ready| && ready[i].pid == p
  {
    var pids := set a | a in ready :: a.pid;
    var name := p => (if p in setup then setup[p].step else "", p);
    assert Identities(ready) == Image(name, pids) by {
      forall a | a in ready ensures (a.step, a.pid) == name(a.pid) && a.pid in pids {
      }
    }
    ImageSize(name, pids);
    assert pids <= setup.Keys;
    FullSubset(pids, setup.Keys);
    forall p | p in setup ensures exists i :: 0 <= i < |ready| && ready[i].pid == p {
      assert p in pids;
      var a :| a in ready && a.pid == p;
      var i :| 0 <= i < |ready| && ready[i] == a;
    }
  }

  /** Once the release is published every process has begun, no later than the epoch. */
  lemma EveryoneBegan(setup: Setup, s: State)
    requires GuestInv(setup, s) && NoLateJoiner(setup) && s.release.Some?
    ensures forall p :: p in setup ==> BeganInTime(s, p)
  {
    var pub := s.published[0];
    var seen := s.ready[..pub.seen];
    forall i | 0 <= i < |seen| ensures seen[i].pid in setup && seen[i].step == setup[seen[i].pid].step {
      assert seen[i] == s.ready[i];
      assert GuestOk(setup[seen[i].pid], s, seen[i].pid);
    }
    AllArrived(setup, seen);
    forall p | p in setup ensures BeganInTime(s, p) {
      var i :| 0 <= i < |seen| && seen[i].pid == p;
      assert seen[i] == s.ready[i];
      assert GuestOk(setup[p], s, p);
    }
  }

  /** A step that succeeded ended after the release epoch, whoever else joined. */
  lemma EndsAfterRelease(setup: Setup, s: State, p: int)
    requires GuestInv(setup, s) && p in setup && RealWork(setup[p])
    requires s.phase[p].Done? && s.phase[p].ok
    ensures s.release.Some? && p in s.began && p in s.ended
    ensures s.release.value < s.ended[p]
  {
    assert GuestOk(setup[p], s, p);
    assert ProcessOk(setup[p], s, p);
  }

  // ---------------------------------------------------------------- what the analyser makes of it

  lemma SortPair(x: Event, y: Event)
    requires ByTime(x, y)
    ensures Sort(ByTime, [x, y]) == [x, y]
  {
    assert Front([x, y]) == [x] && Front([x]) == [];
    assert Sort(ByTime, [x]) == Insert(ByTime, Sort(ByTime, []), x);
    assert Sort(ByTime, [x]) == [x];
  }

  lemma RunPair(side: Side, x: Event, y: Event)
    ensures Run(side, [x, y]) == Accept(Accept(Matching(map[], [], []), Read(side, x)), Read(side, y))
  {
    assert Front([x, y]) == [x] && Front([x]) == [];
    assert Run(side, [x]) == Accept(Run(side, []), Read(side, x));
  }

  lemma PairMatches(side: Side, k: Key, x: Event, y: Event, a: int, b: int)
    requires Read(side, x) == Edge(k, true, a) && Read(side, y) == Edge(k, false, b) && 0 <= a <= b
    ensures Matched(side, [x, y]).intervals == [Interval(k, a, b)]
  {
    assert ByTime(x, y);
    SortPair(x, y);
    RunPair(side, x, y);
    calc {
      Matched(side, [x, y]).intervals;
      Run(side, [x, y]).intervals;
      Accept(Accept(Matching(map[], [], []), Edge(k, true, a)), Edge(k, false, b)).intervals;
    }
  }

  lemma PairFound(k: Key, x: Event, y: Event, a: int, b: int, log: seq<Event>)
    requires Read(Steps, x) == Edge(k, true, a) && Read(Steps, y) == Edge(k, false, b) && 0 <= a < b
    requires Trace(Steps, k, log) == [x, y]
    ensures Interval(k, a, b) in Matched(Steps, log).intervals
  {
    PairMatches(Steps, k, x, y, a, b);
    MatchedProjects(Steps, k, log);
    FilterMembers(IntervalOf(k), Matched(Steps, log).intervals);
    assert Interval(k, a, b) in Filter(IntervalOf(k), Matched(Steps, log).intervals);
  }

  /** The analysed log holds the step records of the processes in `group`, each
      process's in its own order, however they were interleaved or split up. */
  ghost predicate Collects(setup: Setup, s: State, group: set<int>, log: seq<Event>) {
    forall p :: p in group && p in setup ==> Trace(Steps, GuestKey(setup[p], p), log) == StepRecords(setup[p], s, p)
  }

  ghost predicate Succeeded(setup: Setup, s: State, group: set<int>) {
    && group <= setup.Keys
    && forall p :: p in group ==> p in setup && p in s.phase && s.phase[p].Done? && s.phase[p].ok
  }

  /** Steps that did some work and had begun by the release epoch. */
  ghost predicate ReleasedInTime(setup: Setup, s: State, group: set<int>) {
    forall p :: p in group ==> p in setup && RealWork(setup[p]) && BeganInTime(s, p)
  }

  lemma LiveAtRelease(setup: Setup, s: State, group: set<int>, log: seq<Event>, p: int)
    requires GuestInv(setup, s) && Succeeded(setup, s, group) && ReleasedInTime(setup, s, group)
    requires Collects(setup, s, group, log) && p in group
    ensures s.release.Some?
    ensures exists v ::
      v in Matched(Steps, log).intervals && v.key == GuestKey(setup[p], p) && v.start <= s.release.value < v.end
  {
    var c := setup[p];
    EndsAfterRelease(setup, s, p);
    assert GuestOk(c, s, p);
    assert BeganInTime(s, p);
    var x, y := StepEvent(StepStart, c, p, s.began[p]), StepEvent(StepEnd, c, p, s.ended[p]);
    PairFound(GuestKey(c, p), x, y, s.began[p], s.ended[p], log);
  }

  ghost function KeysLive(s: seq<Interval>, t: int): set<Key> {
    set v | v in s && v.start <= t < v.end :: v.key
  }

  lemma KeysBelowCount(s: seq<Interval>, t: int)
    ensures |KeysLive(s, t)| <= Count(LiveAt(t), s)
  {
    var live := Filter(LiveAt(t), s);
    FilterMembers(LiveAt(t), s);
    CountIsFilterLength(LiveAt(t), s);
    var members := set v | v in live;
    SetOfSeq(live);
    ImageSize(KeyOf, members);
    assert KeysLive(s, t) == Image(KeyOf, members) by {
      forall v | v in s && v.start <= t < v.end ensures v in members && KeyOf(v) == v.key {
        assert LiveAt(t)(v);
      }
    }
  }

  lemma {:induction false} SetOfSeq<T>(s: seq<T>)
    ensures |set x | x in s| <= |s|
  {
    if s == [] {
      assert (set x | x in s) == {};
    } else {
      SetOfSeq(Front(s));
      assert s == Front(s) + [Last(s)];
      assert (set x | x in s) == (set x | x in Front(s)) + {Last(s)};
    }
  }

  ghost function GuestKeys(setup: Setup, group: set<int>): set<Key> {
    set p | p in group && p in setup :: GuestKey(setup[p], p)
  }

  lemma GroupKeys(setup: Setup, group: set<int>)
    requires group <= setup.Keys
    ensures |GuestKeys(setup, group)| == |group|
  {
    var keys := GuestKeys(setup, group);
    var pid := (k: Key) => k.pid;
    assert group == Image(pid, keys) by {
      forall p | p in group ensures p in Image(pid, keys) {
        assert GuestKey(setup[p], p) in keys && pid(GuestKey(setup[p], p)) == p;
      }
    }
    ImageSize(pid, keys);
    var name := p => if p in setup then GuestKey(setup[p], p) else StepKey("", p);
    assert keys == Image(name, group);
    ImageSize(name, group);
  }

  lemma PeakCoversGroup(setup: Setup, s: State, group: set<int>, log: seq<Event>, peak: int)
    requires GuestInv(setup, s) && Succeeded(setup, s, group) && ReleasedInTime(setup, s, group)
    requires Collects(setup, s, group, log) && IsPeak(Matched(Steps, log).intervals, peak)
    ensures peak >= |group|
  {
    var steps := Matched(Steps, log).intervals;
    if group != {} {
      GroupLive(setup, s, group, log);
      var keys, live := GuestKeys(setup, group), KeysLive(steps, s.release.value);
      GroupKeys(setup, group);
      Subset(keys, live);
      KeysBelowCount(steps, s.release.value);
      assert Count(LiveAt(s.release.value), steps) <= peak;
    }
  }

  /** Every group of steps that had begun by the release epoch and succeeded is
      reported as simultaneously live: the peak is at least their number, however
      their log records were interleaved and whatever other processes did. */
  lemma ReleasedStepsOverlap(setup: Setup, s: State, group: set<int>, log: seq<Event>, width: int, stats: Stats)
    requires Reachable(setup, s) && Succeeded(setup, s, group) && ReleasedInTime(setup, s, group)
    requires Collects(setup, s, group, log) && AnalysisOf(log, width, stats)
    ensures stats.maxSteps >= |group|
  {
    ReachableInv(setup, s);
    PeakCoversGroup(setup, s, group, log, stats.maxSteps);
  }

  /** When nobody can join late, every step that succeeds was released in time. */
  lemma SucceededInTime(setup: Setup, s: State, group: set<int>)
    requires GuestInv(setup, s) && NoLateJoiner(setup) && Succeeded(setup, s, group)
    requires forall p :: p in group ==> RealWork(setup[p])
    ensures ReleasedInTime(setup, s, group)
  {
    forall p | p in group ensures p in setup && RealWork(setup[p]) && BeganInTime(s, p) {
      EndsAfterRelease(setup, s, p);
      EveryoneBegan(setup, s);
    }
  }

  /** So any group of k steps that get an epoch and succeed gives a peak of at
      least k when no process expects fewer participants than there are. */
  lemma SuccessfulStepsOverlap(setup: Setup, s: State, group: set<int>, log: seq<Event>, width: int, stats: Stats)
    requires Reachable(setup, s) && NoLateJoiner(setup) && Succeeded(setup, s, group)
    requires forall p :: p in group ==> RealWork(setup[p])
    requires Collects(setup, s, group, log) && AnalysisOf(log, width, stats)
    ensures stats.maxSteps >= |group|
  {
    ReachableInv(setup, s);
    SucceededInTime(setup, s, group);
    ReleasedStepsOverlap(setup, s, group, log, width, stats);
  }

  lemma GroupLive(setup: Setup, s: State, group: set<int>, log: seq<Event>)
    requires GuestInv(setup, s) && Succeeded(setup, s, group) && ReleasedInTime(setup, s, group)
    requires Collects(setup, s, group, log) && group != {}
    ensures s.release.Some? && group <= setup.Keys
    ensures GuestKeys(setup, group) <= KeysLive(Matched(Steps, log).intervals, s.release.value)
  {
    var p := Pick(group);
    LiveAtRelease(setup, s, group, log, p);
    forall k | k in GuestKeys(setup, group) ensures k in KeysLive(Matched(Steps, log).intervals, s.release.value) {
      var q :| q in group && q in setup && GuestKey(setup[q], q) == k;
      LiveAtRelease(setup, s, group, log, q);
    }
  }

  // ---------------------------------------------------------------- the exact peak

  ghost predicate GoodRecord(setup: Setup, e: Event) {
    && (e.ts.Some? ==> 0 <= e.ts.value)
    && (Read(Steps, e).Edge? ==> Read(Steps, e).key in GuestKeys(setup, setup.Keys))
  }

  ghost predicate GoodLog(setup: Setup, s: State) {
    forall e :: e in s.log ==> GoodRecord(setup, e)
  }

  lemma StepRecordIsGood(setup: Setup, kind: Kind, p: int, at: nat)
    requires p in setup
    ensures GoodRecord(setup, StepEvent(kind, setup[p], p, at))
  {
    assert GuestKey(setup[p], p) in GuestKeys(setup, setup.Keys);
  }

  lemma MainLogs(setup: Setup, s: State, p: int)
    requires GoodLog(setup, s) && Enabled(setup, s, Advance(p))
    ensures GoodLog(setup, Main(setup[p], s, p))
  {
    if s.phase[p].Starting? {
      StepRecordIsGood(setup, StepStart, p, s.phase[p].at);
    } else if s.phase[p].Ending? {
      StepRecordIsGood(setup, StepEnd, p, s.phase[p].at);
    } else {
      assert Main(setup[p], s, p).log == s.log;
    }
  }

  lemma ActionLogs(setup: Setup, s: State, a: Action)
    requires GoodLog(setup, s) && Enabled(setup, s, a)
    ensures GoodLog(setup, Do(setup, s, a))
  {
    if a.Advance? {
      MainLogs(setup, s, a.pid);
    }
  }

  lemma {:induction false} GoodLogAlways(setup: Setup, clock: nat, actions: seq<Action>)
    ensures Play(setup, clock, actions).Some? ==> GoodLog(setup, Play(setup, clock, actions).value)
  {
    if actions != [] {
      GoodLogAlways(setup, clock, Front(actions));
      var r := Play(setup, clock, Front(actions));
      if r.Some? && Enabled(setup, r.value, Last(actions)) {
        ActionLogs(setup, r.value, Last(actions));
      }
    }
  }

  lemma ReachableLog(setup: Setup, s: State)
    requires Reachable(setup, s)
    ensures GoodLog(setup, s)
  {
    var clock, actions :| Play(setup, clock, actions) == Some(s);
    GoodLogAlways(setup, clock, actions);
  }

  lemma IntervalHasRecord(side: Side, events: seq<Event>, v: Interval)
    requires v in Matched(side, events).intervals
    ensures exists e :: e in events && Read(side, e).Edge? && Read(side, e).key == v.key
  {
    MatchedProjects(side, v.key, events);
    FilterMembers(IntervalOf(v.key), Matched(side, events).intervals);
    FilterMembers(OfKey(side, v.key), events);
    assert IntervalOf(v.key)(v);
    var trace := Trace(side, v.key, events);
    assert trace != [];
    assert trace[0] in trace;
  }

  /** When every process begins by the release epoch and succeeds, the analyser
      reports exactly their number as the peak of simultaneously live steps. */
  lemma AllStepsOverlapExactly(setup: Setup, s: State, log: seq<Event>, width: int, stats: Stats)
    requires Reachable(setup, s) && ReleasedInTime(setup, s, setup.Keys)
    requires Succeeded(setup, s, setup.Keys) && Collects(setup, s, setup.Keys, log)
    requires forall e :: e in log ==> e in s.log
    requires AnalysisOf(log, width, stats)
    ensures stats.maxSteps == |setup|
  {
    ReleasedStepsOverlap(setup, s, setup.Keys, log, width, stats);
    ReachableLog(setup, s);
    assert Orderable(log);
    LifetimesAreSequential(Steps, log);
    var t :| Count(LiveAt(t), stats.steps) == stats.maxSteps;
    LiveKeysDistinct(stats.steps, t);
    var keys := set v | v in stats.steps && v.start <= t < v.end :: v.key;
    forall k | k in keys ensures k in GuestKeys(setup, setup.Keys) {
      var v :| v in stats.steps && v.start <= t < v.end && v.key == k;
      IntervalHasRecord(Steps, log, v);
    }
    Subset(keys, GuestKeys(setup, setup.Keys));
    GroupKeys(setup, setup.Keys);
  }
}
