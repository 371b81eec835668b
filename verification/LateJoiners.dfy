/** Why no process may join the barrier late: if some process expects fewer
    participants than there are, some run lets another in after the epoch, and
    the analyser then sees steps that do not overlap. */
module LateJoiners {
  import opened Sequences
  import opened Sorting
  import opened Events
  import opened Lifetimes
  import opened LifetimeLaws
  import opened LiveSets
  import opened Sweep
  import opened Guest
  import opened BarrierLaws
  import opened GuestLaws
  import opened GuestFootprint

  /** What the command line accepts, with durations of at least a nanosecond. */
  ghost predicate WellFormed(setup: Setup) {
    forall p :: p in setup ==> setup[p].participants >= 1 && setup[p].timeout >= 1 && RealWork(setup[p])
  }

  lemma Extend(setup: Setup, s: State, a: Action)
    requires Reachable(setup, s) && Enabled(setup, s, a)
    ensures Reachable(setup, Do(setup, s, a))
  {
    var clock, actions :| Play(setup, clock, actions) == Some(s);
    assert Front(actions + [a]) == actions;
    assert Play(setup, clock, actions + [a]) == Some(Do(setup, s, a));
  }

  // ---------------------------------------------------------------- arriving

  /** One process logs its start and appends its identity. */
  lemma Arrive(setup: Setup, s: State, p: int) returns (s': State)
    requires Reachable(setup, s) && p in setup && p in s.phase && s.phase[p].Idle?
    ensures Reachable(setup, s') && s'.phase == s.phase[p := Arrived]
    ensures s'.ready == s.ready + [Arrival(setup[p].step, p, s.clock)]
    ensures s'.clock == s.clock && s'.lock == s.lock && s'.release == s.release && s'.temps == s.temps
    ensures s'.began == s.began[p := s.clock] && s'.ended == s.ended
  {
    Extend(setup, s, Advance(p));
    var s1 := Do(setup, s, Advance(p));
    Extend(setup, s1, Advance(p));
    var s2 := Do(setup, s1, Advance(p));
    Extend(setup, s2, Advance(p));
    s' := Do(setup, s2, Advance(p));
  }

  lemma {:induction false} ArriveAll(setup: Setup, s: State, group: set<int>) returns (s': State)
    requires Reachable(setup, s) && group <= setup.Keys && s.phase.Keys == setup.Keys
    requires forall p :: p in group ==> s.phase[p].Idle?
    ensures Reachable(setup, s') && s'.phase.Keys == setup.Keys
    ensures forall p :: p in setup ==> s'.phase[p] == if p in group then Arrived else s.phase[p]
    ensures s.ready <= s'.ready
    ensures forall p :: p in group ==> (setup[p].step, p) in Identities(s'.ready)
    ensures s'.clock == s.clock && s'.lock == s.lock && s'.release == s.release && s'.temps == s.temps
    decreases |group|
  {
    if group != {} {
      var p := Pick(group);
      var s1 := ArriveAll(setup, s, group - {p});
      s' := Arrive(setup, s1, p);
      forall q | q in group ensures (setup[q].step, q) in Identities(s'.ready) {
        if q == p {
          assert Last(s'.ready) in s'.ready;
        } else {
          var a :| a in s1.ready && (a.step, a.pid) == (setup[q].step, q);
          assert a in s'.ready;
        }
      }
    } else {
      s' := s;
    }
  }

  lemma GroupIdentities(setup: Setup, group: set<int>, ready: seq<Arrival>)
    requires group <= setup.Keys
    requires forall p :: p in group ==> (setup[p].step, p) in Identities(ready)
    ensures |Identities(ready)| >= |group|
  {
    var pid := (i: (string, int)) => i.1;
    var ids := Identities(ready);
    assert group <= Image(pid, ids) by {
      forall p | p in group ensures p in Image(pid, ids) {
        assert pid((setup[p].step, p)) == p;
      }
    }
    Subset(group, Image(pid, ids));
    ImageSize(pid, ids);
  }

  // ---------------------------------------------------------------- publishing

  /** `p` took a step that changed only where it stands. */
  lemma StepTo(setup: Setup, s: State, p: int, f: Phase)
    requires Reachable(setup, s) && Enabled(setup, s, Advance(p))
    requires Main(setup[p], s, p) == Move(s, p, f)
    ensures Reachable(setup, Move(s, p, f))
  {
    Extend(setup, s, Advance(p));
  }

  lemma MoveTwice(s: State, p: int, f: Phase, g: Phase)
    ensures Move(Move(s, p, f), p, g) == Move(s, p, g)
  {
    assert s.phase[p := f][p := g] == s.phase[p := g];
  }

  /** The first look at the clock, with time left. */
  lemma StartPolling(setup: Setup, s: State, p: int)
    requires Reachable(setup, s) && p in setup && p in s.phase && s.phase[p].Arrived? && setup[p].timeout >= 1
    ensures Reachable(setup, Move(s, p, Polling(s.clock + setup[p].timeout)))
  {
    StepTo(setup, s, p, Polling(s.clock + setup[p].timeout));
  }

  lemma StartChecking(setup: Setup, s: State, p: int)
    requires Reachable(setup, s) && p in setup && p in s.phase && s.phase[p].Polling?
    requires s.clock < s.phase[p].deadline
    ensures Reachable(setup, Move(s, p, Checking(s.phase[p].deadline)))
  {
    StepTo(setup, s, p, Checking(s.phase[p].deadline));
  }

  /** An early look finds no release file. */
  lemma LookEarly(setup: Setup, s: State, p: int)
    requires Reachable(setup, s) && p in setup && p in s.phase && s.phase[p].Polling?
    requires s.clock < s.phase[p].deadline && s.release.None?
    ensures Reachable(setup, Move(s, p, Unreleased(s.phase[p].deadline)))
  {
    var d := s.phase[p].deadline;
    StartChecking(setup, s, p);
    StepTo(setup, Move(s, p, Checking(d)), p, Unreleased(d));
    MoveTwice(s, p, Checking(d), Unreleased(d));
  }

  /** A later look finds it. */
  lemma LookLate(setup: Setup, s: State, p: int)
    requires Reachable(setup, s) && p in setup && p in s.phase && s.phase[p].Polling?
    requires s.clock < s.phase[p].deadline && s.release.Some?
    ensures Reachable(setup, Move(s, p, Released(s.release.value, 0)))
  {
    var d, f := s.phase[p].deadline, Released(s.release.value, 0);
    StartChecking(setup, s, p);
    StepTo(setup, Move(s, p, Checking(d)), p, f);
    MoveTwice(s, p, Checking(d), f);
  }

  /** With the lock free, a process that has seen enough identities publishes. */
  lemma PublishStamped(setup: Setup, s: State, w: int) returns (s': State)
    requires Reachable(setup, s) && w in setup && w in s.phase && s.phase[w].Stamped?
    requires s.lock.None? && w !in s.temps
    ensures Reachable(setup, s') && s'.release == Some(s.phase[w].epoch)
    ensures s'.phase == s.phase[w := Polling(s.phase[w].deadline)] && s'.clock == s.clock
  {
    var a, d, n, e := Advance(w), s.phase[w].deadline, s.phase[w].seen, s.phase[w].epoch;
    Extend(setup, s, a);
    var s1 := Do(setup, s, a);
    assert s1 == Move(s, w, Holding(d, n, e)).(lock := Some(w));
    Extend(setup, s1, a);
    var s2 := Do(setup, s1, a);
    assert s2 == Move(s1, w, Written(d, n, e)).(temps := s.temps[w := e]);
    Extend(setup, s2, a);
    s' := Do(setup, s2, a);
    assert s' == Rename(s2, w);
  }

  lemma PublishReady(setup: Setup, s: State, w: int) returns (s': State)
    requires Reachable(setup, s) && w in setup && w in s.phase && s.phase[w].Unreleased?
    requires s.lock.None? && w !in s.temps
    requires |Identities(s.ready)| >= setup[w].participants
    ensures Reachable(setup, s') && s'.release == Some(s.clock + setup[w].delay)
    ensures s'.phase == s.phase[w := Polling(s.phase[w].deadline)] && s'.clock == s.clock
  {
    var d, n, e := s.phase[w].deadline, |s.ready|, s.clock + setup[w].delay;
    StepTo(setup, s, w, Ready(d, n));
    var s1 := Move(s, w, Ready(d, n));
    StepTo(setup, s1, w, Stamped(d, n, e));
    s' := PublishStamped(setup, Move(s1, w, Stamped(d, n, e)), w);
    assert s'.phase == s.phase[w := Polling(d)];
  }

  /** An arrived process that finds enough identities publishes and gets its epoch. */
  lemma PublishAndReturn(setup: Setup, s: State, w: int) returns (s': State)
    requires Reachable(setup, s) && w in setup && w in s.phase && s.phase[w].Arrived? && setup[w].timeout >= 1
    requires s.lock.None? && s.release.None? && w !in s.temps
    requires |Identities(s.ready)| >= setup[w].participants
    ensures Reachable(setup, s') && s'.release.Some?
    ensures s'.phase == s.phase[w := Released(s'.release.value, 0)]
  {
    var d := s.clock + setup[w].timeout;
    StartPolling(setup, s, w);
    var s1 := Move(s, w, Polling(d));
    LookEarly(setup, s1, w);
    var s2 := PublishReady(setup, Move(s1, w, Unreleased(d)), w);
    LookLate(setup, s2, w);
    s' := Move(s2, w, Released(s2.release.value, 0));
    assert s'.phase == s.phase[w := Released(s'.release.value, 0)];
  }

  // ---------------------------------------------------------------- workers run to their end

  /** Only workers, the log and the clock moved. */
  ghost predicate Steady(s: State, s': State) {
    && s'.phase == s.phase && s'.began == s.began && s'.ended == s.ended && s'.release == s.release
    && s.clock <= s'.clock
  }

  lemma WorkOnce(setup: Setup, s: State, p: int, j: nat) returns (s': State)
    requires Reachable(setup, s) && Enabled(setup, s, WorkerAdvance(p, j))
    ensures Reachable(setup, s') && Steady(s, s') && s'.clock == s.clock
    ensures s'.workers == s.workers[(p, j) := NextWorkerPhase(setup[p], s.clock, s.workers[(p, j)])]
  {
    Extend(setup, s, WorkerAdvance(p, j));
    s' := Do(setup, s, WorkerAdvance(p, j));
  }

  lemma Wait(setup: Setup, s: State, ns: nat) returns (s': State)
    requires Reachable(setup, s)
    ensures Reachable(setup, s') && Steady(s, s') && s'.clock == s.clock + ns && s'.workers == s.workers
  {
    Extend(setup, s, Tick(ns));
    s' := Do(setup, s, Tick(ns));
  }

  /** A waiting worker whose epoch has come starts. */
  lemma StartWorker(setup: Setup, s: State, p: int, j: nat) returns (s': State)
    requires Reachable(setup, s) && p in setup && (p, j) in s.workers
    requires s.workers[(p, j)].Waiting? && s.workers[(p, j)].epoch <= s.clock
    ensures Reachable(setup, s') && Steady(s, s') && s'.clock == s.clock
    ensures s'.workers == s.workers[(p, j) := Running(s.clock + setup[p].duration)]
  {
    var s1 := WorkOnce(setup, s, p, j);
    var s2 := WorkOnce(setup, s1, p, j);
    s' := WorkOnce(setup, s2, p, j);
  }

  lemma RunWorker(setup: Setup, s: State, p: int, j: nat) returns (s': State)
    requires Reachable(setup, s) && p in setup && (p, j) in s.workers
    requires s.workers[(p, j)].Waiting? && s.workers[(p, j)].epoch <= s.clock
    ensures Reachable(setup, s') && Steady(s, s') && s'.clock == s.clock + setup[p].duration
    ensures s'.workers == s.workers[(p, j) := Exited(0)]
  {
    var s1 := StartWorker(setup, s, p, j);
    var s2 := Wait(setup, s1, setup[p].duration);
    var s3 := WorkOnce(setup, s2, p, j);
    s' := WorkOnce(setup, s3, p, j);
  }

  /** Workers `k` to `n` of `p` wait for an epoch that has come. */
  ghost predicate DueFrom(s: State, p: int, k: nat, n: nat) {
    forall j: nat :: k <= j < n ==>
      (p, j) in s.workers && s.workers[(p, j)].Waiting? && s.workers[(p, j)].epoch <= s.clock
  }

  ghost predicate FinishedTo(s: State, p: int, k: nat) {
    forall j: nat :: j < k ==> (p, j) in s.workers && s.workers[(p, j)] == Exited(0)
  }

  lemma {:induction false} RunWorkers(setup: Setup, s: State, p: int, k: nat, n: nat) returns (s': State)
    requires Reachable(setup, s) && p in setup && k <= n && DueFrom(s, p, 0, n)
    ensures Reachable(setup, s') && Steady(s, s') && FinishedTo(s', p, k) && DueFrom(s', p, k, n)
    ensures k >= 1 ==> s.clock + setup[p].duration <= s'.clock
  {
    if k == 0 {
      s' := s;
    } else {
      var s1 := RunWorkers(setup, s, p, k - 1, n);
      s' := RunWorker(setup, s1, p, k - 1);
    }
  }

  /** `p` forks its next `k` workers. */
  lemma {:induction false} ForkMany(setup: Setup, s: State, p: int, k: nat) returns (s': State)
    requires Reachable(setup, s) && p in setup && p in s.phase && s.phase[p].Released? && s.phase[p].forked == 0
    requires k <= setup[p].workers
    ensures Reachable(setup, s') && s'.phase == s.phase[p := Released(s.phase[p].epoch, k)]
    ensures s'.began == s.began && s'.ended == s.ended && s'.release == s.release && s'.clock == s.clock
    ensures forall j: nat :: j < k ==> (p, j) in s'.workers && s'.workers[(p, j)] == Waiting(s.phase[p].epoch)
  {
    if k == 0 {
      s' := s;
      assert s.phase[p := Released(s.phase[p].epoch, 0)] == s.phase;
    } else {
      var s1 := ForkMany(setup, s, p, k - 1);
      Extend(setup, s1, Advance(p));
      s' := Do(setup, s1, Advance(p));
      assert s' == Fork(setup[p], s1, p);
    }
  }

  /** The state in which `p`, released at `e`, has just logged its success. */
  function Ended(setup: Setup, s: State, p: int, e: nat): State
    requires p in setup
  {
    Move(s, p, Done(true, Some(e))).(
      log := s.log + [StepEvent(StepEnd, setup[p], p, s.clock)], ended := s.ended[p := s.clock])
  }

  lemma LogWell(setup: Setup, s: State, p: int, e: nat)
    requires Reachable(setup, s) && p in setup && p in s.phase && s.phase[p] == Ending(s.clock, true, Some(e))
    ensures Reachable(setup, Ended(setup, s, p, e))
  {
    Extend(setup, s, Advance(p));
    assert Main(setup[p], s, p) == LogEnd(setup[p], s, p);
  }

  /** A process whose workers have all succeeded logs its end. */
  lemma EndWell(setup: Setup, s: State, p: int, e: nat)
    requires Reachable(setup, s) && p in setup && p in s.phase && s.phase[p] == Reaping(e, setup[p].workers)
    requires FinishedTo(s, p, setup[p].workers)
    ensures Reachable(setup, Ended(setup, s, p, e))
  {
    var f := Ending(s.clock, true, Some(e));
    assert Main(setup[p], s, p) == Conclude(setup[p], s, p);
    StepTo(setup, s, p, f);
    LogWell(setup, Move(s, p, f), p, e);
    MoveTwice(s, p, f, Done(true, Some(e)));
  }

  /** From its release a process can run to a successful end. */
  lemma Finish(setup: Setup, s: State, p: int) returns (s': State)
    requires Reachable(setup, s) && p in setup && p in s.phase && s.phase[p].Released? && s.phase[p].forked == 0
    requires RealWork(setup[p])
    ensures Reachable(setup, s') && s'.phase == s.phase[p := Done(true, Some(s.phase[p].epoch))]
    ensures s'.began == s.began && s'.release == s.release
    ensures s'.ended == s.ended[p := s'.clock] && s.clock < s'.clock
  {
    var e, n := s.phase[p].epoch, setup[p].workers;
    var s1 := ForkMany(setup, s, p, n);
    StepTo(setup, s1, p, Reaping(e, n));
    var s2 := Wait(setup, Move(s1, p, Reaping(e, n)), e);
    var s3 := RunWorkers(setup, s2, p, n, n);
    EndWell(setup, s3, p, e);
    s' := Ended(setup, s3, p, e);
  }

  /** A process that has not started can still join, get the old epoch and succeed. */
  lemma JoinLate(setup: Setup, s: State, q: int) returns (s': State)
    requires Reachable(setup, s) && q in setup && q in s.phase && s.phase[q].Idle?
    requires setup[q].timeout >= 1 && RealWork(setup[q]) && s.release.Some?
    ensures Reachable(setup, s') && s'.phase == s.phase[q := Done(true, s.release)]
    ensures s'.began == s.began[q := s.clock] && s'.release == s.release
    ensures s'.ended == s.ended[q := s'.clock] && s.clock < s'.clock
  {
    var s1 := Arrive(setup, s, q);
    StartPolling(setup, s1, q);
    var s2 := Move(s1, q, Polling(s.clock + setup[q].timeout));
    LookLate(setup, s2, q);
    var s3 := Move(s2, q, Released(s.release.value, 0));
    s' := Finish(setup, s3, q);
    assert s'.phase == s.phase[q := Done(true, s.release)];
  }

  // ---------------------------------------------------------------- two steps that do not overlap

  /** `w` and `q` succeeded one after the other, the others never ended. */
  ghost predicate Apart(setup: Setup, s: State, w: int, q: int) {
    && w in setup && q in setup && w != q && s.phase.Keys == setup.Keys
    && s.phase[w].Done? && s.phase[w].ok && s.phase[q].Done? && s.phase[q].ok
    && (forall p :: p in setup && p != w && p != q ==> s.phase[p].Arrived?)
    && w in s.began && w in s.ended && q in s.began && q in s.ended
    && s.began[w] < s.ended[w] <= s.began[q] < s.ended[q]
  }

  lemma BeganBefore(setup: Setup, s: State, p: int)
    requires Reachable(setup, s) && p in setup && p in s.phase && s.phase[p].Released?
    ensures p in s.began && s.began[p] <= s.clock
  {
    ReachableInv(setup, s);
    assert GuestOk(setup[p], s, p);
  }

  /** All but `q` arrive, and `w`, which waits for no more, publishes. */
  lemma ReleaseWithout(setup: Setup, w: int, q: int) returns (s: State)
    requires WellFormed(setup) && w in setup && q in setup && w != q && setup[w].participants < |setup|
    ensures Reachable(setup, s) && s.release.Some? && s.phase.Keys == setup.Keys
    ensures s.phase[w] == Released(s.release.value, 0) && s.phase[q].Idle?
    ensures forall p :: p in setup && p != w && p != q ==> s.phase[p].Arrived?
  {
    var s0 := Initial(setup, 0);
    assert Play(setup, 0, []) == Some(s0);
    assert s0.phase.Keys == setup.Keys;
    var group := setup.Keys - {q};
    var s1 := ArriveAll(setup, s0, group);
    GroupIdentities(setup, group, s1.ready);
    s := PublishAndReturn(setup, s1, w);
  }

  lemma StepsApart(setup: Setup, w: int, q: int) returns (s: State)
    requires WellFormed(setup) && w in setup && q in setup && w != q && setup[w].participants < |setup|
    ensures Reachable(setup, s) && Apart(setup, s, w, q)
  {
    var s1 := ReleaseWithout(setup, w, q);
    BeganBefore(setup, s1, w);
    var s2 := Finish(setup, s1, w);
    s := JoinLate(setup, s2, q);
  }

  // ---------------------------------------------------------------- what the analyser makes of it

  lemma RunOne(side: Side, x: Event)
    requires Read(side, x).Edge? && Read(side, x).isStart
    ensures Matched(side, [x]).intervals == []
  {
    assert Front([x]) == [];
    assert Sort(ByTime, [x]) == [x];
    assert Run(side, [x]) == Accept(Run(side, []), Read(side, x));
  }

  lemma EndedLifetime(setup: Setup, s: State, p: int)
    requires p in setup && p in s.phase && s.phase[p].Done? && GuestOk(setup[p], s, p)
    requires s.began[p] < s.ended[p]
    ensures Matched(Steps, StepRecords(setup[p], s, p)).intervals ==
      [Interval(GuestKey(setup[p], p), s.began[p], s.ended[p])]
  {
    var c := setup[p];
    var x, y := StepEvent(StepStart, c, p, s.began[p]), StepEvent(StepEnd, c, p, s.ended[p]);
    PairMatches(Steps, GuestKey(c, p), x, y, s.began[p], s.ended[p]);
  }

  lemma OpenLifetime(setup: Setup, s: State, p: int)
    requires p in setup && p in s.phase && s.phase[p].Arrived? && GuestOk(setup[p], s, p)
    ensures Matched(Steps, StepRecords(setup[p], s, p)).intervals == []
  {
    RunOne(Steps, StepEvent(StepStart, setup[p], p, s.began[p]));
  }

  lemma FoundInTrace(k: Key, log: seq<Event>, v: Interval)
    requires v in Matched(Steps, log).intervals && v.key == k
    ensures v in Matched(Steps, Trace(Steps, k, log)).intervals
  {
    MatchedProjects(Steps, k, log);
    FilterMembers(IntervalOf(k), Matched(Steps, log).intervals);
  }

  lemma GuestOfInterval(setup: Setup, s: State, v: Interval) returns (p: int)
    requires GoodLog(setup, s) && v in Matched(Steps, s.log).intervals
    ensures p in setup && GuestKey(setup[p], p) == v.key
  {
    IntervalHasRecord(Steps, s.log, v);
    assert v.key in GuestKeys(setup, setup.Keys);
    p :| p in setup && GuestKey(setup[p], p) == v.key;
  }

  /** The only lifetimes are those of `w` and of `q`. */
  lemma OnlyTwo(setup: Setup, s: State, w: int, q: int, v: Interval)
    requires GuestInv(setup, s) && GoodLog(setup, s) && Apart(setup, s, w, q)
    requires v in Matched(Steps, s.log).intervals
    ensures exists p :: (p == w || p == q) && v == Interval(GuestKey(setup[p], p), s.began[p], s.ended[p])
  {
    var p := GuestOfInterval(setup, s, v);
    assert GuestOk(setup[p], s, p);
    FoundInTrace(v.key, s.log, v);
    if p == w || p == q {
      EndedLifetime(setup, s, p);
    } else {
      OpenLifetime(setup, s, p);
    }
  }

  lemma OneFound(setup: Setup, s: State, w: int, q: int)
    requires GuestInv(setup, s) && Apart(setup, s, w, q)
    ensures Interval(GuestKey(setup[w], w), s.began[w], s.ended[w]) in Matched(Steps, s.log).intervals
  {
    assert GuestOk(setup[w], s, w);
    var k := GuestKey(setup[w], w);
    var x, y := StepEvent(StepStart, setup[w], w, s.began[w]), StepEvent(StepEnd, setup[w], w, s.ended[w]);
    PairFound(k, x, y, s.began[w], s.ended[w], s.log);
  }

  lemma AtMostOne(setup: Setup, s: State, w: int, q: int, t: int)
    requires GuestInv(setup, s) && GoodLog(setup, s) && Apart(setup, s, w, q)
    requires Sequential(Matched(Steps, s.log).intervals)
    ensures Count(LiveAt(t), Matched(Steps, s.log).intervals) <= 1
  {
    var steps := Matched(Steps, s.log).intervals;
    LiveKeysDistinct(steps, t);
    var keys := set v | v in steps && v.start <= t < v.end :: v.key;
    var r := if t < s.ended[w] then w else q;
    forall k | k in keys ensures k == GuestKey(setup[r], r) {
      var v :| v in steps && v.start <= t < v.end && v.key == k;
      OnlyTwo(setup, s, w, q, v);
    }
    Subset(keys, {GuestKey(setup[r], r)});
  }

  /** Two steps that succeed one after the other are never seen together. */
  lemma ApartPeak(setup: Setup, s: State, w: int, q: int)
    requires Reachable(setup, s) && Apart(setup, s, w, q)
    ensures IsPeak(Matched(Steps, s.log).intervals, 1)
  {
    ReachableInv(setup, s);
    ReachableLog(setup, s);
    var steps := Matched(Steps, s.log).intervals;
    assert Orderable(s.log);
    LifetimesAreSequential(Steps, s.log);
    forall t ensures Count(LiveAt(t), steps) <= 1 {
      AtMostOne(setup, s, w, q, t);
    }
    OneFound(setup, s, w, q);
    var v := Interval(GuestKey(setup[w], w), s.began[w], s.ended[w]);
    var i :| 0 <= i < |steps| && steps[i] == v;
    assert LiveAt(v.start)(steps[i]);
    CountPositive(LiveAt(v.start), steps);
    assert Count(LiveAt(v.start), steps) == 1;
  }

  // ---------------------------------------------------------------- the exact condition

  /** Every group of steps that succeeded is reported as simultaneously live,
      however their records were interleaved. */
  ghost predicate OverlapSeen(setup: Setup, s: State) {
    forall group, log, peak ::
      Succeeded(setup, s, group) && Collects(setup, s, group, log) && IsPeak(Matched(Steps, log).intervals, peak) ==>
      |group| <= peak
  }

  lemma NoLateJoinerOverlaps(setup: Setup, s: State)
    requires WellFormed(setup) && NoLateJoiner(setup) && Reachable(setup, s)
    ensures OverlapSeen(setup, s)
  {
    ReachableInv(setup, s);
    forall group, log, peak | Succeeded(setup, s, group) && Collects(setup, s, group, log)
      && IsPeak(Matched(Steps, log).intervals, peak)
      ensures |group| <= peak
    {
      SucceededInTime(setup, s, group);
      PeakCoversGroup(setup, s, group, log, peak);
    }
  }

  lemma OtherProcess(setup: Setup, w: int) returns (q: int)
    requires w in setup && |setup| >= 2
    ensures q in setup && q != w
  {
    assert |setup.Keys - {w}| >= 1;
    q := Pick(setup.Keys - {w});
  }

  lemma ApartUnseen(setup: Setup, s: State, w: int, q: int)
    requires Reachable(setup, s) && Apart(setup, s, w, q)
    ensures !OverlapSeen(setup, s)
  {
    ApartPeak(setup, s, w, q);
    var group := {w, q};
    assert Succeeded(setup, s, group) && Collects(setup, s, group, s.log);
    assert |group| == 2;
  }

  /** Successful steps are seen to overlap, in every run, exactly when no process
      expects fewer participants than there are processes: otherwise some run
      has two steps released and successful whose reported peak is one. */
  lemma OverlapIff(setup: Setup)
    requires WellFormed(setup)
    ensures NoLateJoiner(setup) <==> forall s :: Reachable(setup, s) ==> OverlapSeen(setup, s)
  {
    if NoLateJoiner(setup) {
      forall s | Reachable(setup, s) ensures OverlapSeen(setup, s) {
        NoLateJoinerOverlaps(setup, s);
      }
    } else {
      var w :| w in setup && setup[w].participants < |setup|;
      var q := OtherProcess(setup, w);
      var s := StepsApart(setup, w, q);
      ApartUnseen(setup, s, w, q);
    }
  }

  /** Every process that has an epoch had begun by then. */
  ghost predicate EpochCoversAll(s: State) {
    forall p :: p in s.phase && Epoch(s.phase[p]).Some? ==>
      p in s.began && s.began[p] <= Epoch(s.phase[p]).value
  }

  lemma NoLateJoinerCovers(setup: Setup, s: State)
    requires NoLateJoiner(setup) && Reachable(setup, s)
    ensures EpochCoversAll(s)
  {
    ReachableInv(setup, s);
    forall p | p in s.phase && Epoch(s.phase[p]).Some?
      ensures p in s.began && s.began[p] <= Epoch(s.phase[p]).value
    {
      assert p in setup;
      assert ProcessOk(setup[p], s, p);
      EveryoneBegan(setup, s);
      assert BeganInTime(s, p);
    }
  }

  lemma ApartUncovered(setup: Setup, s: State, w: int, q: int)
    requires Reachable(setup, s) && Apart(setup, s, w, q) && RealWork(setup[w]) && RealWork(setup[q])
    ensures !EpochCoversAll(s)
  {
    ReachableInv(setup, s);
    EndsAfterRelease(setup, s, w);
    EndsAfterRelease(setup, s, q);
    assert ProcessOk(setup[q], s, q);
  }

  /** Nobody gets an epoch from before its own start, in any run, under the very
      same condition. */
  lemma EpochCoversAllIff(setup: Setup)
    requires WellFormed(setup)
    ensures NoLateJoiner(setup) <==> forall s :: Reachable(setup, s) ==> EpochCoversAll(s)
  {
    if NoLateJoiner(setup) {
      forall s | Reachable(setup, s) ensures EpochCoversAll(s) {
        NoLateJoinerCovers(setup, s);
      }
    } else {
      var w :| w in setup && setup[w].participants < |setup|;
      var q := OtherProcess(setup, w);
      var s := StepsApart(setup, w, q);
      ApartUncovered(setup, s, w, q);
    }
  }
}
