/** What each guest's log says about its lifetime, in every interleaving. */
module GuestLaws {
  import opened Sequences
  import opened Events
  import opened Guest
  import opened BarrierLaws

  function GuestKey(c: Config, p: int): Key {
    StepKey(c.step, p)
  }

  /** The step records process `p` has written so far. */
  function StepRecords(c: Config, s: State, p: int): seq<Event> {
    Trace(Steps, GuestKey(c, p), s.log)
  }

  // ---------------------------------------------------------------- the invariant

  ghost predicate LogOk(c: Config, s: State, p: int)
    requires p in s.phase
  {
    var f := s.phase[p];
    && (f.Idle? ==> StepRecords(c, s, p) == [])
    && (!f.Idle? && !f.Crashed? ==> p in s.began && s.began[p] <= s.clock)
    && (f.Starting? ==> StepRecords(c, s, p) == [] && f.at == s.began[p])
    && (!f.Idle? && !f.Crashed? && !f.Starting? && !f.Done? ==>
        StepRecords(c, s, p) == [StepEvent(StepStart, c, p, s.began[p])])
    && (f.Done? ==> p in s.ended)
    && (f.Done? ==>
        StepRecords(c, s, p) == [StepEvent(StepStart, c, p, s.began[p]), StepEvent(StepEnd, c, p, s.ended[p])])
  }

  ghost predicate ArrivalOk(c: Config, s: State, p: int)
    requires p in s.phase
  {
    && (s.phase[p].Idle? || s.phase[p].Starting? || s.phase[p].Started? ==>
        forall i :: 0 <= i < |s.ready| ==> s.ready[i].pid != p)
    && (forall i :: 0 <= i < |s.ready| && s.ready[i].pid == p ==>
        s.ready[i].step == c.step && p in s.began && s.began[p] <= s.ready[i].at)
  }

  ghost predicate ForkedOk(s: State, p: int, n: nat) {
    forall j: nat :: j < n ==> (p, j) in s.workers
  }

  ghost predicate OutcomeOk(c: Config, s: State, p: int)
    requires p in s.phase
  {
    var f := s.phase[p];
    && (f.Released? || f.Reaping? ==> ForkedOk(s, p, f.forked))
    && (f.Ending? && f.ok ==> f.result.Some? && (c.workers >= 1 ==> f.at >= f.result.value + c.duration))
    && (f.Done? && f.ok ==>
        f.result.Some? && p in s.ended && (c.workers >= 1 ==> s.ended[p] >= f.result.value + c.duration))
  }

  ghost predicate GuestOk(c: Config, s: State, p: int)
    requires p in s.phase
  {
    LogOk(c, s, p) && ArrivalOk(c, s, p) && OutcomeOk(c, s, p)
  }

  /** A worker starts no earlier than the release and runs for its duration. */
  ghost predicate WorkerOk(c: Config, s: State, w: WorkerPhase) {
    match w
    case Waiting(e) => s.release == Some(e)
    case WorkerStarting(_) => s.release.Some? && s.release.value <= s.clock
    case WorkerStarted => s.release.Some? && s.release.value <= s.clock
    case Running(d) => s.release.Some? && s.release.value + c.duration <= d
    case WorkerEnding(_) => s.release.Some? && s.release.value + c.duration <= s.clock
    case Exited(code) => code == 0 ==> s.release.Some? && s.release.value + c.duration <= s.clock
  }

  ghost predicate WorkersOk(setup: Setup, s: State) {
    forall k :: k in s.workers ==> k.0 in setup && WorkerOk(setup[k.0], s, s.workers[k])
  }

  ghost predicate GuestInv(setup: Setup, s: State) {
    && Inv(setup, s) && WorkersOk(setup, s)
    && (forall p :: p in setup ==> GuestOk(setup[p], s, p))
    && (forall i :: 0 <= i < |s.ready| ==> s.ready[i].pid in setup)
  }

  // ---------------------------------------------------------------- other processes' steps

  ghost predicate Quiet(c: Config, s: State, s': State, q: int) {
    && q in s.phase && q in s'.phase && s'.phase[q] == s.phase[q]
    && s.clock <= s'.clock
    && (q in s.began <==> q in s'.began) && (q in s.began ==> s'.began[q] == s.began[q])
    && (q in s.ended <==> q in s'.ended) && (q in s.ended ==> s'.ended[q] == s.ended[q])
    && StepRecords(c, s', q) == StepRecords(c, s, q)
    && s.ready <= s'.ready
    && (forall i :: |s.ready| <= i < |s'.ready| ==> s'.ready[i].pid != q)
    && WorkersStay(s, s', q)
  }

  /** `q` has the workers it had, and those that have exited do not change. */
  ghost predicate WorkersStay(s: State, s': State, q: int) {
    && (forall j :: (q, j) in s.workers <==> (q, j) in s'.workers)
    && (forall j :: (q, j) in s.workers && s.workers[(q, j)].Exited? ==> s'.workers[(q, j)] == s.workers[(q, j)])
  }

  lemma QuietStable(c: Config, s: State, s': State, q: int)
    requires Quiet(c, s, s', q) && GuestOk(c, s, q)
    ensures GuestOk(c, s', q)
  {
    forall i | 0 <= i < |s'.ready| && s'.ready[i].pid == q ensures i < |s.ready| && s'.ready[i] == s.ready[i] {
    }
  }

  lemma WriteOther(c: Config, s: seq<Event>, q: int, e: Event)
    requires !OfKey(Steps, GuestKey(c, q))(e)
    ensures Trace(Steps, GuestKey(c, q), s + [e]) == Trace(Steps, GuestKey(c, q), s)
  {
    FilterSnoc(OfKey(Steps, GuestKey(c, q)), s, e);
  }

  lemma WriteOwn(c: Config, s: seq<Event>, q: int, e: Event)
    requires OfKey(Steps, GuestKey(c, q))(e)
    ensures Trace(Steps, GuestKey(c, q), s + [e]) == Trace(Steps, GuestKey(c, q), s) + [e]
  {
    FilterSnoc(OfKey(Steps, GuestKey(c, q)), s, e);
  }

  lemma AnnounceQuiet(c: Config, c': Config, s: State, p: int, q: int)
    requires p in s.phase && q in s.phase && q != p && Announcing(s.phase[p])
    ensures Quiet(c', s, Announce(c, s, p), q)
  {
    if s.phase[p].Starting? {
      WriteOther(c', s.log, q, StepEvent(StepStart, c, p, s.phase[p].at));
    }
  }

  /** Steps of `p` that touch no log, no barrier line and no history. */
  ghost predicate Silent(s: State, s': State, p: int) {
    && s'.phase.Keys == s.phase.Keys
    && (forall q :: q in s.phase && q != p ==> s'.phase[q] == s.phase[q])
    && s.clock <= s'.clock && s'.ready == s.ready && s'.log == s.log
    && s'.began == s.began && s'.ended == s.ended
    && (forall k: (int, nat) :: k.0 != p ==> (k in s.workers <==> k in s'.workers))
    && (forall k :: k in s.workers && k.0 != p ==> s'.workers[k] == s.workers[k])
  }

  lemma SilentQuiet(c: Config, s: State, s': State, p: int, q: int)
    requires Silent(s, s', p) && q in s.phase && q != p
    ensures Quiet(c, s, s', q)
  {
  }

  lemma LockSilent(s: State, p: int)
    requires p in s.phase && s.phase[p].Stamped?
    ensures Silent(s, TakeLock(s, p), p) && TakeLock(s, p).workers == s.workers
  {
    assert TakeLock(s, p).phase.Keys == s.phase.Keys;
  }

  lemma WriteSilent(s: State, p: int)
    requires p in s.phase && s.phase[p].Holding?
    ensures Silent(s, WriteTemporary(s, p), p) && WriteTemporary(s, p).workers == s.workers
  {
    assert WriteTemporary(s, p).phase.Keys == s.phase.Keys;
  }

  lemma RenameSilent(s: State, p: int)
    requires p in s.phase && s.phase[p].Written?
    ensures Silent(s, Rename(s, p), p) && Rename(s, p).workers == s.workers
  {
    assert Rename(s, p).phase.Keys == s.phase.Keys;
  }

  lemma PublishSilent(c: Config, s: State, p: int)
    requires p in s.phase && Publishing(s.phase[p])
    ensures Silent(s, Publish(c, s, p), p) && Publish(c, s, p).workers == s.workers
  {
    if s.phase[p].Ready? {
      assert Stamp(c, s, p).phase.Keys == s.phase.Keys;
    } else if s.phase[p].Stamped? {
      LockSilent(s, p);
    } else if s.phase[p].Holding? {
      WriteSilent(s, p);
    } else {
      RenameSilent(s, p);
    }
  }

  lemma LogEndQuiet(c: Config, c': Config, s: State, p: int, q: int)
    requires p in s.phase && q in s.phase && q != p && s.phase[p].Ending?
    ensures Quiet(c', s, LogEnd(c, s, p), q)
  {
    WriteOther(c', s.log, q, StepEvent(StepEnd, c, p, s.phase[p].at));
  }

  lemma MainSilent(c: Config, s: State, p: int)
    requires p in s.phase && (s.phase[p].Reaping? ==> AllExited(s, p, s.phase[p].forked))
    requires !Announcing(s.phase[p]) && !s.phase[p].Ending?
    ensures Silent(s, Main(c, s, p), p)
  {
    if Publishing(s.phase[p]) {
      PublishSilent(c, s, p);
    } else {
      MainPrivate(c, s, p);
    }
  }

  lemma MainQuiet(c: Config, c': Config, s: State, p: int, q: int)
    requires p in s.phase && (s.phase[p].Reaping? ==> AllExited(s, p, s.phase[p].forked))
    requires q in s.phase && q != p
    ensures Quiet(c', s, Main(c, s, p), q)
  {
    if Announcing(s.phase[p]) {
      AnnounceQuiet(c, c', s, p, q);
    } else if s.phase[p].Ending? {
      LogEndQuiet(c, c', s, p, q);
    } else {
      MainSilent(c, s, p);
      SilentQuiet(c', s, Main(c, s, p), p, q);
    }
  }

  lemma WorkQuiet(c: Config, c': Config, s: State, p: int, j: nat, q: int)
    requires (p, j) in s.workers && q in s.phase
    ensures Quiet(c', s, Work(c, s, p, j), q)
  {
    var f := s.workers[(p, j)];
    if f.WorkerStarting? {
      WriteOther(c', s.log, q, WorkerEvent(WorkerStart, c, j, f.at));
    } else if f.WorkerEnding? {
      WriteOther(c', s.log, q, WorkerEvent(WorkerEnd, c, j, f.at));
    } else {
      assert s.log + WorkerLog(c, j, f) == s.log;
    }
  }

  lemma ActionQuiet(setup: Setup, s: State, a: Action, q: int)
    requires Enabled(setup, s, a) && q in setup && q in s.phase
    requires IsMain(a) ==> a.pid != q
    ensures Quiet(setup[q], s, Do(setup, s, a), q)
  {
    match a
    case Tick(_) =>
    case Note(e) => WriteOther(setup[q], s.log, q, e);
    case Advance(p) => MainQuiet(setup[p], setup[q], s, p, q);
    case WorkerAdvance(p, j) => WorkQuiet(setup[p], setup[q], s, p, j, q);
    case WorkerFail(_, _, _) =>
    case _ =>
  }

  // ---------------------------------------------------------------- a process's own steps

  lemma AnnounceGuest(c: Config, s: State, p: int)
    requires p in s.phase && Announcing(s.phase[p]) && GuestOk(c, s, p)
    ensures GuestOk(c, Announce(c, s, p), p)
  {
    if s.phase[p].Starting? {
      WriteOwn(c, s.log, p, StepEvent(StepStart, c, p, s.phase[p].at));
    }
  }

  /** Moving on inside the barrier changes nothing a process has logged. */
  lemma BarrierGuest(c: Config, s: State, s': State, p: int)
    requires p in s.phase && p in s'.phase && GuestOk(c, s, p)
    requires Silent(s, s', p)
    requires InBarrier(s.phase[p]) && !s.phase[p].Started?
    requires
      || (InBarrier(s'.phase[p]) && !s'.phase[p].Started?)
      || s'.phase[p].Failing?
      || (s'.phase[p].Released? && s'.phase[p].forked == 0)
    ensures GuestOk(c, s', p)
  {
  }

  lemma PollGuest(c: Config, s: State, p: int)
    requires p in s.phase && Looking(s.phase[p]) && GuestOk(c, s, p)
    ensures GuestOk(c, Poll(c, s, p), p)
  {
    PollPrivate(c, s, p);
    BarrierGuest(c, s, Poll(c, s, p), p);
  }

  lemma OverlookGuest(c: Config, s: State, p: int)
    requires p in s.phase && (s.phase[p].Checking? || s.phase[p].Unreleased?) && GuestOk(c, s, p)
    ensures GuestOk(c, Overlook(c, s, p), p)
  {
    assert Overlook(c, s, p).phase.Keys == s.phase.Keys;
    BarrierGuest(c, s, Overlook(c, s, p), p);
  }

  lemma PublishGuest(c: Config, s: State, p: int)
    requires p in s.phase && Publishing(s.phase[p]) && GuestOk(c, s, p)
    ensures GuestOk(c, Publish(c, s, p), p)
  {
    PublishSilent(c, s, p);
    BarrierGuest(c, s, Publish(c, s, p), p);
  }

  lemma ForkGuest(c: Config, s: State, p: int)
    requires p in s.phase && s.phase[p].Released? && GuestOk(c, s, p)
    ensures GuestOk(c, Fork(c, s, p), p)
  {
  }

  lemma ConcludeGuest(c: Config, s: State, p: int)
    requires p in s.phase && Concluding(s.phase[p]) && GuestOk(c, s, p)
    requires s.phase[p].Reaping? ==> AllExited(s, p, s.phase[p].forked)
    requires s.phase[p].Reaping? && s.phase[p].forked >= 1 && AllSucceeded(s, p, s.phase[p].forked) ==>
      s.clock >= s.phase[p].epoch + c.duration
    ensures GuestOk(c, Conclude(c, s, p), p)
  {
  }

  lemma LogEndGuest(c: Config, s: State, p: int)
    requires p in s.phase && s.phase[p].Ending? && GuestOk(c, s, p)
    ensures GuestOk(c, LogEnd(c, s, p), p)
  {
    WriteOwn(c, s.log, p, StepEvent(StepEnd, c, p, s.phase[p].at));
  }

  /** When all of a step's workers have succeeded, the duration has passed since
      the release. */
  lemma ReapedLate(setup: Setup, s: State, p: int)
    requires GuestInv(setup, s) && p in setup && s.phase[p].Reaping?
    requires AllExited(s, p, s.phase[p].forked)
    ensures s.phase[p].forked >= 1 && AllSucceeded(s, p, s.phase[p].forked) ==>
      s.clock >= s.phase[p].epoch + setup[p].duration
  {
    assert ProcessOk(setup[p], s, p);
    if s.phase[p].forked >= 1 {
      assert (p, 0) in s.workers;
      assert WorkerOk(setup[p], s, s.workers[(p, 0)]);
    }
  }

  lemma MainGuest(c: Config, s: State, p: int)
    requires p in s.phase && (s.phase[p].Reaping? ==> AllExited(s, p, s.phase[p].forked)) && GuestOk(c, s, p)
    requires s.phase[p].Reaping? && s.phase[p].forked >= 1 && AllSucceeded(s, p, s.phase[p].forked) ==>
      s.clock >= s.phase[p].epoch + c.duration
    ensures p in Main(c, s, p).phase && GuestOk(c, Main(c, s, p), p)
  {
    if Announcing(s.phase[p]) {
      AnnounceGuest(c, s, p);
    } else if Looking(s.phase[p]) {
      PollGuest(c, s, p);
    } else if Publishing(s.phase[p]) {
      PublishGuest(c, s, p);
    } else {
      FinishGuest(c, s, p);
    }
  }

  lemma FinishGuest(c: Config, s: State, p: int)
    requires p in s.phase && (s.phase[p].Reaping? ==> AllExited(s, p, s.phase[p].forked)) && GuestOk(c, s, p)
    requires s.phase[p].Reaping? && s.phase[p].forked >= 1 && AllSucceeded(s, p, s.phase[p].forked) ==>
      s.clock >= s.phase[p].epoch + c.duration
    requires !Announcing(s.phase[p]) && !Looking(s.phase[p]) && !Publishing(s.phase[p])
    ensures p in Main(c, s, p).phase && GuestOk(c, Main(c, s, p), p)
  {
    if s.phase[p].Released? {
      ForkGuest(c, s, p);
    } else if Concluding(s.phase[p]) {
      ConcludeGuest(c, s, p);
    } else if s.phase[p].Ending? {
      LogEndGuest(c, s, p);
    }
  }

  lemma ActionGuest(setup: Setup, s: State, a: Action)
    requires GuestInv(setup, s) && Enabled(setup, s, a)
    requires IsMain(a)
    ensures a.pid in Do(setup, s, a).phase && GuestOk(setup[a.pid], Do(setup, s, a), a.pid)
  {
    assert GuestOk(setup[a.pid], s, a.pid);
    if a.Advance? {
      if s.phase[a.pid].Reaping? {
        ReapedLate(setup, s, a.pid);
      }
      MainGuest(setup[a.pid], s, a.pid);
    } else if a.Misread? {
      OverlookGuest(setup[a.pid], s, a.pid);
    }
  }

  // ---------------------------------------------------------------- workers

  lemma WorkerStable(c: Config, s: State, s': State, w: WorkerPhase)
    requires WorkerOk(c, s, w) && s.clock <= s'.clock
    requires s.release.Some? ==> s'.release == s.release
    ensures WorkerOk(c, s', w)
  {
  }

  lemma NextWorkerOk(c: Config, s: State, w: WorkerPhase)
    requires WorkerOk(c, s, w)
    requires w.Waiting? ==> w.epoch <= s.clock
    requires w.Running? ==> w.deadline <= s.clock
    ensures WorkerOk(c, s, NextWorkerPhase(c, s.clock, w))
  {
  }

  /** Only worker `(p, j)` changed, to a good phase. */
  lemma WorkerMoved(setup: Setup, s: State, s': State, p: int, j: nat, f: WorkerPhase)
    requires WorkersOk(setup, s) && p in setup && WorkerOk(setup[p], s, f)
    requires s'.workers == s.workers[(p, j) := f] && s'.clock == s.clock && s'.release == s.release
    ensures WorkersOk(setup, s')
  {
    WorkerStable(setup[p], s, s', f);
    forall k | k in s'.workers ensures k.0 in setup && WorkerOk(setup[k.0], s', s'.workers[k]) {
      if k != (p, j) {
        WorkerStable(setup[k.0], s, s', s.workers[k]);
      }
    }
  }

  lemma WorkersKept(setup: Setup, s: State, s': State)
    requires WorkersOk(setup, s) && s'.workers == s.workers && s.clock <= s'.clock
    requires s.release.Some? ==> s'.release == s.release
    ensures WorkersOk(setup, s')
  {
    forall k | k in s'.workers ensures k.0 in setup && WorkerOk(setup[k.0], s', s'.workers[k]) {
      WorkerStable(setup[k.0], s, s', s.workers[k]);
    }
  }

  lemma ForkWorkers(setup: Setup, s: State, p: int)
    requires WorkersOk(setup, s) && p in setup && p in s.phase && s.phase[p].Released?
    requires ProcessOk(setup[p], s, p)
    ensures WorkersOk(setup, Fork(setup[p], s, p))
  {
    var s' := Fork(setup[p], s, p);
    if s.phase[p].forked < setup[p].workers {
      WorkerMoved(setup, s, s', p, s.phase[p].forked, Waiting(s.phase[p].epoch));
    } else {
      WorkersKept(setup, s, s');
    }
  }

  lemma PublishWorkers(setup: Setup, s: State, p: int)
    requires WorkersOk(setup, s) && p in setup && p in s.phase && Publishing(s.phase[p])
    requires ProcessOk(setup[p], s, p)
    ensures WorkersOk(setup, Publish(setup[p], s, p))
  {
    WorkersKept(setup, s, Publish(setup[p], s, p));
  }

  lemma MainWorkers(setup: Setup, s: State, p: int)
    requires WorkersOk(setup, s) && Enabled(setup, s, Advance(p)) && ProcessOk(setup[p], s, p)
    ensures WorkersOk(setup, Main(setup[p], s, p))
  {
    if Publishing(s.phase[p]) {
      PublishWorkers(setup, s, p);
    } else if s.phase[p].Released? {
      ForkWorkers(setup, s, p);
    } else {
      KeptByMain(setup[p], s, p);
      WorkersKept(setup, s, Main(setup[p], s, p));
    }
  }

  lemma KeptByMain(c: Config, s: State, p: int)
    requires p in s.phase && (s.phase[p].Reaping? ==> AllExited(s, p, s.phase[p].forked))
    requires !Publishing(s.phase[p]) && !s.phase[p].Released?
    ensures Main(c, s, p).workers == s.workers && Main(c, s, p).clock == s.clock
    ensures Main(c, s, p).release == s.release
  {
    if Announcing(s.phase[p]) {
      assert Announce(c, s, p).workers == s.workers;
    } else if Looking(s.phase[p]) {
      assert Poll(c, s, p).workers == s.workers;
    } else if Concluding(s.phase[p]) {
      assert Conclude(c, s, p).workers == s.workers;
    }
  }

  lemma ActionWorkers(setup: Setup, s: State, a: Action)
    requires GuestInv(setup, s) && Enabled(setup, s, a)
    ensures WorkersOk(setup, Do(setup, s, a))
  {
    match a
    case Advance(p) =>
      assert ProcessOk(setup[p], s, p);
      MainWorkers(setup, s, p);
    case WorkerAdvance(p, j) =>
      assert WorkerOk(setup[p], s, s.workers[(p, j)]);
      NextWorkerOk(setup[p], s, s.workers[(p, j)]);
      WorkerMoved(setup, s, Do(setup, s, a), p, j, NextWorkerPhase(setup[p], s.clock, s.workers[(p, j)]));
    case WorkerFail(p, j, code) =>
      WorkerMoved(setup, s, Do(setup, s, a), p, j, Exited(code));
    case _ => WorkersKept(setup, s, Do(setup, s, a));
  }

  // ---------------------------------------------------------------- every run

  lemma ActionArrivals(setup: Setup, s: State, a: Action)
    requires Enabled(setup, s, a)
    requires forall i :: 0 <= i < |s.ready| ==> s.ready[i].pid in setup
    ensures forall i :: 0 <= i < |Do(setup, s, a).ready| ==> Do(setup, s, a).ready[i].pid in setup
  {
    if a.Advance? {
      if !Announcing(s.phase[a.pid]) && !s.phase[a.pid].Ending? {
        MainSilent(setup[a.pid], s, a.pid);
      }
    }
  }

  lemma GuestStep(setup: Setup, s: State, a: Action)
    requires GuestInv(setup, s) && Enabled(setup, s, a)
    ensures GuestInv(setup, Do(setup, s, a))
  {
    InvStep(setup, s, a);
    ActionWorkers(setup, s, a);
    ActionArrivals(setup, s, a);
    var s' := Do(setup, s, a);
    forall q | q in setup ensures GuestOk(setup[q], s', q) {
      if IsMain(a) && a.pid == q {
        ActionGuest(setup, s, a);
      } else {
        ActionQuiet(setup, s, a, q);
        QuietStable(setup[q], s, s', q);
      }
    }
  }

  lemma {:induction false} GuestAlways(setup: Setup, clock: nat, actions: seq<Action>)
    ensures var r := Play(setup, clock, actions); r.Some? ==> GuestInv(setup, r.value)
  {
    if actions != [] {
      GuestAlways(setup, clock, Front(actions));
      var r := Play(setup, clock, Front(actions));
      if r.Some? && Enabled(setup, r.value, Last(actions)) {
        GuestStep(setup, r.value, Last(actions));
      }
    }
  }

  lemma ReachableInv(setup: Setup, s: State)
    requires Reachable(setup, s)
    ensures GuestInv(setup, s)
  {
    var clock, actions :| Play(setup, clock, actions) == Some(s);
    GuestAlways(setup, clock, actions);
  }
}
