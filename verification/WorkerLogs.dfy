/** What each worker writes into the shared log, and the lifetime the analyser
    makes of it. */
module WorkerLogs {
  import opened Sequences
  import opened Events
  import opened Lifetimes
  import opened LifetimeLaws
  import opened Guest
  import opened BarrierLaws
  import opened GuestLaws
  import opened GuestFootprint
  import opened WorkerLaws

  function KeyOfWorker(c: Config, j: nat): Key {
    WorkerKey(c.step, j, c.child(j))
  }

  /** The start and end records worker `j` has written so far. */
  function WorkerRecords(c: Config, s: State, j: nat): seq<Event> {
    Trace(Workers, KeyOfWorker(c, j), s.log)
  }

  /** No two processes' workers share step, number and pid. */
  ghost predicate DistinctWorkers(setup: Setup) {
    forall p, q, j :: p in setup && q in setup && p != q ==> KeyOfWorker(setup[p], j) != KeyOfWorker(setup[q], j)
  }

  // ---------------------------------------------------------------- the invariant

  ghost predicate FromRelease(s: State, a: int) {
    s.release.Some? && s.release.value <= a
  }

  /** A start at `a`, not before the release, and nothing more. */
  ghost predicate Opened(c: Config, s: State, j: nat, a: nat) {
    WorkerRecords(c, s, j) == [WorkerEvent(WorkerStart, c, j, a)] && FromRelease(s, a)
  }

  /** A start at `a`, not before the release, and an end at least the duration later. */
  ghost predicate Lived(c: Config, s: State, j: nat, a: nat, b: nat) {
    && WorkerRecords(c, s, j) == [WorkerEvent(WorkerStart, c, j, a), WorkerEvent(WorkerEnd, c, j, b)]
    && FromRelease(s, a) && a + c.duration <= b
  }

  ghost predicate RecordsOk(c: Config, s: State, j: nat, w: WorkerPhase) {
    match w
    case Waiting(_) => WorkerRecords(c, s, j) == []
    case WorkerStarting(at) => WorkerRecords(c, s, j) == [] && FromRelease(s, at) && at <= s.clock
    case WorkerStarted => exists a: nat :: Opened(c, s, j, a) && a <= s.clock
    case Running(d) => exists a: nat :: Opened(c, s, j, a) && a + c.duration <= d
    case WorkerEnding(at) => exists a: nat :: Opened(c, s, j, a) && a + c.duration <= at
    case Exited(code) => code == 0 ==> exists a: nat, b: nat :: Lived(c, s, j, a, b)
  }

  ghost predicate WorkerLogOk(c: Config, s: State, p: int, j: nat) {
    if (p, j) in s.workers then RecordsOk(c, s, j, s.workers[(p, j)]) else WorkerRecords(c, s, j) == []
  }

  /** The same records in a later state. */
  lemma RecordsStay(c: Config, s: State, s': State, j: nat, w: WorkerPhase)
    requires RecordsOk(c, s, j, w) && WorkerRecords(c, s', j) == WorkerRecords(c, s, j)
    requires s.clock <= s'.clock && (s.release.Some? ==> s'.release == s.release)
    ensures RecordsOk(c, s', j, w)
  {
    match w
    case WorkerStarted =>
      var a: nat :| Opened(c, s, j, a) && a <= s.clock;
      assert Opened(c, s', j, a);
    case Running(d) =>
      var a: nat :| Opened(c, s, j, a) && a + c.duration <= d;
      assert Opened(c, s', j, a);
    case WorkerEnding(at) =>
      var a: nat :| Opened(c, s, j, a) && a + c.duration <= at;
      assert Opened(c, s', j, a);
    case Exited(code) =>
      if code == 0 {
        var a: nat, b: nat :| Lived(c, s, j, a, b);
        assert Lived(c, s', j, a, b);
      }
    case _ =>
  }

  // ---------------------------------------------------------------- other steps

  lemma NotMine(c: Config, log: seq<Event>, j: nat, e: Event)
    requires !OfKey(Workers, KeyOfWorker(c, j))(e)
    ensures Trace(Workers, KeyOfWorker(c, j), log + [e]) == Trace(Workers, KeyOfWorker(c, j), log)
  {
    FilterSnoc(OfKey(Workers, KeyOfWorker(c, j)), log, e);
  }

  lemma Mine(c: Config, log: seq<Event>, j: nat, e: Event)
    requires OfKey(Workers, KeyOfWorker(c, j))(e)
    ensures Trace(Workers, KeyOfWorker(c, j), log + [e]) == Trace(Workers, KeyOfWorker(c, j), log) + [e]
  {
    FilterSnoc(OfKey(Workers, KeyOfWorker(c, j)), log, e);
  }

  lemma MainWrites(c: Config, s: State, p: int, c': Config, j: nat)
    requires p in s.phase && (s.phase[p].Reaping? ==> AllExited(s, p, s.phase[p].forked))
    ensures WorkerRecords(c', Main(c, s, p), j) == WorkerRecords(c', s, j)
  {
    if s.phase[p].Starting? {
      NotMine(c', s.log, j, StepEvent(StepStart, c, p, s.phase[p].at));
    } else if s.phase[p].Ending? {
      NotMine(c', s.log, j, StepEvent(StepEnd, c, p, s.phase[p].at));
    } else if Announcing(s.phase[p]) {
      assert Announce(c, s, p).log == s.log;
    } else {
      MainSilent(c, s, p);
    }
  }

  /** Another worker's step writes nothing under this worker's identity. */
  lemma OtherWorkerWrites(setup: Setup, s: State, p: int, j: nat, q: int, i: nat)
    requires DistinctWorkers(setup) && p in setup && q in setup && (q, i) in s.workers && (q, i) != (p, j)
    ensures WorkerRecords(setup[p], Work(setup[q], s, q, i), j) == WorkerRecords(setup[p], s, j)
  {
    var f, c := s.workers[(q, i)], setup[q];
    assert KeyOfWorker(c, i) != KeyOfWorker(setup[p], j);
    if f.WorkerStarting? {
      NotMine(setup[p], s.log, j, WorkerEvent(WorkerStart, c, i, f.at));
    } else if f.WorkerEnding? {
      NotMine(setup[p], s.log, j, WorkerEvent(WorkerEnd, c, i, f.at));
    } else {
      assert s.log + WorkerLog(c, i, f) == s.log;
    }
  }

  lemma OthersWrite(setup: Setup, s: State, a: Action, p: int, j: nat)
    requires DistinctWorkers(setup) && Enabled(setup, s, a) && p in setup && a != WorkerAdvance(p, j)
    ensures WorkerRecords(setup[p], Do(setup, s, a), j) == WorkerRecords(setup[p], s, j)
  {
    match a
    case Note(e) => NotMine(setup[p], s.log, j, e);
    case Advance(q) => MainWrites(setup[q], s, q, setup[p], j);
    case WorkerAdvance(q, i) => OtherWorkerWrites(setup, s, p, j, q, i);
    case _ =>
  }

  lemma PublishKeepsRelease(c: Config, s: State, p: int)
    requires p in s.phase && Publishing(s.phase[p]) && ProcessOk(c, s, p)
    ensures s.release.Some? ==> Publish(c, s, p).release == s.release
    ensures Publish(c, s, p).clock == s.clock
  {
  }

  lemma ReleaseStays(setup: Setup, s: State, a: Action)
    requires Inv(setup, s) && Enabled(setup, s, a)
    ensures s.release.Some? ==> Do(setup, s, a).release == s.release
    ensures s.clock <= Do(setup, s, a).clock
  {
    if a.Advance? {
      assert ProcessOk(setup[a.pid], s, a.pid);
      if Publishing(s.phase[a.pid]) {
        PublishKeepsRelease(setup[a.pid], s, a.pid);
      } else if s.phase[a.pid].Released? {
        MainPrivate(setup[a.pid], s, a.pid);
      } else {
        KeptByMain(setup[a.pid], s, a.pid);
      }
    }
  }

  /** A worker moves only by its own steps, and appears only by being forked. */
  ghost predicate WorkerStays(s: State, s': State, p: int, j: nat) {
    if (p, j) in s.workers then (p, j) in s'.workers && s'.workers[(p, j)] == s.workers[(p, j)]
    else (p, j) in s'.workers ==> s'.workers[(p, j)].Waiting?
  }

  lemma ForkKeepsWorkers(c: Config, s: State, q: int, p: int, j: nat)
    requires q in s.phase && s.phase[q].Released? && ForkOk(c, s, q)
    ensures WorkerStays(s, Fork(c, s, q), p, j)
  {
  }

  lemma MainKeepsWorker(c: Config, s: State, q: int, p: int, j: nat)
    requires q in s.phase && (s.phase[q].Reaping? ==> AllExited(s, q, s.phase[q].forked)) && ForkOk(c, s, q)
    ensures WorkerStays(s, Main(c, s, q), p, j)
  {
    if Publishing(s.phase[q]) {
      PublishSilent(c, s, q);
    } else if s.phase[q].Released? {
      ForkKeepsWorkers(c, s, q, p, j);
    } else {
      KeptByMain(c, s, q);
    }
  }

  lemma OthersKeepWorker(setup: Setup, s: State, a: Action, p: int, j: nat)
    requires Inv(setup, s) && Enabled(setup, s, a) && a != WorkerAdvance(p, j)
    requires forall q :: q in setup ==> q in s.phase && ForkOk(setup[q], s, q)
    requires a.WorkerFail? ==> (a.pid, a.j) != (p, j)
    ensures WorkerStays(s, Do(setup, s, a), p, j)
  {
    if a.Advance? {
      assert ForkOk(setup[a.pid], s, a.pid);
      MainKeepsWorker(setup[a.pid], s, a.pid, p, j);
    }
  }

  // ---------------------------------------------------------------- a worker's own steps

  lemma OwnStep(c: Config, s: State, p: int, j: nat)
    requires (p, j) in s.workers && !s.workers[(p, j)].Exited? && RecordsOk(c, s, j, s.workers[(p, j)])
    requires WorkerOk(c, s, s.workers[(p, j)])
    requires s.workers[(p, j)].Waiting? ==> s.workers[(p, j)].epoch <= s.clock
    requires s.workers[(p, j)].Running? ==> s.workers[(p, j)].deadline <= s.clock
    ensures WorkerLogOk(c, Work(c, s, p, j), p, j)
  {
    var s', f := Work(c, s, p, j), s.workers[(p, j)];
    match f
    case Waiting(_) => assert s.log + WorkerLog(c, j, f) == s.log;
    case WorkerStarting(at) =>
      Mine(c, s.log, j, WorkerEvent(WorkerStart, c, j, at));
      assert Opened(c, s', j, at);
    case WorkerStarted =>
      assert s.log + WorkerLog(c, j, f) == s.log;
      var a: nat :| Opened(c, s, j, a) && a <= s.clock;
      assert Opened(c, s', j, a);
    case Running(d) =>
      assert s.log + WorkerLog(c, j, f) == s.log;
      var a: nat :| Opened(c, s, j, a) && a + c.duration <= d;
      assert Opened(c, s', j, a);
    case WorkerEnding(at) =>
      var a: nat :| Opened(c, s, j, a) && a + c.duration <= at;
      Mine(c, s.log, j, WorkerEvent(WorkerEnd, c, j, at));
      assert Lived(c, s', j, a, at);
  }

  lemma ActionLogOk(setup: Setup, s: State, a: Action, p: int, j: nat)
    requires DistinctWorkers(setup) && GuestInv(setup, s) && Enabled(setup, s, a) && p in setup
    requires forall q :: q in setup ==> q in s.phase && ForkOk(setup[q], s, q)
    requires WorkerLogOk(setup[p], s, p, j)
    ensures WorkerLogOk(setup[p], Do(setup, s, a), p, j)
  {
    if a == WorkerAdvance(p, j) {
      assert WorkerOk(setup[p], s, s.workers[(p, j)]);
      OwnStep(setup[p], s, p, j);
    } else {
      OthersWrite(setup, s, a, p, j);
      if !a.WorkerFail? || (a.pid, a.j) != (p, j) {
        OthersKeepWorker(setup, s, a, p, j);
        ReleaseStays(setup, s, a);
        if (p, j) in s.workers {
          RecordsStay(setup[p], s, Do(setup, s, a), j, s.workers[(p, j)]);
        }
      }
    }
  }

  lemma {:induction false} LogOkAlways(setup: Setup, clock: nat, actions: seq<Action>, p: int, j: nat)
    requires DistinctWorkers(setup) && p in setup
    ensures var r := Play(setup, clock, actions); r.Some? ==> WorkerLogOk(setup[p], r.value, p, j)
  {
    if actions != [] {
      var f := Front(actions);
      LogOkAlways(setup, clock, f, p, j);
      GuestAlways(setup, clock, f);
      var r := Play(setup, clock, f);
      forall q | q in setup && r.Some? ensures q in r.value.phase && ForkOk(setup[q], r.value, q) {
        ForkAlways(setup, clock, f, q);
      }
      if r.Some? && Enabled(setup, r.value, Last(actions)) {
        ActionLogOk(setup, r.value, Last(actions), p, j);
      }
    }
  }

  // ---------------------------------------------------------------- what the analyser makes of it

  /** A worker that exited with 0 has exactly one lifetime in any log that holds its
      records: it starts no earlier than the release and lasts its duration. */
  lemma WorkerHasOneLifetime(setup: Setup, s: State, p: int, j: nat, log: seq<Event>) returns (v: Interval)
    requires Reachable(setup, s) && DistinctWorkers(setup) && p in setup
    requires (p, j) in s.workers && s.workers[(p, j)] == Exited(0)
    requires Trace(Workers, KeyOfWorker(setup[p], j), log) == WorkerRecords(setup[p], s, j)
    ensures v.key == WorkerKey(setup[p].step, j, setup[p].child(j))
    ensures s.release.Some? && s.release.value <= v.start && v.start + setup[p].duration <= v.end
    ensures Filter(IntervalOf(v.key), Matched(Workers, log).intervals) == [v]
  {
    var c := setup[p];
    var a, b := ExitedLived(setup, s, p, j);
    v := Interval(KeyOfWorker(c, j), a, b);
    PairLifetime(c, j, log, a, b);
  }

  lemma ExitedLived(setup: Setup, s: State, p: int, j: nat) returns (a: nat, b: nat)
    requires Reachable(setup, s) && DistinctWorkers(setup) && p in setup
    requires (p, j) in s.workers && s.workers[(p, j)] == Exited(0)
    ensures Lived(setup[p], s, j, a, b)
  {
    var clock, actions :| Play(setup, clock, actions) == Some(s);
    LogOkAlways(setup, clock, actions, p, j);
    a, b :| Lived(setup[p], s, j, a, b);
  }

  lemma PairLifetime(c: Config, j: nat, log: seq<Event>, a: nat, b: nat)
    requires a <= b
    requires Trace(Workers, KeyOfWorker(c, j), log) ==
      [WorkerEvent(WorkerStart, c, j, a), WorkerEvent(WorkerEnd, c, j, b)]
    ensures Filter(IntervalOf(KeyOfWorker(c, j)), Matched(Workers, log).intervals) ==
      [Interval(KeyOfWorker(c, j), a, b)]
  {
    var k := KeyOfWorker(c, j);
    PairMatches(Workers, k, WorkerEvent(WorkerStart, c, j, a), WorkerEvent(WorkerEnd, c, j, b), a, b);
    MatchedProjects(Workers, k, log);
  }
}
