/** The barrier's timeout: who may still get an epoch, who fails, and why. */
module BarrierDeadlines {
  import opened Sequences
  import opened Events
  import opened Guest
  import opened BarrierLaws
  import opened GuestLaws

  // ---------------------------------------------------------------- what happened in a run

  /** The `i`-th action was `p`'s own step, taken in state `s`. */
  ghost predicate StepsIn(setup: Setup, clock: nat, actions: seq<Action>, p: int, i: int, s: State) {
    && 0 <= i < |actions| && actions[i] == Advance(p) && p in setup && p in s.phase
    && Play(setup, clock, actions[..i]) == Some(s)
  }

  /** `p` began to wait, once its identity was in the file, for a deadline of `d`. */
  ghost predicate BeganWaiting(setup: Setup, clock: nat, actions: seq<Action>, p: int, d: nat) {
    exists i, s :: StepsIn(setup, clock, actions, p, i, s) && s.phase[p].Arrived? && d == s.clock + setup[p].timeout
  }

  /** `p` looked at the clock before its deadline `d`. */
  ghost predicate LookedInTime(setup: Setup, clock: nat, actions: seq<Action>, p: int, d: nat) {
    exists i, s :: StepsIn(setup, clock, actions, p, i, s) && s.phase[p] == Polling(d) && s.clock < d
  }

  /** `p` looked at the clock when its deadline had come. */
  ghost predicate TimedOut(setup: Setup, clock: nat, actions: seq<Action>, p: int) {
    exists i, s ::
      StepsIn(setup, clock, actions, p, i, s) && s.phase[p].Polling? && s.phase[p].deadline <= s.clock
  }

  ghost predicate Erred(actions: seq<Action>, p: int) {
    exists i :: 0 <= i < |actions| && actions[i] == BarrierError(p)
  }

  lemma StepsStay(setup: Setup, clock: nat, actions: seq<Action>, a: Action, p: int, i: int, s: State)
    requires StepsIn(setup, clock, actions, p, i, s)
    ensures StepsIn(setup, clock, actions + [a], p, i, s)
  {
    assert (actions + [a])[..i] == actions[..i];
  }

  lemma BeganStays(setup: Setup, clock: nat, actions: seq<Action>, a: Action, p: int, d: nat)
    requires BeganWaiting(setup, clock, actions, p, d)
    ensures BeganWaiting(setup, clock, actions + [a], p, d)
  {
    var i, s :| StepsIn(setup, clock, actions, p, i, s) && s.phase[p].Arrived? && d == s.clock + setup[p].timeout;
    StepsStay(setup, clock, actions, a, p, i, s);
  }

  lemma LookStays(setup: Setup, clock: nat, actions: seq<Action>, a: Action, p: int, d: nat)
    requires LookedInTime(setup, clock, actions, p, d)
    ensures LookedInTime(setup, clock, actions + [a], p, d)
  {
    var i, s :| StepsIn(setup, clock, actions, p, i, s) && s.phase[p] == Polling(d) && s.clock < d;
    StepsStay(setup, clock, actions, a, p, i, s);
  }

  lemma FailureStays(setup: Setup, clock: nat, actions: seq<Action>, a: Action, p: int)
    ensures TimedOut(setup, clock, actions, p) ==> TimedOut(setup, clock, actions + [a], p)
    ensures Erred(actions, p) ==> Erred(actions + [a], p)
  {
    if TimedOut(setup, clock, actions, p) {
      var i, s :|
        StepsIn(setup, clock, actions, p, i, s) && s.phase[p].Polling? && s.phase[p].deadline <= s.clock;
      StepsStay(setup, clock, actions, a, p, i, s);
    }
    if i :| 0 <= i < |actions| && actions[i] == BarrierError(p) {
      assert (actions + [a])[i] == BarrierError(p);
    }
  }

  lemma LastStep(setup: Setup, clock: nat, actions: seq<Action>, p: int, s: State)
    requires Play(setup, clock, actions) == Some(s) && p in setup && p in s.phase
    ensures StepsIn(setup, clock, actions + [Advance(p)], p, |actions|, s)
  {
    assert (actions + [Advance(p)])[..|actions|] == actions;
  }

  // ---------------------------------------------------------------- the invariant

  /** Between the first look at the clock and the return. */
  predicate Inside(f: Phase) {
    f.Checking? || f.Unreleased? || Publishing(f)
  }

  predicate Failed(f: Phase) {
    f.Failing? || (f.Ending? && f.result.None?) || (f.Done? && f.result.None?)
  }

  /** `p` waited for deadline `d` and looked at the clock in time. */
  ghost predicate InTimeFor(setup: Setup, clock: nat, actions: seq<Action>, p: int, d: nat) {
    BeganWaiting(setup, clock, actions, p, d) && LookedInTime(setup, clock, actions, p, d)
  }

  ghost predicate TimedOk(setup: Setup, clock: nat, actions: seq<Action>, p: int, f: Phase) {
    && (f.Polling? ==> BeganWaiting(setup, clock, actions, p, f.deadline))
    && (Inside(f) ==> InTimeFor(setup, clock, actions, p, f.deadline))
    && (Epoch(f).Some? ==> exists d :: InTimeFor(setup, clock, actions, p, d))
    && (Failed(f) ==> TimedOut(setup, clock, actions, p) || Erred(actions, p))
  }

  lemma InTimeStays(setup: Setup, clock: nat, actions: seq<Action>, a: Action, p: int, d: nat)
    requires InTimeFor(setup, clock, actions, p, d)
    ensures InTimeFor(setup, clock, actions + [a], p, d)
  {
    BeganStays(setup, clock, actions, a, p, d);
    LookStays(setup, clock, actions, a, p, d);
  }

  /** The same phase, or a later one with the same deadline, after one more action. */
  lemma TimedStays(setup: Setup, clock: nat, actions: seq<Action>, a: Action, p: int, f: Phase, g: Phase)
    requires TimedOk(setup, clock, actions, p, f)
    requires g.Polling? ==> (f.Polling? || Inside(f)) && g.deadline == f.deadline
    requires Inside(g) ==> Inside(f) && g.deadline == f.deadline
    requires Epoch(g).Some? ==> Epoch(f).Some? || Inside(f)
    requires Failed(g) ==> Failed(f)
    ensures TimedOk(setup, clock, actions + [a], p, g)
  {
    FailureStays(setup, clock, actions, a, p);
    if f.Polling? {
      BeganStays(setup, clock, actions, a, p, f.deadline);
    } else if Inside(f) {
      InTimeStays(setup, clock, actions, a, p, f.deadline);
    } else if Epoch(f).Some? {
      var d :| InTimeFor(setup, clock, actions, p, d);
      InTimeStays(setup, clock, actions, a, p, d);
    }
  }

  // ---------------------------------------------------------------- each step

  lemma AnnouncePhase(c: Config, s: State, p: int)
    requires p in s.phase && Announcing(s.phase[p])
    ensures p in Announce(c, s, p).phase
    ensures var g := Announce(c, s, p).phase[p];
      if s.phase[p].Arrived? then g == Polling(s.clock + c.timeout) else Announcing(g)
  {
    var s' := Announce(c, s, p);
    if s.phase[p].Idle? {
      assert s'.phase == s.phase[p := Starting(s.clock)];
    } else if s.phase[p].Starting? {
      assert s'.phase == s.phase[p := Started];
    } else if s.phase[p].Started? {
      assert s'.phase == s.phase[p := Arrived];
    } else {
      assert s'.phase == s.phase[p := Polling(s.clock + c.timeout)];
    }
  }

  lemma AnnounceTimed(setup: Setup, clock: nat, actions: seq<Action>, s: State, p: int)
    requires Play(setup, clock, actions) == Some(s) && p in setup && p in s.phase && Announcing(s.phase[p])
    ensures p in Announce(setup[p], s, p).phase
    ensures TimedOk(setup, clock, actions + [Advance(p)], p, Announce(setup[p], s, p).phase[p])
  {
    LastStep(setup, clock, actions, p, s);
    AnnouncePhase(setup[p], s, p);
  }

  lemma PollPhase(c: Config, s: State, p: int)
    requires p in s.phase && Looking(s.phase[p])
    ensures p in Poll(c, s, p).phase
    ensures var f, g := s.phase[p], Poll(c, s, p).phase[p];
      if f.Polling? then g == (if s.clock < f.deadline then Checking(f.deadline) else Failing)
      else (g.Released? || ((g.Unreleased? || g.Ready? || g.Polling?) && g.deadline == f.deadline))
  {
  }

  lemma LookTimed(setup: Setup, clock: nat, actions: seq<Action>, s: State, p: int)
    requires Play(setup, clock, actions) == Some(s) && p in setup && p in s.phase && s.phase[p].Polling?
    requires TimedOk(setup, clock, actions, p, s.phase[p])
    ensures var d := s.phase[p].deadline;
      TimedOk(setup, clock, actions + [Advance(p)], p, if s.clock < d then Checking(d) else Failing)
  {
    var d := s.phase[p].deadline;
    LastStep(setup, clock, actions, p, s);
    BeganStays(setup, clock, actions, Advance(p), p, d);
    if s.clock < d {
      assert LookedInTime(setup, clock, actions + [Advance(p)], p, d);
    } else {
      assert TimedOut(setup, clock, actions + [Advance(p)], p);
    }
  }

  lemma PollTimed(setup: Setup, clock: nat, actions: seq<Action>, s: State, p: int)
    requires Play(setup, clock, actions) == Some(s) && p in setup && p in s.phase && Looking(s.phase[p])
    requires TimedOk(setup, clock, actions, p, s.phase[p])
    ensures p in Poll(setup[p], s, p).phase
    ensures TimedOk(setup, clock, actions + [Advance(p)], p, Poll(setup[p], s, p).phase[p])
  {
    PollPhase(setup[p], s, p);
    if s.phase[p].Polling? {
      LookTimed(setup, clock, actions, s, p);
    } else {
      TimedStays(setup, clock, actions, Advance(p), p, s.phase[p], Poll(setup[p], s, p).phase[p]);
    }
  }

  lemma LockPhase(s: State, p: int)
    requires p in s.phase && s.phase[p].Stamped?
    ensures p in TakeLock(s, p).phase
    ensures var g := TakeLock(s, p).phase[p]; (g.Polling? || g.Holding?) && g.deadline == s.phase[p].deadline
  {
  }

  lemma WritePhase(s: State, p: int)
    requires p in s.phase && s.phase[p].Holding? && p !in s.temps
    ensures p in WriteTemporary(s, p).phase
    ensures var g := WriteTemporary(s, p).phase[p]; g.Written? && g.deadline == s.phase[p].deadline
  {
  }

  lemma RenamePhase(s: State, p: int)
    requires p in s.phase && s.phase[p].Written? && p in s.temps
    ensures p in Rename(s, p).phase && Rename(s, p).phase[p] == Polling(s.phase[p].deadline)
  {
  }

  lemma PublishPhase(c: Config, s: State, p: int)
    requires p in s.phase && Publishing(s.phase[p]) && ProcessOk(c, s, p)
    ensures p in Publish(c, s, p).phase
    ensures var g := Publish(c, s, p).phase[p];
      (g.Polling? || Publishing(g)) && g.deadline == s.phase[p].deadline
  {
    if s.phase[p].Stamped? {
      LockPhase(s, p);
    } else if s.phase[p].Holding? {
      WritePhase(s, p);
    } else if s.phase[p].Written? {
      RenamePhase(s, p);
    }
  }

  /** Past the barrier there is no way back, and no new failure of it. */
  predicate Onward(f: Phase, g: Phase) {
    !g.Polling? && !Inside(g) && (Epoch(g).Some? ==> Epoch(f).Some?) && (Failed(g) ==> Failed(f))
  }

  lemma ForkPhase(c: Config, s: State, p: int)
    requires p in s.phase && s.phase[p].Released?
    ensures p in Fork(c, s, p).phase && Onward(s.phase[p], Fork(c, s, p).phase[p])
  {
  }

  lemma ConcludePhase(c: Config, s: State, p: int)
    requires p in s.phase && Concluding(s.phase[p])
    requires s.phase[p].Reaping? ==> AllExited(s, p, s.phase[p].forked)
    ensures p in Conclude(c, s, p).phase && Onward(s.phase[p], Conclude(c, s, p).phase[p])
  {
  }

  lemma LogEndPhase(c: Config, s: State, p: int)
    requires p in s.phase && s.phase[p].Ending?
    ensures p in LogEnd(c, s, p).phase && Onward(s.phase[p], LogEnd(c, s, p).phase[p])
  {
  }

  lemma FinishPhase(c: Config, s: State, p: int)
    requires p in s.phase && (s.phase[p].Reaping? ==> AllExited(s, p, s.phase[p].forked))
    requires !Announcing(s.phase[p]) && !Looking(s.phase[p]) && !Publishing(s.phase[p])
    ensures p in Main(c, s, p).phase && Onward(s.phase[p], Main(c, s, p).phase[p])
  {
    if s.phase[p].Released? {
      ForkPhase(c, s, p);
    } else if Concluding(s.phase[p]) {
      ConcludePhase(c, s, p);
    } else if s.phase[p].Ending? {
      LogEndPhase(c, s, p);
    }
  }

  lemma AdvanceTimed(setup: Setup, clock: nat, actions: seq<Action>, s: State, p: int)
    requires Play(setup, clock, actions) == Some(s) && Enabled(setup, s, Advance(p)) && Inv(setup, s)
    requires TimedOk(setup, clock, actions, p, s.phase[p])
    ensures p in Main(setup[p], s, p).phase
    ensures TimedOk(setup, clock, actions + [Advance(p)], p, Main(setup[p], s, p).phase[p])
  {
    assert ProcessOk(setup[p], s, p);
    if Announcing(s.phase[p]) {
      AnnounceTimed(setup, clock, actions, s, p);
    } else if Looking(s.phase[p]) {
      PollTimed(setup, clock, actions, s, p);
    } else {
      if Publishing(s.phase[p]) {
        PublishPhase(setup[p], s, p);
      } else {
        FinishPhase(setup[p], s, p);
      }
      TimedStays(setup, clock, actions, Advance(p), p, s.phase[p], Main(setup[p], s, p).phase[p]);
    }
  }

  lemma OverlookPhase(c: Config, s: State, p: int)
    requires p in s.phase && (s.phase[p].Checking? || s.phase[p].Unreleased?)
    ensures p in Overlook(c, s, p).phase
    ensures var g := Overlook(c, s, p).phase[p];
      (g.Unreleased? || g.Ready? || g.Polling?) && g.deadline == s.phase[p].deadline
  {
  }

  lemma MisreadTimed(setup: Setup, clock: nat, actions: seq<Action>, s: State, p: int)
    requires Enabled(setup, s, Misread(p)) && TimedOk(setup, clock, actions, p, s.phase[p])
    ensures p in Overlook(setup[p], s, p).phase
    ensures TimedOk(setup, clock, actions + [Misread(p)], p, Overlook(setup[p], s, p).phase[p])
  {
    OverlookPhase(setup[p], s, p);
    TimedStays(setup, clock, actions, Misread(p), p, s.phase[p], Overlook(setup[p], s, p).phase[p]);
  }

  lemma ErrorTimed(setup: Setup, clock: nat, actions: seq<Action>, s: State, p: int)
    requires Enabled(setup, s, BarrierError(p)) && p in s.phase
    ensures p in Do(setup, s, BarrierError(p)).phase
    ensures TimedOk(setup, clock, actions + [BarrierError(p)], p, Do(setup, s, BarrierError(p)).phase[p])
  {
    assert (actions + [BarrierError(p)])[|actions|] == BarrierError(p);
  }

  lemma ForkErrorTimed(setup: Setup, clock: nat, actions: seq<Action>, s: State, p: int)
    requires Enabled(setup, s, ForkError(p)) && TimedOk(setup, clock, actions, p, s.phase[p])
    ensures var g := Reaping(s.phase[p].epoch, s.phase[p].forked);
      Do(setup, s, ForkError(p)) == Move(s, p, g) && TimedOk(setup, clock, actions + [ForkError(p)], p, g)
  {
    TimedStays(setup, clock, actions, ForkError(p), p, s.phase[p], Reaping(s.phase[p].epoch, s.phase[p].forked));
  }

  lemma CrashTimed(setup: Setup, clock: nat, actions: seq<Action>, s: State, p: int)
    requires Enabled(setup, s, Crash(p)) && TimedOk(setup, clock, actions, p, s.phase[p])
    ensures Do(setup, s, Crash(p)) == Move(s, p, Crashed)
    ensures TimedOk(setup, clock, actions + [Crash(p)], p, Crashed)
  {
    TimedStays(setup, clock, actions, Crash(p), p, s.phase[p], Crashed);
  }

  /** An own step of `p` whose outcome the outside world decides. */
  lemma MishapTimed(setup: Setup, clock: nat, actions: seq<Action>, s: State, a: Action, p: int)
    requires Enabled(setup, s, a) && IsMain(a) && a.pid == p && !a.Advance?
    requires TimedOk(setup, clock, actions, p, s.phase[p])
    ensures p in Do(setup, s, a).phase
    ensures TimedOk(setup, clock, actions + [a], p, Do(setup, s, a).phase[p])
  {
    if a.BarrierError? {
      ErrorTimed(setup, clock, actions, s, p);
    } else if a.Misread? {
      MisreadTimed(setup, clock, actions, s, p);
    } else if a.ForkError? {
      ForkErrorTimed(setup, clock, actions, s, p);
    } else {
      CrashTimed(setup, clock, actions, s, p);
    }
  }

  lemma OtherTimed(setup: Setup, clock: nat, actions: seq<Action>, s: State, a: Action, p: int)
    requires Enabled(setup, s, a) && p in setup && p in s.phase && (!IsMain(a) || a.pid != p)
    requires TimedOk(setup, clock, actions, p, s.phase[p])
    ensures p in Do(setup, s, a).phase
    ensures TimedOk(setup, clock, actions + [a], p, Do(setup, s, a).phase[p])
  {
    ActionQuiet(setup, s, a, p);
    TimedStays(setup, clock, actions, a, p, s.phase[p], s.phase[p]);
  }

  lemma {:induction false} TimedAlways(setup: Setup, clock: nat, actions: seq<Action>, p: int)
    requires p in setup
    ensures var r := Play(setup, clock, actions);
      r.Some? ==> p in r.value.phase && TimedOk(setup, clock, actions, p, r.value.phase[p])
  {
    if actions != [] {
      var f, a := Front(actions), Last(actions);
      assert actions == f + [a];
      TimedAlways(setup, clock, f, p);
      InvAlways(setup, clock, f);
      var r := Play(setup, clock, f);
      if r.Some? && Enabled(setup, r.value, a) {
        if a == Advance(p) {
          AdvanceTimed(setup, clock, f, r.value, p);
        } else if IsMain(a) && a.pid == p {
          MishapTimed(setup, clock, f, r.value, a, p);
        } else {
          OtherTimed(setup, clock, f, r.value, a, p);
        }
      }
    }
  }

  // ---------------------------------------------------------------- what it gives

  /** In every run, a process that got an epoch looked at the clock before the
      deadline it had set when it began to wait, its timeout ahead. */
  lemma EpochInTime(setup: Setup, clock: nat, actions: seq<Action>, s: State, p: int)
    requires Play(setup, clock, actions) == Some(s) && p in setup && p in s.phase && Epoch(s.phase[p]).Some?
    ensures exists d :: InTimeFor(setup, clock, actions, p, d)
  {
    TimedAlways(setup, clock, actions, p);
  }

  /** In every run, a process whose barrier failed had met its deadline without a
      release or an error of the file system: nothing else makes it fail. */
  lemma FailureHasCause(setup: Setup, clock: nat, actions: seq<Action>, s: State, p: int)
    requires Play(setup, clock, actions) == Some(s) && p in setup && p in s.phase && Failed(s.phase[p])
    ensures TimedOut(setup, clock, actions, p) || Erred(actions, p)
  {
    TimedAlways(setup, clock, actions, p);
  }

  /** At the top of its loop a process goes on exactly when its deadline is still
      ahead, and otherwise fails. */
  lemma DeadlineDecides(setup: Setup, s: State, p: int, d: nat)
    requires Reachable(setup, s) && p in setup && p in s.phase && s.phase[p] == Polling(d)
    ensures Enabled(setup, s, Advance(p)) && p in Do(setup, s, Advance(p)).phase
    ensures var g := Do(setup, s, Advance(p)).phase[p];
      (g.Checking? <==> s.clock < d) && (g.Failing? <==> d <= s.clock)
  {
  }

  /** Where a process can be once its deadline `d` has come at the top of its loop. */
  ghost predicate Expired(s: State, p: int, d: nat) {
    && p in s.phase && d <= s.clock
    && ( || s.phase[p] == Polling(d) || s.phase[p].Failing? || s.phase[p].Crashed?
         || (s.phase[p].Ending? && s.phase[p].result.None? && !s.phase[p].ok)
         || s.phase[p] == Done(false, None))
  }

  lemma ExpiredStep(setup: Setup, s: State, a: Action, p: int, d: nat)
    requires Inv(setup, s) && p in setup && Expired(s, p, d) && Enabled(setup, s, a)
    ensures Expired(Do(setup, s, a), p, d)
  {
    if !IsMain(a) || a.pid != p {
      ActionQuiet(setup, s, a, p);
    } else if a.Advance? {
      ExpiredAdvance(setup[p], s, p, d);
    }
  }

  lemma ExpiredAdvance(c: Config, s: State, p: int, d: nat)
    requires Expired(s, p, d) && !s.phase[p].Crashed? && !s.phase[p].Done?
    ensures Expired(Main(c, s, p), p, d)
    ensures s.phase[p] == Polling(d) ==> Main(c, s, p).phase[p].Failing?
    ensures s.phase[p].Failing? ==> Main(c, s, p).phase[p] == Ending(s.clock, false, None)
    ensures s.phase[p].Ending? ==> Main(c, s, p).phase[p] == Done(false, None)
  {
  }

  lemma {:induction false} ExpiredForever(setup: Setup, s: State, actions: seq<Action>, p: int, d: nat)
    requires Inv(setup, s) && p in setup && Expired(s, p, d)
    ensures var r := Continue(setup, s, actions); r.Some? ==> Inv(setup, r.value) && Expired(r.value, p, d)
  {
    if actions != [] {
      ExpiredForever(setup, s, Front(actions), p, d);
      var r := Continue(setup, s, Front(actions));
      if r.Some? && Enabled(setup, r.value, Last(actions)) {
        InvStep(setup, r.value, Last(actions));
        ExpiredStep(setup, r.value, Last(actions), p, d);
      }
    }
  }

  /** A process whose deadline has come while it waits never gets an epoch, however
      the run continues: it can only end without success. */
  lemma LateNeverReleased(setup: Setup, s: State, p: int, d: nat, actions: seq<Action>, s': State)
    requires Reachable(setup, s) && p in setup && p in s.phase && s.phase[p] == Polling(d) && d <= s.clock
    requires Continue(setup, s, actions) == Some(s')
    ensures Expired(s', p, d) && Epoch(s'.phase[p]).None?
  {
    var clock, before :| Play(setup, clock, before) == Some(s);
    InvAlways(setup, clock, before);
    assert Expired(s, p, d);
    ExpiredForever(setup, s, actions, p, d);
    ExpiredHasNoEpoch(s', p, d);
  }

  lemma ExpiredHasNoEpoch(s: State, p: int, d: nat)
    requires Expired(s, p, d)
    ensures Epoch(s.phase[p]).None?
  {
  }

  /** And left to itself it does end so, with its end in the log. */
  lemma LateEnds(setup: Setup, s: State, p: int, d: nat)
    requires Reachable(setup, s) && p in setup && p in s.phase && s.phase[p] == Polling(d) && d <= s.clock
    ensures var r := Continue(setup, s, [Advance(p), Advance(p), Advance(p)]);
      && r.Some? && p in r.value.phase && r.value.phase[p] == Done(false, None)
      && p in s.began && StepRecords(setup[p], r.value, p) ==
        [StepEvent(StepStart, setup[p], p, s.began[p]), StepEvent(StepEnd, setup[p], p, s.clock)]
  {
    var c, s2 := setup[p], Move(s, p, Ending(s.clock, false, None));
    ReachableInv(setup, s);
    assert GuestOk(c, s, p);
    LateRun(setup, s, p, d);
    WriteOwn(c, s.log, p, StepEvent(StepEnd, c, p, s.clock));
  }

  lemma LateRun(setup: Setup, s: State, p: int, d: nat)
    requires p in setup && p in s.phase && s.phase[p] == Polling(d) && d <= s.clock
    ensures Continue(setup, s, [Advance(p), Advance(p), Advance(p)]) ==
      Some(LogEnd(setup[p], Move(s, p, Ending(s.clock, false, None)), p))
  {
    var a, s1, s2 := Advance(p), Move(s, p, Failing), Move(s, p, Ending(s.clock, false, None));
    LateSteps(setup[p], s, p, d);
    assert Front([a, a, a]) == [a, a] && Front([a, a]) == [a] && Front([a]) == [];
    assert Continue(setup, s, [a]) == Some(s1);
    assert Continue(setup, s, [a, a]) == Some(s2);
  }

  /** Fail, stamp the end, log it. */
  lemma LateSteps(c: Config, s: State, p: int, d: nat)
    requires p in s.phase && s.phase[p] == Polling(d) && d <= s.clock
    ensures Main(c, s, p) == Move(s, p, Failing)
    ensures var s1, s2 := Move(s, p, Failing), Move(s, p, Ending(s.clock, false, None));
      Main(c, s1, p) == s2 && Main(c, s2, p) == LogEnd(c, s2, p)
  {
    assert s.phase[p := Failing][p := Ending(s.clock, false, None)] == s.phase[p := Ending(s.clock, false, None)];
  }
}
