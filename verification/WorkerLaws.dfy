/** What a guest's verdict and its workers' log records mean, in every interleaving. */
module WorkerLaws {
  import opened Sequences
  import opened Events
  import opened Guest
  import opened BarrierLaws
  import opened GuestLaws
  import opened BarrierDeadlines

  // ---------------------------------------------------------------- the verdict

  /** Every worker the process was told to run was forked and exited with 0. */
  ghost predicate AllWell(c: Config, s: State, p: int) {
    forall j: nat :: j < c.workers ==> (p, j) in s.workers && s.workers[(p, j)] == Exited(0)
  }

  ghost predicate HasExactly(s: State, p: int, n: nat) {
    forall j: nat :: (p, j) in s.workers <==> j < n
  }

  ghost predicate AllOver(s: State, p: int) {
    forall j: nat :: (p, j) in s.workers ==> s.workers[(p, j)].Exited?
  }

  /** Not yet returned from the barrier. */
  predicate Early(f: Phase) {
    f.Idle? || f.Starting? || InBarrier(f) || f.Failing?
  }

  ghost predicate ForkOk(c: Config, s: State, p: int)
    requires p in s.phase
  {
    var f := s.phase[p];
    && (Early(f) ==> HasExactly(s, p, 0))
    && (f.Released? || f.Reaping? ==> f.forked <= c.workers && HasExactly(s, p, f.forked))
    && (f.Ending? || f.Done? ==>
        if f.result.Some? then AllOver(s, p) && (f.ok <==> AllWell(c, s, p)) else !f.ok)
  }

  lemma ForkStable(c: Config, s: State, s': State, q: int)
    requires q in s.phase && q in s'.phase && s'.phase[q] == s.phase[q] && WorkersStay(s, s', q) && ForkOk(c, s, q)
    ensures ForkOk(c, s', q)
  {
    var f := s.phase[q];
    if (f.Ending? || f.Done?) && f.result.Some? {
      forall j: nat | (q, j) in s'.workers ensures s'.workers[(q, j)] == s.workers[(q, j)] {
        assert (q, j) in s.workers;
      }
    }
  }

  /** Only `p`'s phase changed, to one that its workers bear out. */
  lemma EarlyForkOk(c: Config, s: State, s': State, p: int)
    requires p in s.phase && p in s'.phase && ForkOk(c, s, p) && Early(s.phase[p]) && s'.workers == s.workers
    requires Early(s'.phase[p]) || (s'.phase[p].Released? && s'.phase[p].forked == 0)
    ensures ForkOk(c, s', p)
  {
  }

  lemma BarrierForkOk(c: Config, s: State, p: int)
    requires p in s.phase && ProcessOk(c, s, p) && ForkOk(c, s, p)
    requires Announcing(s.phase[p]) || Looking(s.phase[p]) || Publishing(s.phase[p])
    ensures p in Main(c, s, p).phase && ForkOk(c, Main(c, s, p), p)
  {
    if Announcing(s.phase[p]) {
      AnnouncePhase(c, s, p);
      KeptByMain(c, s, p);
    } else if Looking(s.phase[p]) {
      PollPhase(c, s, p);
      KeptByMain(c, s, p);
    } else {
      PublishPhase(c, s, p);
      PublishSilent(c, s, p);
    }
    EarlyForkOk(c, s, Main(c, s, p), p);
  }

  lemma ForkForkOk(c: Config, s: State, p: int)
    requires p in s.phase && s.phase[p].Released? && ForkOk(c, s, p)
    ensures ForkOk(c, Fork(c, s, p), p)
  {
  }

  /** The verdict is success exactly when every worker did well. */
  lemma JudgedRight(c: Config, s: State, p: int, n: nat)
    requires AllExited(s, p, n) && HasExactly(s, p, n) && n <= c.workers
    ensures AllOver(s, p)
    ensures n == c.workers && AllSucceeded(s, p, n) <==> AllWell(c, s, p)
  {
    if n < c.workers {
      assert (p, n) !in s.workers;
    }
  }

  lemma ConcludeForkOk(c: Config, s: State, p: int)
    requires p in s.phase && Concluding(s.phase[p]) && ForkOk(c, s, p)
    requires s.phase[p].Reaping? ==> AllExited(s, p, s.phase[p].forked)
    ensures ForkOk(c, Conclude(c, s, p), p)
  {
    if s.phase[p].Reaping? {
      JudgedRight(c, s, p, s.phase[p].forked);
      assert Conclude(c, s, p).workers == s.workers;
      assert AllWell(c, Conclude(c, s, p), p) <==> AllWell(c, s, p);
    }
  }

  lemma LogEndForkOk(c: Config, s: State, p: int)
    requires p in s.phase && s.phase[p].Ending? && ForkOk(c, s, p)
    ensures ForkOk(c, LogEnd(c, s, p), p)
  {
    assert AllWell(c, LogEnd(c, s, p), p) <==> AllWell(c, s, p);
  }

  lemma MainForkOk(c: Config, s: State, p: int)
    requires p in s.phase && (s.phase[p].Reaping? ==> AllExited(s, p, s.phase[p].forked))
    requires ProcessOk(c, s, p) && ForkOk(c, s, p)
    ensures p in Main(c, s, p).phase && ForkOk(c, Main(c, s, p), p)
  {
    if Announcing(s.phase[p]) || Looking(s.phase[p]) || Publishing(s.phase[p]) {
      BarrierForkOk(c, s, p);
    } else if s.phase[p].Released? {
      ForkForkOk(c, s, p);
    } else if Concluding(s.phase[p]) {
      ConcludeForkOk(c, s, p);
    } else if s.phase[p].Ending? {
      LogEndForkOk(c, s, p);
    }
  }

  lemma MishapForkOk(setup: Setup, s: State, a: Action)
    requires Enabled(setup, s, a) && IsMain(a) && !a.Advance? && ForkOk(setup[a.pid], s, a.pid)
    ensures a.pid in Do(setup, s, a).phase && ForkOk(setup[a.pid], Do(setup, s, a), a.pid)
  {
    if a.Misread? {
      OverlookPhase(setup[a.pid], s, a.pid);
      EarlyForkOk(setup[a.pid], s, Do(setup, s, a), a.pid);
    }
  }

  lemma ActionForkOk(setup: Setup, s: State, a: Action, p: int)
    requires Inv(setup, s) && Enabled(setup, s, a) && p in setup && ForkOk(setup[p], s, p)
    ensures p in Do(setup, s, a).phase && ForkOk(setup[p], Do(setup, s, a), p)
  {
    assert ProcessOk(setup[p], s, p);
    if !IsMain(a) || a.pid != p {
      ActionQuiet(setup, s, a, p);
      ForkStable(setup[p], s, Do(setup, s, a), p);
    } else if a.Advance? {
      MainForkOk(setup[p], s, p);
    } else {
      MishapForkOk(setup, s, a);
    }
  }

  lemma {:induction false} ForkAlways(setup: Setup, clock: nat, actions: seq<Action>, p: int)
    requires p in setup
    ensures var r := Play(setup, clock, actions);
      r.Some? ==> p in r.value.phase && ForkOk(setup[p], r.value, p)
  {
    if actions != [] {
      ForkAlways(setup, clock, Front(actions), p);
      InvAlways(setup, clock, Front(actions));
      var r := Play(setup, clock, Front(actions));
      if r.Some? && Enabled(setup, r.value, Last(actions)) {
        ActionForkOk(setup, r.value, Last(actions), p);
      }
    }
  }

  /** A process ends with success exactly when it got an epoch and every worker it
      was told to run was forked and exited with 0. */
  lemma VerdictIsHonest(setup: Setup, s: State, p: int)
    requires Reachable(setup, s) && p in setup && p in s.phase && s.phase[p].Done?
    ensures s.phase[p].ok <==> s.phase[p].result.Some? && AllWell(setup[p], s, p)
  {
    var clock, actions :| Play(setup, clock, actions) == Some(s);
    ForkAlways(setup, clock, actions, p);
  }
}
