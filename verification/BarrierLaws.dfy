/** What the barrier keeps in every interleaving, timeouts, errors and deaths included. */
module BarrierLaws {
  import opened Sequences
  import opened Guest

  // ---------------------------------------------------------------- the invariant

  /** The first `n` lines of the barrier file hold enough identities for `c`. */
  ghost predicate Enough(ready: seq<Arrival>, c: Config, n: nat) {
    n <= |ready| && |Identities(ready[..n])| >= c.participants
  }

  /** Epoch `e` leaves `c`'s delay after each of the first `n` arrivals. */
  ghost predicate Delayed(ready: seq<Arrival>, c: Config, n: nat, e: nat) {
    n <= |ready| && forall i :: 0 <= i < n ==> ready[i].at + c.delay <= e
  }

  /** What holds of one process, by where it stands. */
  ghost predicate ProcessOk(c: Config, s: State, p: int)
    requires p in s.phase
  {
    var f := s.phase[p];
    && (p in s.temps ==> f.Written? || f.Failing? || f.Ending? || f.Done? || f.Crashed?)
    && (f.Ready? ==> Enough(s.ready, c, f.seen))
    && (f.Stamped? || f.Holding? || f.Written? ==>
        Enough(s.ready, c, f.seen) && Delayed(s.ready, c, f.seen, f.epoch) && f.epoch <= s.clock + c.delay)
    && (f.Holding? || f.Written? ==> s.lock == Some(p) && s.release.None?)
    && (f.Written? ==> p in s.temps && s.temps[p] == f.epoch)
    && (Epoch(f).Some? ==> s.release == Epoch(f))
  }

  ghost predicate Justified(setup: Setup, s: State, pub: Publication) {
    && pub.pid in setup && s.lock == Some(pub.pid)
    && Enough(s.ready, setup[pub.pid], pub.seen)
    && Delayed(s.ready, setup[pub.pid], pub.seen, pub.epoch)
    && pub.epoch <= s.clock + setup[pub.pid].delay
  }

  ghost predicate SharedOk(setup: Setup, s: State) {
    && s.phase.Keys == setup.Keys
    && (forall i :: 0 <= i < |s.ready| ==> s.ready[i].at <= s.clock)
    && (s.release.None? ==> s.published == [])
    && (s.release.Some? ==>
        |s.published| == 1 && s.release == Some(s.published[0].epoch) && Justified(setup, s, s.published[0]))
  }

  ghost predicate Inv(setup: Setup, s: State) {
    && SharedOk(setup, s)
    && forall p :: p in setup ==> ProcessOk(setup[p], s, p)
  }

  // ---------------------------------------------------------------- other processes' steps

  /** What every process may rely on while others move. */
  ghost predicate Undisturbed(s: State, s': State, q: int) {
    && q in s.phase && q in s'.phase && s'.phase[q] == s.phase[q]
    && (q in s.temps <==> q in s'.temps) && (q in s.temps ==> s'.temps[q] == s.temps[q])
    && s.clock <= s'.clock && s.ready <= s'.ready
    && (s.lock.Some? ==> s'.lock == s.lock)
    && (s.release.Some? ==> s'.release == s.release)
    && (s.phase[q].Holding? || s.phase[q].Written? ==> s'.release == s.release)
  }

  lemma StillEnough(ready: seq<Arrival>, ready': seq<Arrival>, c: Config, n: nat)
    requires ready <= ready' && Enough(ready, c, n)
    ensures Enough(ready', c, n)
  {
    assert ready'[..n] == ready[..n];
  }

  lemma Stable(c: Config, s: State, s': State, q: int)
    requires Undisturbed(s, s', q) && ProcessOk(c, s, q)
    ensures ProcessOk(c, s', q)
  {
    var f := s.phase[q];
    if f.Ready? || f.Stamped? || f.Holding? || f.Written? {
      StillEnough(s.ready, s'.ready, c, f.seen);
    }
  }

  lemma AnnounceUndisturbing(c: Config, s: State, p: int, q: int)
    requires p in s.phase && q in s.phase && q != p && Announcing(s.phase[p])
    ensures Undisturbed(s, Announce(c, s, p), q)
  {
  }

  lemma PublishUndisturbing(c: Config, c': Config, s: State, p: int, q: int)
    requires p in s.phase && q in s.phase && q != p && Publishing(s.phase[p])
    requires ProcessOk(c, s, p) && ProcessOk(c', s, q)
    ensures Undisturbed(s, Publish(c, s, p), q)
  {
  }

  /** Steps that touch neither files, nor another process, nor its workers. */
  ghost predicate Private(s: State, s': State, p: int) {
    && s'.phase.Keys == s.phase.Keys
    && (forall q :: q in s.phase && q != p ==> s'.phase[q] == s.phase[q])
    && s'.clock == s.clock && s'.ready == s.ready && s'.lock == s.lock && s'.temps == s.temps
    && s'.release == s.release && s'.published == s.published
    && s'.log == s.log && s'.began == s.began && s'.ended == s.ended
    && (forall k: (int, nat) :: k.0 != p ==> (k in s.workers <==> k in s'.workers))
    && (forall k :: k in s.workers && k.0 != p ==> s'.workers[k] == s.workers[k])
  }

  lemma PollPrivate(c: Config, s: State, p: int)
    requires p in s.phase && Looking(s.phase[p])
    ensures Private(s, Poll(c, s, p), p)
  {
    assert Poll(c, s, p).phase.Keys == s.phase.Keys;
  }

  lemma ForkPrivate(c: Config, s: State, p: int)
    requires p in s.phase && s.phase[p].Released?
    ensures Private(s, Fork(c, s, p), p)
  {
    assert Fork(c, s, p).phase.Keys == s.phase.Keys;
  }

  lemma ConcludePrivate(c: Config, s: State, p: int)
    requires p in s.phase && Concluding(s.phase[p])
    requires s.phase[p].Reaping? ==> AllExited(s, p, s.phase[p].forked)
    ensures Private(s, Conclude(c, s, p), p)
  {
    assert Conclude(c, s, p).phase.Keys == s.phase.Keys;
  }

  /** Logging the end touches nothing of the barrier. */
  lemma LogEndOutside(c: Config, s: State, p: int)
    requires p in s.phase && s.phase[p].Ending?
    ensures var s' := LogEnd(c, s, p);
      && s'.phase.Keys == s.phase.Keys
      && (forall q :: q in s.phase && q != p ==> s'.phase[q] == s.phase[q])
      && s'.clock == s.clock && s'.ready == s.ready && s'.lock == s.lock && s'.temps == s.temps
      && s'.release == s.release && s'.published == s.published
  {
    assert LogEnd(c, s, p).phase.Keys == s.phase.Keys;
  }

  lemma MainPrivate(c: Config, s: State, p: int)
    requires p in s.phase && (s.phase[p].Reaping? ==> AllExited(s, p, s.phase[p].forked))
    requires !Announcing(s.phase[p]) && !Publishing(s.phase[p]) && !s.phase[p].Ending?
    ensures Private(s, Main(c, s, p), p)
  {
    if Looking(s.phase[p]) {
      PollPrivate(c, s, p);
    } else if s.phase[p].Released? {
      ForkPrivate(c, s, p);
    } else if Concluding(s.phase[p]) {
      ConcludePrivate(c, s, p);
    }
  }

  lemma MainUndisturbing(c: Config, c': Config, s: State, p: int, q: int)
    requires p in s.phase && (s.phase[p].Reaping? ==> AllExited(s, p, s.phase[p].forked))
    requires q in s.phase && q != p && ProcessOk(c, s, p) && ProcessOk(c', s, q)
    ensures Undisturbed(s, Main(c, s, p), q)
  {
    if Announcing(s.phase[p]) {
      AnnounceUndisturbing(c, s, p, q);
    } else if Publishing(s.phase[p]) {
      PublishUndisturbing(c, c', s, p, q);
    } else if s.phase[p].Ending? {
      LogEndOutside(c, s, p);
    } else {
      MainPrivate(c, s, p);
    }
  }

  lemma AnnounceOwn(c: Config, s: State, p: int)
    requires p in s.phase && Announcing(s.phase[p]) && ProcessOk(c, s, p)
    ensures ProcessOk(c, Announce(c, s, p), p)
  {
  }

  lemma PollOwn(c: Config, s: State, p: int)
    requires p in s.phase && Looking(s.phase[p]) && ProcessOk(c, s, p)
    ensures ProcessOk(c, Poll(c, s, p), p)
  {
    assert s.ready[..|s.ready|] == s.ready;
  }

  lemma OverlookOwn(c: Config, s: State, p: int)
    requires p in s.phase && (s.phase[p].Checking? || s.phase[p].Unreleased?) && ProcessOk(c, s, p)
    ensures ProcessOk(c, Overlook(c, s, p), p)
  {
    assert |Identities(s.ready[..0])| >= 0;
  }

  lemma PublishOwn(c: Config, s: State, p: int)
    requires p in s.phase && Publishing(s.phase[p]) && ProcessOk(c, s, p)
    requires s.lock.None? ==> s.release.None?
    requires forall i :: 0 <= i < |s.ready| ==> s.ready[i].at <= s.clock
    ensures ProcessOk(c, Publish(c, s, p), p)
  {
  }

  lemma ForkOwn(c: Config, s: State, p: int)
    requires p in s.phase && s.phase[p].Released? && ProcessOk(c, s, p)
    ensures ProcessOk(c, Fork(c, s, p), p)
  {
  }

  lemma ConcludeOwn(c: Config, s: State, p: int)
    requires p in s.phase && Concluding(s.phase[p]) && ProcessOk(c, s, p)
    requires s.phase[p].Reaping? ==> AllExited(s, p, s.phase[p].forked)
    ensures ProcessOk(c, Conclude(c, s, p), p)
  {
  }

  lemma LogEndOwn(c: Config, s: State, p: int)
    requires p in s.phase && s.phase[p].Ending? && ProcessOk(c, s, p)
    ensures ProcessOk(c, LogEnd(c, s, p), p)
  {
  }

  lemma MainOwn(c: Config, s: State, p: int)
    requires p in s.phase && (s.phase[p].Reaping? ==> AllExited(s, p, s.phase[p].forked))
    requires ProcessOk(c, s, p) && (s.lock.None? ==> s.release.None?)
    requires forall i :: 0 <= i < |s.ready| ==> s.ready[i].at <= s.clock
    ensures p in Main(c, s, p).phase && ProcessOk(c, Main(c, s, p), p)
  {
    if Announcing(s.phase[p]) {
      AnnounceOwn(c, s, p);
    } else if Looking(s.phase[p]) {
      PollOwn(c, s, p);
    } else if Publishing(s.phase[p]) {
      PublishOwn(c, s, p);
    } else {
      FinishOwn(c, s, p);
    }
  }

  lemma FinishOwn(c: Config, s: State, p: int)
    requires p in s.phase && (s.phase[p].Reaping? ==> AllExited(s, p, s.phase[p].forked))
    requires !Announcing(s.phase[p]) && !Looking(s.phase[p]) && !Publishing(s.phase[p]) && ProcessOk(c, s, p)
    ensures p in Main(c, s, p).phase && ProcessOk(c, Main(c, s, p), p)
  {
    if s.phase[p].Released? {
      ForkOwn(c, s, p);
    } else if Concluding(s.phase[p]) {
      ConcludeOwn(c, s, p);
    } else if s.phase[p].Ending? {
      LogEndOwn(c, s, p);
    }
  }

  lemma AnnounceShared(setup: Setup, s: State, p: int)
    requires SharedOk(setup, s) && p in setup && Announcing(s.phase[p])
    ensures SharedOk(setup, Announce(setup[p], s, p))
  {
    var s' := Announce(setup[p], s, p);
    assert s'.phase.Keys == s.phase.Keys;
    if s.release.Some? {
      var pub := s.published[0];
      StillEnough(s.ready, s'.ready, setup[pub.pid], pub.seen);
    }
  }

  lemma PublishShared(setup: Setup, s: State, p: int)
    requires SharedOk(setup, s) && p in setup && Publishing(s.phase[p]) && ProcessOk(setup[p], s, p)
    ensures SharedOk(setup, Publish(setup[p], s, p))
  {
    assert Publish(setup[p], s, p).phase.Keys == s.phase.Keys;
  }

  lemma MainShared(setup: Setup, s: State, p: int)
    requires SharedOk(setup, s) && Enabled(setup, s, Advance(p)) && ProcessOk(setup[p], s, p)
    ensures SharedOk(setup, Main(setup[p], s, p))
  {
    if Announcing(s.phase[p]) {
      AnnounceShared(setup, s, p);
    } else if Publishing(s.phase[p]) {
      PublishShared(setup, s, p);
    } else if s.phase[p].Ending? {
      LogEndOutside(setup[p], s, p);
    } else {
      MainPrivate(setup[p], s, p);
    }
  }

  lemma ActionUndisturbing(setup: Setup, s: State, a: Action, q: int)
    requires Inv(setup, s) && Enabled(setup, s, a) && q in setup
    requires IsMain(a) ==> a.pid != q
    ensures Undisturbed(s, Do(setup, s, a), q)
  {
    if a.Advance? {
      MainUndisturbing(setup[a.pid], setup[q], s, a.pid, q);
    }
  }

  lemma ActionShared(setup: Setup, s: State, a: Action)
    requires Inv(setup, s) && Enabled(setup, s, a)
    ensures SharedOk(setup, Do(setup, s, a))
  {
    if a.Advance? {
      MainShared(setup, s, a.pid);
    } else {
      assert Do(setup, s, a).phase.Keys == s.phase.Keys;
    }
  }

  lemma ActionOwn(setup: Setup, s: State, a: Action)
    requires Inv(setup, s) && Enabled(setup, s, a)
    requires IsMain(a)
    ensures a.pid in Do(setup, s, a).phase && ProcessOk(setup[a.pid], Do(setup, s, a), a.pid)
  {
    assert ProcessOk(setup[a.pid], s, a.pid);
    if a.Advance? {
      MainOwn(setup[a.pid], s, a.pid);
    } else if a.Misread? {
      OverlookOwn(setup[a.pid], s, a.pid);
    }
  }

  lemma InvStep(setup: Setup, s: State, a: Action)
    requires Inv(setup, s) && Enabled(setup, s, a)
    ensures Inv(setup, Do(setup, s, a))
  {
    var s' := Do(setup, s, a);
    ActionShared(setup, s, a);
    forall q | q in setup ensures ProcessOk(setup[q], s', q) {
      if IsMain(a) && a.pid == q {
        ActionOwn(setup, s, a);
      } else {
        ActionUndisturbing(setup, s, a, q);
        Stable(setup[q], s, s', q);
      }
    }
  }

  lemma {:induction false} InvAlways(setup: Setup, clock: nat, actions: seq<Action>)
    ensures var r := Play(setup, clock, actions); r.Some? ==> Inv(setup, r.value)
  {
    if actions != [] {
      InvAlways(setup, clock, Front(actions));
      var r := Play(setup, clock, Front(actions));
      if r.Some? && Enabled(setup, r.value, Last(actions)) {
        InvStep(setup, r.value, Last(actions));
      }
    }
  }

  // ---------------------------------------------------------------- what it gives

  /** In every reachable state: at most one process has published; whoever has
      returned from the barrier has that one epoch; and before it was published
      the winner had seen its number of distinct identities, each having arrived
      at least the winner's delay before the epoch; and the epoch is no further
      ahead of the clock than that delay. */
  lemma BarrierIsSafe(setup: Setup, s: State)
    requires Reachable(setup, s)
    ensures |s.published| <= 1
    ensures forall p :: p in s.phase && Epoch(s.phase[p]).Some? ==>
      && s.published != []
      && Epoch(s.phase[p]) == Some(s.published[0].epoch)
      && s.published[0].pid in setup
      && Enough(s.ready, setup[s.published[0].pid], s.published[0].seen)
      && Delayed(s.ready, setup[s.published[0].pid], s.published[0].seen, s.published[0].epoch)
      && s.published[0].epoch <= s.clock + setup[s.published[0].pid].delay
  {
    var clock, actions :| Play(setup, clock, actions) == Some(s);
    InvAlways(setup, clock, actions);
    forall p | p in s.phase && Epoch(s.phase[p]).Some?
      ensures s.release == Epoch(s.phase[p])
    {
      assert p in setup;
      assert ProcessOk(setup[p], s, p);
    }
  }

  /** The lock is held by a process that can no longer publish. */
  ghost predicate DeadLock(s: State) {
    && s.lock.Some? && s.release.None?
    && s.lock.value in s.phase
    && !s.phase[s.lock.value].Holding? && !s.phase[s.lock.value].Written?
  }

  lemma DeadLockStep(setup: Setup, s: State, a: Action)
    requires Inv(setup, s) && DeadLock(s) && Enabled(setup, s, a)
    ensures DeadLock(Do(setup, s, a))
  {
    if a.Advance? {
      assert ProcessOk(setup[a.pid], s, a.pid);
      MainDeadLock(setup[a.pid], s, a.pid);
    }
  }

  lemma PublishDeadLock(c: Config, s: State, p: int)
    requires DeadLock(s) && p in s.phase && Publishing(s.phase[p]) && ProcessOk(c, s, p)
    ensures DeadLock(Publish(c, s, p))
  {
  }

  lemma AnnounceDeadLock(c: Config, s: State, p: int)
    requires DeadLock(s) && p in s.phase && Announcing(s.phase[p])
    ensures DeadLock(Announce(c, s, p))
  {
  }

  lemma PollDeadLock(c: Config, s: State, p: int)
    requires DeadLock(s) && p in s.phase && Looking(s.phase[p])
    ensures DeadLock(Poll(c, s, p))
  {
  }

  lemma MainDeadLock(c: Config, s: State, p: int)
    requires p in s.phase && (s.phase[p].Reaping? ==> AllExited(s, p, s.phase[p].forked))
    requires DeadLock(s) && ProcessOk(c, s, p)
    ensures DeadLock(Main(c, s, p))
  {
    if Announcing(s.phase[p]) {
      AnnounceDeadLock(c, s, p);
    } else if Publishing(s.phase[p]) {
      PublishDeadLock(c, s, p);
    } else if Looking(s.phase[p]) {
      PollDeadLock(c, s, p);
    }
  }

  /** The run continues from `s` with further actions. */
  function Continue(setup: Setup, s: State, actions: seq<Action>): Option<State> {
    if actions == [] then Some(s)
    else
      var r := Continue(setup, s, Front(actions));
      if r.Some? && Enabled(setup, r.value, Last(actions)) then Some(Do(setup, r.value, Last(actions)))
      else None
  }

  lemma {:induction false} DeadLockForever(setup: Setup, s: State, actions: seq<Action>)
    requires Inv(setup, s) && DeadLock(s)
    ensures var r := Continue(setup, s, actions); r.Some? ==> Inv(setup, r.value) && DeadLock(r.value)
  {
    if actions != [] {
      DeadLockForever(setup, s, Front(actions));
      var r := Continue(setup, s, Front(actions));
      if r.Some? && Enabled(setup, r.value, Last(actions)) {
        InvStep(setup, r.value, Last(actions));
        DeadLockStep(setup, r.value, Last(actions));
      }
    }
  }

  /** If the lock winner dies or fails before publishing, the barrier stays shut:
      from then on no process ever gets an epoch, however the run continues. */
  lemma DeadWinnerShutsBarrier(setup: Setup, s: State, actions: seq<Action>, s': State)
    requires Reachable(setup, s) && DeadLock(s) && Continue(setup, s, actions) == Some(s')
    ensures s'.release.None? && s'.published == []
    ensures forall p :: p in s'.phase ==> Epoch(s'.phase[p]).None?
  {
    var clock, before :| Play(setup, clock, before) == Some(s);
    InvAlways(setup, clock, before);
    DeadLockForever(setup, s, actions);
    forall p | p in s'.phase ensures Epoch(s'.phase[p]).None? {
      assert p in setup;
      assert ProcessOk(setup[p], s', p);
    }
  }
}
