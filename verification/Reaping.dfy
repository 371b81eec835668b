/** How a guest waits for its workers: it polls each unreaped child without
    blocking, drops those that have ended and keeps their exit codes. Polling
    until no child remains is the single waiting step of the guest model. */
module Reaping {
  import opened Sequences
  import opened Guest
  import opened BarrierLaws
  import opened GuestLaws

  /** What `waitpid` with `WNOHANG` says of one child. */
  datatype Answer = StillRunning | NotAChild | Ended(code: int)

  /** The unreaped children and the exit codes of the others. */
  datatype Tally<!Child(==)> = Tally(remaining: set<Child>, statuses: map<Child, int>)

  /** A child that someone else reaped counts as failed with 70. */
  function Code(a: Answer): int {
    if a.Ended? then a.code else 70
  }

  /** The children in `asked` that are no longer running. */
  function Gone<Child(!new)>(t: Tally<Child>, asked: set<Child>, waitpid: Child -> Answer): set<Child> {
    set c | c in t.remaining && c in asked && !waitpid(c).StillRunning?
  }

  function Codes<Child(!new)>(gone: set<Child>, waitpid: Child -> Answer): map<Child, int> {
    map c | c in gone :: Code(waitpid(c))
  }

  /** The tally after every remaining child in `asked` has been polled. */
  function Reaped<Child(!new)>(t: Tally<Child>, asked: set<Child>, waitpid: Child -> Answer): Tally<Child> {
    var gone := Gone(t, asked, waitpid);
    Tally(t.remaining - gone, t.statuses + Codes(gone, waitpid))
  }

  /** What the answer for one child does to a tally. */
  function Settle<Child>(t: Tally<Child>, child: Child, a: Answer): Tally<Child> {
    if a.StillRunning? then t
    else Tally(t.remaining - {child}, t.statuses[child := Code(a)])
  }

  lemma ReapedOne<Child(!new)>(t: Tally<Child>, asked: set<Child>, waitpid: Child -> Answer, child: Child)
    requires child in t.remaining && child !in asked
    ensures Reaped(t, asked + {child}, waitpid) == Settle(Reaped(t, asked, waitpid), child, waitpid(child))
  {
    var gone, gone' := Gone(t, asked, waitpid), Gone(t, asked + {child}, waitpid);
    if waitpid(child).StillRunning? {
      assert gone' == gone;
    } else {
      assert gone' == gone + {child};
      assert Codes(gone', waitpid) == Codes(gone, waitpid)[child := Code(waitpid(child))];
      assert t.remaining - gone' == t.remaining - gone - {child};
    }
  }

  /** What one pass does to each child that was left: it stays if it still runs, and
      otherwise goes with its exit code, or with 70 if it is no child any more. */
  lemma PassIsExact<Child(!new)>(t: Tally<Child>, waitpid: Child -> Answer, c: Child)
    requires c in t.remaining
    ensures var r := Reaped(t, t.remaining, waitpid);
      match waitpid(c)
      case StillRunning => c in r.remaining && (c in r.statuses <==> c in t.statuses)
      case Ended(code) => c !in r.remaining && c in r.statuses && r.statuses[c] == code
      case NotAChild => c !in r.remaining && c in r.statuses && r.statuses[c] == 70
  {
  }

  class Reaper<Child(!new, ==)> {
    var remaining: set<Child>
    var statuses: map<Child, int>

    constructor (children: set<Child>)
      ensures Value() == Tally(children, map[])
    {
      remaining, statuses := children, map[];
    }

    ghost function Value(): Tally<Child>
      reads this
    {
      Tally(remaining, statuses)
    }

    /** One pass over the children that remain. */
    method ReapNonblocking(waitpid: Child -> Answer)
      modifies this
      ensures Value() == Reaped(old(Value()), old(remaining), waitpid)
    {
      var todo := remaining;
      ghost var before := Value();
      while todo != {}
        invariant todo <= before.remaining && remaining <= before.remaining
        invariant Value() == Reaped(before, before.remaining - todo, waitpid)
      {
        var child :| child in todo;
        ReapedOne(before, before.remaining - todo, waitpid, child);
        assert before.remaining - (todo - {child}) == before.remaining - todo + {child};
        todo := todo - {child};
        if !waitpid(child).StillRunning? {
          remaining, statuses := remaining - {child}, statuses[child := Code(waitpid(child))];
        }
      }
      assert before.remaining - todo == before.remaining;
    }
  }

  // ---------------------------------------------------------------- the waiting loop

  /** What `waitpid` tells process `p` of its `j`-th worker in state `s`. */
  function Ask(s: State, p: int): nat -> Answer {
    (j: nat) =>
      if (p, j) !in s.workers then NotAChild
      else if s.workers[(p, j)].Exited? then Ended(s.workers[(p, j)].code)
      else StillRunning
  }

  /** Workers are numbered in the order they were forked. */
  function Children(forked: nat): (r: set<nat>)
    ensures forall j: nat :: j in r <==> j < forked
  {
    if forked == 0 then {} else Children(forked - 1) + {forked - 1}
  }

  /** The tally after polling once in each of the visited states. */
  function Polled(p: int, forked: nat, visits: seq<State>): Tally<nat> {
    if visits == [] then Tally(Children(forked), map[])
    else
      var t := Polled(p, forked, Front(visits));
      Reaped(t, t.remaining, Ask(Last(visits), p))
  }

  /** Some actions lead from `s` to `s'`. */
  ghost predicate Leads(setup: Setup, s: State, s': State) {
    exists actions :: Continue(setup, s, actions) == Some(s')
  }

  /** States of one run, in order, in each of which `p` waits for its workers. */
  ghost predicate WaitingVisits(setup: Setup, p: int, visits: seq<State>) {
    && p in setup
    && (forall i :: 0 <= i < |visits| ==> Reachable(setup, visits[i]))
    && (forall i :: 0 <= i < |visits| ==> p in visits[i].phase && visits[i].phase[p].Reaping?)
    && (forall i :: 1 <= i < |visits| ==> Leads(setup, visits[i - 1], visits[i]))
  }

  // ---------------------------------------------------------------- workers that exited stay so

  /** Past forking. */
  predicate Settled(f: Phase) {
    f.Reaping? || f.Ending? || f.Done? || f.Crashed?
  }

  /** `p` forks no more, keeps waiting only as it did, and its exited workers keep
      their codes. */
  ghost predicate Later(s: State, s': State, p: int) {
    && p in s.phase && p in s'.phase && Settled(s.phase[p]) && Settled(s'.phase[p])
    && (s'.phase[p].Reaping? ==> s'.phase[p] == s.phase[p])
    && (forall j: nat :: (p, j) in s.workers && s.workers[(p, j)].Exited? ==>
        (p, j) in s'.workers && s'.workers[(p, j)] == s.workers[(p, j)])
  }

  lemma StepLater(setup: Setup, s: State, a: Action, p: int)
    requires Inv(setup, s) && p in setup && Settled(s.phase[p]) && Enabled(setup, s, a)
    ensures Later(s, Do(setup, s, a), p)
  {
    if IsMain(a) && a.pid == p {
      if a.Advance? {
        KeptByMain(setup[p], s, p);
      }
    } else {
      ActionQuiet(setup, s, a, p);
    }
  }

  lemma {:induction false} RunLater(setup: Setup, s: State, actions: seq<Action>, p: int)
    requires Inv(setup, s) && p in setup && Settled(s.phase[p])
    ensures var r := Continue(setup, s, actions); r.Some? ==> Inv(setup, r.value) && Later(s, r.value, p)
  {
    if actions != [] {
      RunLater(setup, s, Front(actions), p);
      var r := Continue(setup, s, Front(actions));
      if r.Some? && Enabled(setup, r.value, Last(actions)) {
        InvStep(setup, r.value, Last(actions));
        StepLater(setup, r.value, Last(actions), p);
      }
    }
  }

  // ---------------------------------------------------------------- polling is waiting

  /** The tally splits the children into those still running and the exit codes
      of the others. */
  ghost predicate Exact(s: State, p: int, forked: nat, t: Tally<nat>) {
    && t.remaining <= Children(forked)
    && t.statuses.Keys == Children(forked) - t.remaining
    && (forall j: nat :: j < forked ==> (p, j) in s.workers)
    && (forall j: nat :: j < forked ==> (j in t.remaining <==> !s.workers[(p, j)].Exited?))
    && (forall j :: j in t.statuses ==> s.workers[(p, j)].Exited? && t.statuses[j] == s.workers[(p, j)].code)
  }

  /** A tally none of whose codes is out of date. */
  ghost predicate Current(s: State, p: int, forked: nat, t: Tally<nat>) {
    && t.remaining <= Children(forked)
    && t.statuses.Keys == Children(forked) - t.remaining
    && (forall j: nat :: j < forked ==> (p, j) in s.workers)
    && (forall j :: j in t.statuses ==>
        (p, j) in s.workers && s.workers[(p, j)].Exited? && t.statuses[j] == s.workers[(p, j)].code)
  }

  lemma PollIsExact(s: State, p: int, forked: nat, t: Tally<nat>)
    requires Current(s, p, forked, t)
    ensures Exact(s, p, forked, Reaped(t, t.remaining, Ask(s, p)))
  {
  }

  lemma StillCurrent(s: State, s': State, p: int, forked: nat, t: Tally<nat>)
    requires Exact(s, p, forked, t) && Later(s, s', p)
    requires forall j: nat :: j < forked ==> (p, j) in s'.workers
    ensures Current(s', p, forked, t)
  {
  }

  lemma WorkersForked(setup: Setup, s: State, p: int)
    requires Reachable(setup, s) && p in setup && p in s.phase && s.phase[p].Reaping?
    ensures Inv(setup, s) && forall j: nat :: j < s.phase[p].forked ==> (p, j) in s.workers
  {
    ReachableInv(setup, s);
    assert GuestOk(setup[p], s, p);
  }

  lemma {:induction false} PolledIsExact(setup: Setup, p: int, visits: seq<State>)
    requires WaitingVisits(setup, p, visits) && visits != []
    ensures Last(visits).phase[p] == visits[0].phase[p]
    ensures Exact(Last(visits), p, visits[0].phase[p].forked, Polled(p, visits[0].phase[p].forked, visits))
  {
    var forked, s, before := visits[0].phase[p].forked, Last(visits), Front(visits);
    var t := Polled(p, forked, before);
    WorkersForked(setup, s, p);
    if before != [] {
      PolledIsExact(setup, p, before);
      assert Leads(setup, visits[|visits| - 2], visits[|visits| - 1]);
      WorkersForked(setup, Last(before), p);
      var actions :| Continue(setup, Last(before), actions) == Some(s);
      RunLater(setup, Last(before), actions, p);
      StillCurrent(Last(before), s, p, forked, t);
    }
    PollIsExact(s, p, forked, t);
  }

  /** The loop ends exactly when every worker has exited, whatever the moments of
      the polls, and its verdict is then that of the one waiting step. */
  lemma PollingIsWaiting(setup: Setup, p: int, visits: seq<State>)
    requires WaitingVisits(setup, p, visits) && visits != []
    ensures
      var s, forked := Last(visits), visits[0].phase[p].forked;
      var t := Polled(p, forked, visits);
      && s.phase[p] == visits[0].phase[p]
      && (t.remaining == {} <==> AllExited(s, p, forked))
      && (t.remaining == {} ==>
          ((forall j :: j in t.statuses ==> t.statuses[j] == 0) <==> AllSucceeded(s, p, forked)))
  {
    PolledIsExact(setup, p, visits);
    var s, forked := Last(visits), visits[0].phase[p].forked;
    var t := Polled(p, forked, visits);
    if t.remaining == {} {
      assert forall j: nat :: j < forked ==> j in Children(forked) && j in t.statuses;
    }
  }
}
