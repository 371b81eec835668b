/** When a log is well bracketed, and who is live at an instant, both read off
    the raw records without matching them. */
module LiveSets {
  import opened Sequences
  import opened Sorting
  import opened Events
  import opened Lifetimes
  import opened LifetimeLaws

  // ---------------------------------------------------------------- records by their fields

  function SideOf(k: Key): Side {
    if k.StepKey? then Steps else Workers
  }

  /** The record's kind is that of a start, or of an end, of such an identity. */
  predicate OfKind(k: Key, isStart: bool, e: Event) {
    if k.StepKey? then e.kind == (if isStart then StepStart else StepEnd)
    else e.kind == (if isStart then WorkerStart else WorkerEnd)
  }

  predicate Names(k: Key, e: Event) {
    match k
    case StepKey(step, pid) => e.step == Some(step) && e.pid == Some(pid)
    case WorkerKey(step, worker, pid) => e.step == Some(step) && e.worker == Some(worker) && e.pid == Some(pid)
  }

  /** The record is a start, or an end, of identity `k`. */
  predicate Delimits(k: Key, isStart: bool, e: Event) {
    OfKind(k, isStart, e) && Names(k, e) && e.ts.Some?
  }

  function OwnRecord(k: Key): Event -> bool {
    (e: Event) => Delimits(k, true, e) || Delimits(k, false, e)
  }

  /** A start or end record that lacks its instant or part of its identity. */
  predicate Incomplete(side: Side, e: Event) {
    match side
    case Steps =>
      (e.kind == StepStart || e.kind == StepEnd) && (e.ts.None? || e.step.None? || e.pid.None?)
    case Workers =>
      && (e.kind == WorkerStart || e.kind == WorkerEnd)
      && (e.ts.None? || e.step.None? || e.worker.None? || e.pid.None?)
  }

  /** The matcher reads a record as its fields say. */
  lemma ReadIs(side: Side, e: Event, k: Key, isStart: bool)
    ensures Read(side, e).Malformed? <==> Incomplete(side, e)
    ensures Read(side, e).Edge? && Read(side, e).key == k && Read(side, e).isStart == isStart <==>
      SideOf(k) == side && Delimits(k, isStart, e)
    ensures Read(side, e).Edge? ==> e.ts == Some(Read(side, e).at)
  {
  }

  lemma TraceIsOwn(k: Key, events: seq<Event>)
    ensures Trace(SideOf(k), k, events) == Filter(OwnRecord(k), events)
  {
    forall i | 0 <= i < |events| ensures OfKey(SideOf(k), k)(events[i]) == OwnRecord(k)(events[i]) {
      ReadIs(SideOf(k), events[i], k, true);
      ReadIs(SideOf(k), events[i], k, false);
    }
    FilterSame(OfKey(SideOf(k), k), OwnRecord(k), events);
  }

  // ---------------------------------------------------------------- well-bracketed logs

  /** Starts and ends of `k` take turns, a start first. */
  ghost predicate Alternates(k: Key, trace: seq<Event>) {
    trace == [] || (Alternates(k, Front(trace)) && Delimits(k, |trace| % 2 == 1, Last(trace)))
  }

  /** The records of `k` by time, those of one instant in log order. */
  ghost function InTime(k: Key, events: seq<Event>): seq<Event> {
    Sort(ByTime, Filter(OwnRecord(k), events))
  }

  /** Every start and end record is complete, and every identity's records, in time
      order, alternate and close. */
  ghost predicate WellBracketed(side: Side, events: seq<Event>) {
    && (forall e :: e in events ==> !Incomplete(side, e))
    && (forall k :: SideOf(k) == side ==> Alternates(k, InTime(k, events)) && |InTime(k, events)| % 2 == 0)
  }

  ghost predicate AllOfKey(side: Side, k: Key, es: seq<Event>) {
    forall e :: e in es ==> Read(side, e).Edge? && Read(side, e).key == k
  }

  /** One identity's records in time order: no issue exactly when they alternate,
      and then a lifetime is open exactly when their number is odd. */
  lemma {:induction false} TraceBrackets(side: Side, k: Key, es: seq<Event>)
    requires AllOfKey(side, k, es) && EdgesInTime(side, es)
    ensures Run(side, es).issues == [] <==> Alternates(k, es)
    ensures Alternates(k, es) ==>
      Run(side, es).open.Keys == if |es| % 2 == 1 then {k} else {}
  {
    if es != [] {
      var f, e := Front(es), Last(es);
      OpenedEarlier(side, k, es);
      TraceBrackets(side, k, f);
      var odd := |f| % 2 == 1;
      assert |es| == |f| + 1;
      assert (|es| % 2 == 1) == !odd;
      AcceptBrackets(k, Run(side, f), Read(side, e), odd);
      ReadIs(side, e, k, !odd);
    }
  }

  lemma AcceptBrackets(k: Key, m: Matching, mark: Mark, odd: bool)
    requires mark.Edge? && mark.key == k
    requires m.issues == [] ==> m.open.Keys == if odd then {k} else {}
    requires k in m.open ==> m.open[k] <= mark.at
    ensures var m' := Accept(m, mark);
      && (m'.issues == [] <==> m.issues == [] && mark.isStart == !odd)
      && (m'.issues == [] ==> m'.open.Keys == if odd then {} else {k})
  {
  }

  lemma OpenIsEarlier(side: Side, k: Key, f: seq<Event>, now: int)
    requires AllOfKey(side, k, f) && EdgesInTime(side, f) && f != []
    requires Read(side, Last(f)).at <= now
    ensures k in Run(side, f).open ==> Run(side, f).open[k] <= now
  {
    assert EdgesBefore(side, f, now) by {
      forall e | e in f && Read(side, e).Edge? ensures Read(side, e).at <= now {
        var i :| 0 <= i < |f| && f[i] == e;
        assert Last(f) in f;
      }
    }
    RunInTime(side, f, now);
  }

  lemma TraceInTime(side: Side, k: Key, events: seq<Event>)
    requires Orderable(events)
    ensures var trace := Sort(ByTime, Trace(side, k, events));
      AllOfKey(side, k, trace) && EdgesInTime(side, trace)
  {
    var trace := Trace(side, k, events);
    FilterMembers(OfKey(side, k), events);
    SortMembers(ByTime, trace);
    SortedInTime(side, trace);
  }

  lemma KeyBrackets(k: Key, events: seq<Event>)
    requires Orderable(events)
    ensures var m := Matched(SideOf(k), events);
      Filter(IssueOf(k), m.issues) == [] && k !in m.open <==>
      Alternates(k, InTime(k, events)) && |InTime(k, events)| % 2 == 0
  {
    MatchedProjects(SideOf(k), k, events);
    TraceIsOwn(k, events);
    TraceInTime(SideOf(k), k, events);
    TraceBrackets(SideOf(k), k, InTime(k, events));
  }

  /** What the matcher says of an identity is about records of its own side. */
  lemma {:induction false} KeysOfSide(side: Side, es: seq<Event>)
    ensures var m := Run(side, es);
      && (forall k :: k in m.open ==> SideOf(k) == side)
      && (forall v :: v in m.intervals ==> SideOf(v.key) == side)
      && (forall i :: i in m.issues && !i.MalformedRecord? ==> SideOf(i.key) == side)
  {
    if es != [] {
      KeysOfSide(side, Front(es));
      var mark := Read(side, Last(es));
      if mark.Edge? {
        ReadIs(side, Last(es), mark.key, mark.isStart);
      }
    }
  }

  lemma MalformedReported(side: Side, events: seq<Event>)
    ensures (exists i :: 0 <= i < |Matched(side, events).issues| && Matched(side, events).issues[i].MalformedRecord?)
      <==> exists e :: e in events && Incomplete(side, e)
  {
    forall e ensures Read(side, e).Malformed? <==> Incomplete(side, e) {
      ReadIs(side, e, StepKey("", 0), true);
    }
    var issues, ordered := Matched(side, events).issues, Sort(ByTime, events);
    SortMembers(ByTime, events);
    if i :| 0 <= i < |issues| && issues[i].MalformedRecord? {
      MalformedIssues(side, issues[i].isStart, ordered);
      assert issues[i] in multiset(issues);
      CountPositive(IsMalformed(side, issues[i].isStart), ordered);
    }
    if e :| e in events && Incomplete(side, e) {
      var isStart := Read(side, e).isStart;
      var j :| 0 <= j < |ordered| && ordered[j] == e;
      CountPositive(IsMalformed(side, isStart), ordered);
      MalformedIssues(side, isStart, ordered);
      assert MalformedRecord(isStart) in multiset(issues);
      assert MalformedRecord(isStart) in issues;
    }
  }

  lemma BagEmpty(m: Matching)
    ensures IssueBag(m) == multiset{} <==> m.issues == [] && m.open == map[]
  {
    if m.issues != [] {
      assert m.issues[0] in IssueBag(m);
    }
    if k :| k in m.open.Keys {
      assert StartWithoutEnd(k) in (set j | j in m.open.Keys :: StartWithoutEnd(j));
      assert StartWithoutEnd(k) in IssueBag(m);
    }
    if m.issues == [] && m.open == map[] {
      assert (set j | j in m.open.Keys :: StartWithoutEnd(j)) == {};
    }
  }

  /** The matcher reports nothing exactly when every record of its kind is well
      formed and every identity's records, in time order, alternate and close. */
  lemma NoIssuesIffBracketed(side: Side, events: seq<Event>)
    requires Orderable(events)
    ensures IssueBag(Matched(side, events)) == multiset{} <==> WellBracketed(side, events)
  {
    var m := Matched(side, events);
    BagEmpty(m);
    MalformedReported(side, events);
    KeysOfSide(side, Sort(ByTime, events));
    if m.issues == [] && m.open == map[] {
      forall k | SideOf(k) == side
        ensures Alternates(k, InTime(k, events)) && |InTime(k, events)| % 2 == 0
      {
        KeyBrackets(k, events);
      }
    }
    if WellBracketed(side, events) {
      if m.issues != [] {
        var i := m.issues[0];
        assert !i.MalformedRecord?;
        FilterMembers(IssueOf(i.key), m.issues);
        assert i in Filter(IssueOf(i.key), m.issues);
        KeyBrackets(i.key, events);
        assert false;
      }
      if k :| k in m.open {
        KeyBrackets(k, events);
        assert false;
      }
    }
  }

  // ---------------------------------------------------------------- who is live

  /** Starts, or ends, of `k` stamped at or before `t`. */
  function EdgeBy(k: Key, isStart: bool, t: int): Event -> bool {
    (e: Event) => Delimits(k, isStart, e) && e.ts.value <= t
  }

  /** An identity is live at `t` when more of its starts than of its ends are
      stamped at or before `t`. */
  ghost predicate Live(events: seq<Event>, k: Key, t: int) {
    Count(EdgeBy(k, true, t), events) > Count(EdgeBy(k, false, t), events)
  }

  /** The identities of one side that are live at `t`. */
  ghost predicate IsLiveSet(side: Side, events: seq<Event>, t: int, live: set<Key>) {
    forall k :: k in live <==> SideOf(k) == side && Live(events, k, t)
  }

  /** What one more record of `k` does to its balance of starts over ends by `t`. */
  function Shift(mark: Mark, t: int): int
    requires mark.Edge?
  {
    if mark.at > t then 0 else if mark.isStart then 1 else -1
  }

  function Balance(k: Key, es: seq<Event>, t: int): int {
    Count(EdgeBy(k, true, t), es) - Count(EdgeBy(k, false, t), es)
  }

  lemma BalanceSnoc(side: Side, k: Key, es: seq<Event>, t: int)
    requires es != [] && Read(side, Last(es)).Edge? && Read(side, Last(es)).key == k
    ensures Balance(k, es, t) == Balance(k, Front(es), t) + Shift(Read(side, Last(es)), t)
  {
    ReadIs(side, Last(es), k, true);
    ReadIs(side, Last(es), k, false);
  }

  /** Lifetimes of `k` that contain `t`, closed or still open. */
  function LiveNow(k: Key, m: Matching, t: int): int {
    Count(LiveAt(t), m.intervals) + (if k in m.open && m.open[k] <= t then 1 else 0)
  }

  lemma OpenedEarlier(side: Side, k: Key, es: seq<Event>)
    requires AllOfKey(side, k, es) && EdgesInTime(side, es) && es != []
    ensures var m := Run(side, Front(es)); k in m.open ==> m.open[k] <= Read(side, Last(es)).at
  {
    if Front(es) != [] {
      OpenIsEarlier(side, k, Front(es), Read(side, Last(es)).at);
    }
  }

  lemma {:induction false} TraceLive(side: Side, k: Key, es: seq<Event>, t: int)
    requires AllOfKey(side, k, es) && EdgesInTime(side, es)
    requires Run(side, es).issues == []
    ensures Balance(k, es, t) == LiveNow(k, Run(side, es), t)
  {
    if es != [] {
      OpenedEarlier(side, k, es);
      BalanceSnoc(side, k, es, t);
      AcceptLive(k, Run(side, Front(es)), Read(side, Last(es)), t);
      TraceLive(side, k, Front(es), t);
    }
  }

  lemma AcceptLive(k: Key, m: Matching, mark: Mark, t: int)
    requires mark.Edge? && mark.key == k
    requires k in m.open ==> m.open[k] <= mark.at
    requires Accept(m, mark).issues == []
    ensures m.issues == []
    ensures LiveNow(k, Accept(m, mark), t) == LiveNow(k, m, t) + Shift(mark, t)
  {
    if !mark.isStart && k in m.open {
      CountSnoc(LiveAt(t), m.intervals, Interval(k, m.open[k], mark.at));
    }
  }

  lemma TraceCounts(k: Key, isStart: bool, t: int, events: seq<Event>)
    ensures Count(EdgeBy(k, isStart, t), events) == Count(EdgeBy(k, isStart, t), InTime(k, events))
  {
    var p, own := EdgeBy(k, isStart, t), Filter(OwnRecord(k), events);
    CountInFilter(p, OwnRecord(k), events);
    SortPermutes(ByTime, own);
    CountOfPermutation(p, own, InTime(k, events));
  }

  lemma KeyBalance(events: seq<Event>, k: Key, t: int)
    requires Orderable(events) && WellBracketed(SideOf(k), events)
    ensures Balance(k, events, t) == Count(LiveAt(t), Filter(IntervalOf(k), Matched(SideOf(k), events).intervals))
  {
    KeyBrackets(k, events);
    MatchedProjects(SideOf(k), k, events);
    TraceIsOwn(k, events);
    TraceInTime(SideOf(k), k, events);
    TraceLive(SideOf(k), k, InTime(k, events), t);
    TraceCounts(k, true, t, events);
    TraceCounts(k, false, t, events);
  }

  lemma SomeLiveOfKey(s: seq<Interval>, k: Key, t: int)
    ensures Count(LiveAt(t), Filter(IntervalOf(k), s)) > 0 <==>
      exists v :: v in s && v.key == k && v.start <= t < v.end
  {
    var own := Filter(IntervalOf(k), s);
    FilterMembers(IntervalOf(k), s);
    CountPositive(LiveAt(t), own);
    if v :| v in s && v.key == k && v.start <= t < v.end {
      assert IntervalOf(k)(v);
      var i :| 0 <= i < |own| && own[i] == v;
      assert LiveAt(t)(own[i]);
    }
    if i :| 0 <= i < |own| && LiveAt(t)(own[i]) {
      assert own[i] in own;
    }
  }

  /** In a well-bracketed log an identity is live at `t` exactly when one of its
      matched lifetimes contains `t`. */
  lemma LiveIffInterval(events: seq<Event>, k: Key, t: int)
    requires Orderable(events) && WellBracketed(SideOf(k), events)
    ensures Live(events, k, t) <==>
      exists v :: v in Matched(SideOf(k), events).intervals && v.key == k && v.start <= t < v.end
  {
    KeyBalance(events, k, t);
    SomeLiveOfKey(Matched(SideOf(k), events).intervals, k, t);
  }

  lemma {:induction false} FilterSequential(p: Interval -> bool, s: seq<Interval>)
    requires Sequential(s)
    ensures Sequential(Filter(p, s))
  {
    if s != [] {
      FilterSequential(p, Front(s));
      FilterMembers(p, Front(s));
      var f := Filter(p, Front(s));
      forall i | 0 <= i < |f| && f[i].key == Last(s).key ensures f[i].end <= Last(s).start {
        assert f[i] in f;
        var j :| 0 <= j < |s| - 1 && s[j] == f[i];
      }
    }
  }

  function KeyOf(v: Interval): Key {
    v.key
  }

  /** The lifetimes containing `t` belong to different identities. */
  lemma LiveKeysDistinct(s: seq<Interval>, t: int)
    requires Sequential(s)
    ensures NoDuplicates(Map(KeyOf, Filter(LiveAt(t), s)))
    ensures |set v | v in s && v.start <= t < v.end :: v.key| == Count(LiveAt(t), s)
  {
    var live := Filter(LiveAt(t), s);
    FilterSequential(LiveAt(t), s);
    FilterMembers(LiveAt(t), s);
    var keys := Map(KeyOf, live);
    forall i, j | 0 <= i < j < |keys| ensures keys[i] != keys[j] {
      assert live[i] in live && live[j] in live;
    }
    DistinctCardinality(keys);
    assert (set x | x in keys) == set v | v in s && v.start <= t < v.end :: v.key by {
      forall x | x in keys ensures exists v :: v in s && v.start <= t < v.end && v.key == x {
        var i :| 0 <= i < |keys| && keys[i] == x;
        assert live[i] in live;
      }
      forall v | v in s && v.start <= t < v.end ensures v.key in keys {
        assert LiveAt(t)(v);
        var i :| 0 <= i < |live| && live[i] == v;
        assert keys[i] == v.key;
      }
    }
    CountIsFilterLength(LiveAt(t), s);
  }

  /** The number of matched lifetimes containing `t` is the number of identities
      live at `t` according to the raw log. */
  lemma LiveCount(side: Side, events: seq<Event>, t: int) returns (live: set<Key>)
    requires Orderable(events) && WellBracketed(side, events)
    ensures IsLiveSet(side, events, t, live)
    ensures |live| == Count(LiveAt(t), Matched(side, events).intervals)
  {
    var s := Matched(side, events).intervals;
    LifetimesAreSequential(side, events);
    LiveKeysDistinct(s, t);
    KeysOfSide(side, Sort(ByTime, events));
    live := set v | v in s && v.start <= t < v.end :: v.key;
    forall k ensures k in live <==> SideOf(k) == side && Live(events, k, t) {
      if SideOf(k) == side {
        LiveIffInterval(events, k, t);
      }
    }
  }
}
