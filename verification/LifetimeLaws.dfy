/** What the lifetimes matched from a log mean, for every log. */
module LifetimeLaws {
  import opened Sequences
  import opened Sorting
  import opened Events
  import opened Lifetimes

  // ---------------------------------------------------------------- independence of interleaving

  /** `b` is `a` with the records of different identities interleaved differently. */
  ghost predicate SameTraces(side: Side, a: seq<Event>, b: seq<Event>) {
    && multiset(a) == multiset(b)
    && forall k :: Trace(side, k, a) == Trace(side, k, b)
  }

  lemma {:induction false} FilterMultiplicity<T>(p: T -> bool, s: seq<T>, x: T)
    requires p(x)
    ensures multiset(Filter(p, s))[x] == multiset(s)[x]
  {
    if s != [] {
      FilterMultiplicity(p, Front(s), x);
      assert s == Front(s) + [Last(s)];
    }
  }

  /** One identity's share of the result is the matcher run on that identity's
      records alone, sorted by time. */
  lemma MatchedProjects(side: Side, k: Key, events: seq<Event>)
    ensures var m, p := Matched(side, events), Matched(side, Trace(side, k, events));
      && (k in m.open <==> k in p.open)
      && (k in m.open ==> m.open[k] == p.open[k])
      && Filter(IntervalOf(k), m.intervals) == p.intervals
      && Filter(IssueOf(k), m.issues) == p.issues
      && p.open.Keys <= {k}
  {
    RunProjects(side, k, Sort(ByTime, events));
    SortFilters(ByTime, OfKey(side, k), events);
  }

  function IsMalformed(side: Side, isStart: bool): Event -> bool {
    (e: Event) => Read(side, e) == Malformed(isStart)
  }

  lemma {:induction false} MalformedIssues(side: Side, isStart: bool, es: seq<Event>)
    ensures multiset(Run(side, es).issues)[MalformedRecord(isStart)] == Count(IsMalformed(side, isStart), es)
  {
    if es != [] {
      MalformedIssues(side, isStart, Front(es));
      AcceptMalformed(isStart, Run(side, Front(es)), Read(side, Last(es)));
    }
  }

  lemma AcceptMalformed(isStart: bool, m: Matching, mark: Mark)
    ensures multiset(Accept(m, mark).issues)[MalformedRecord(isStart)] ==
      multiset(m.issues)[MalformedRecord(isStart)] + (if mark == Malformed(isStart) then 1 else 0)
  {
  }

  lemma OpenOfSameTraces(side: Side, a: seq<Event>, b: seq<Event>)
    requires forall k :: Trace(side, k, a) == Trace(side, k, b)
    ensures Matched(side, a).open == Matched(side, b).open
  {
    forall k ensures k in Matched(side, a).open <==> k in Matched(side, b).open
      ensures k in Matched(side, a).open ==> Matched(side, a).open[k] == Matched(side, b).open[k]
    {
      MatchedProjects(side, k, a);
      MatchedProjects(side, k, b);
      assert Trace(side, k, a) == Trace(side, k, b);
    }
  }

  lemma IntervalsOfSameTraces(side: Side, a: seq<Event>, b: seq<Event>)
    requires forall k :: Trace(side, k, a) == Trace(side, k, b)
    ensures multiset(Matched(side, a).intervals) == multiset(Matched(side, b).intervals)
  {
    var ia, ib := Matched(side, a).intervals, Matched(side, b).intervals;
    forall v: Interval ensures multiset(ia)[v] == multiset(ib)[v] {
      MatchedProjects(side, v.key, a);
      MatchedProjects(side, v.key, b);
      assert Trace(side, v.key, a) == Trace(side, v.key, b);
      FilterMultiplicity(IntervalOf(v.key), ia, v);
      FilterMultiplicity(IntervalOf(v.key), ib, v);
    }
  }

  lemma IssuesOfSameTraces(side: Side, a: seq<Event>, b: seq<Event>)
    requires SameTraces(side, a, b)
    ensures multiset(Matched(side, a).issues) == multiset(Matched(side, b).issues)
  {
    var ia, ib := Matched(side, a).issues, Matched(side, b).issues;
    forall i: Issue ensures multiset(ia)[i] == multiset(ib)[i] {
      if i.MalformedRecord? {
        var p := IsMalformed(side, i.isStart);
        MalformedIssues(side, i.isStart, Sort(ByTime, a));
        MalformedIssues(side, i.isStart, Sort(ByTime, b));
        SortPermutes(ByTime, a);
        SortPermutes(ByTime, b);
        CountOfPermutation(p, Sort(ByTime, a), Sort(ByTime, b));
      } else {
        MatchedProjects(side, i.key, a);
        MatchedProjects(side, i.key, b);
        assert Trace(side, i.key, a) == Trace(side, i.key, b);
        FilterMultiplicity(IssueOf(i.key), ia, i);
        FilterMultiplicity(IssueOf(i.key), ib, i);
      }
    }
  }

  /** Matching does not depend on how the shared log interleaved its writers. */
  lemma InterleavingIndependence(side: Side, a: seq<Event>, b: seq<Event>)
    requires SameTraces(side, a, b)
    ensures multiset(Matched(side, a).intervals) == multiset(Matched(side, b).intervals)
    ensures IssueBag(Matched(side, a)) == IssueBag(Matched(side, b))
  {
    IntervalsOfSameTraces(side, a, b);
    IssuesOfSameTraces(side, a, b);
    OpenOfSameTraces(side, a, b);
  }

  // ---------------------------------------------------------------- conservation

  function IsEdge(side: Side, isStart: bool): Event -> bool {
    (e: Event) => Read(side, e).Edge? && Read(side, e).isStart == isStart
  }

  predicate IsDuplicate(i: Issue) { i.DuplicateStart? }
  predicate IsOrphan(i: Issue) { i.EndWithoutStart? }
  predicate IsNegative(i: Issue) { i.NegativeInterval? }

  ghost predicate BalancedBy(starts: nat, ends: nat, m: Matching) {
    && starts == Count(IsDuplicate, m.issues) + |m.intervals| + Count(IsNegative, m.issues) + |m.open|
    && ends == Count(IsOrphan, m.issues) + |m.intervals| + Count(IsNegative, m.issues)
  }

  ghost predicate Balanced(side: Side, es: seq<Event>, m: Matching) {
    BalancedBy(Count(IsEdge(side, true), es), Count(IsEdge(side, false), es), m)
  }

  lemma {:induction false} RunBalances(side: Side, es: seq<Event>)
    ensures Balanced(side, es, Run(side, es))
  {
    if es != [] {
      RunBalances(side, Front(es));
      AcceptBalances(Count(IsEdge(side, true), Front(es)), Count(IsEdge(side, false), Front(es)),
        Run(side, Front(es)), Read(side, Last(es)));
    }
  }

  /** What one more issue does to the counts. */
  lemma IssueCounts(issues: seq<Issue>, i: Issue)
    ensures Count(IsDuplicate, issues + [i]) == Count(IsDuplicate, issues) + (if i.DuplicateStart? then 1 else 0)
    ensures Count(IsOrphan, issues + [i]) == Count(IsOrphan, issues) + (if i.EndWithoutStart? then 1 else 0)
    ensures Count(IsNegative, issues + [i]) == Count(IsNegative, issues) + (if i.NegativeInterval? then 1 else 0)
  {
    CountSnoc(IsDuplicate, issues, i);
    CountSnoc(IsOrphan, issues, i);
    CountSnoc(IsNegative, issues, i);
  }

  lemma OpenedCount(open: map<Key, int>, k: Key, t: int)
    requires k !in open
    ensures |open[k := t]| == |open| + 1
  {
    assert open[k := t].Keys == open.Keys + {k};
  }

  lemma ClosedCount(open: map<Key, int>, k: Key)
    requires k in open
    ensures |open - {k}| == |open| - 1
  {
    assert (open - {k}).Keys == open.Keys - {k};
  }

  lemma AcceptStartBalances(starts: nat, ends: nat, m: Matching, k: Key, t: int)
    requires BalancedBy(starts, ends, m)
    ensures BalancedBy(starts + 1, ends, Accept(m, Edge(k, true, t)))
  {
    if k in m.open {
      IssueCounts(m.issues, DuplicateStart(k));
    } else {
      OpenedCount(m.open, k, t);
    }
  }

  lemma AcceptEndBalances(starts: nat, ends: nat, m: Matching, k: Key, t: int)
    requires BalancedBy(starts, ends, m)
    ensures BalancedBy(starts, ends + 1, Accept(m, Edge(k, false, t)))
  {
    if k !in m.open {
      IssueCounts(m.issues, EndWithoutStart(k));
    } else {
      ClosedCount(m.open, k);
      if t < m.open[k] {
        IssueCounts(m.issues, NegativeInterval(k));
      }
    }
  }

  lemma AcceptBalances(starts: nat, ends: nat, m: Matching, mark: Mark)
    requires BalancedBy(starts, ends, m)
    ensures BalancedBy(
      starts + (if mark.Edge? && mark.isStart then 1 else 0),
      ends + (if mark.Edge? && !mark.isStart then 1 else 0),
      Accept(m, mark))
  {
    match mark {
      case Ignored =>
      case Malformed(isStart) => IssueCounts(m.issues, MalformedRecord(isStart));
      case Edge(k, isStart, t) =>
        if isStart {
          AcceptStartBalances(starts, ends, m, k, t);
        } else {
          AcceptEndBalances(starts, ends, m, k, t);
        }
    }
  }

  /** Every start is a duplicate, opens one lifetime that closed, or is still
      open; every end closes one lifetime or had nothing to close. */
  lemma EventsAreConserved(side: Side, events: seq<Event>)
    ensures Balanced(side, events, Matched(side, events))
  {
    var ordered := Sort(ByTime, events);
    RunBalances(side, ordered);
    SortPermutes(ByTime, events);
    CountOfPermutation(IsEdge(side, true), ordered, events);
    CountOfPermutation(IsEdge(side, false), ordered, events);
  }

  // ---------------------------------------------------------------- time order

  ghost predicate EdgesInTime(side: Side, es: seq<Event>) {
    forall i, j :: 0 <= i < j < |es| && Read(side, es[i]).Edge? && Read(side, es[j]).Edge? ==>
      Read(side, es[i]).at <= Read(side, es[j]).at
  }

  ghost predicate EdgesBefore(side: Side, es: seq<Event>, bound: int) {
    forall e :: e in es && Read(side, e).Edge? ==> Read(side, e).at <= bound
  }

  /** Later lifetimes of an identity start no earlier than its earlier ones end. */
  ghost predicate Sequential(intervals: seq<Interval>) {
    forall i, j :: 0 <= i < j < |intervals| && intervals[i].key == intervals[j].key ==>
      intervals[i].end <= intervals[j].start
  }

  ghost predicate Timely(m: Matching, bound: int) {
    && (forall i :: 0 <= i < |m.intervals| ==> m.intervals[i].start <= m.intervals[i].end <= bound)
    && (forall k :: k in m.open ==> m.open[k] <= bound)
    && (forall i :: 0 <= i < |m.intervals| && m.intervals[i].key in m.open ==>
      m.intervals[i].end <= m.open[m.intervals[i].key])
    && Sequential(m.intervals)
    && (forall i :: 0 <= i < |m.issues| ==> !m.issues[i].NegativeInterval?)
  }

  lemma {:induction false} RunInTime(side: Side, es: seq<Event>, bound: int)
    requires EdgesInTime(side, es) && EdgesBefore(side, es, bound)
    ensures Timely(Run(side, es), bound)
  {
    if es != [] {
      var e := Last(es);
      var now := if Read(side, e).Edge? then Read(side, e).at else bound;
      assert EdgesBefore(side, Front(es), now) by {
        forall x | x in Front(es) && Read(side, x).Edge? ensures Read(side, x).at <= now {
          var i :| 0 <= i < |es| - 1 && es[i] == x;
          assert e in es;
        }
      }
      assert e in es;
      RunInTime(side, Front(es), now);
      AcceptInTime(Run(side, Front(es)), Read(side, e), now, bound);
    }
  }

  lemma AcceptInTime(m: Matching, mark: Mark, now: int, bound: int)
    requires Timely(m, now) && now <= bound
    requires mark.Edge? ==> mark.at == now
    ensures Timely(Accept(m, mark), bound)
  {
  }

  lemma SortedInTime(side: Side, events: seq<Event>)
    requires Orderable(events)
    ensures EdgesInTime(side, Sort(ByTime, events))
  {
    SortOrdered(ByTime, events);
    SortMembers(ByTime, events);
    var s := Sort(ByTime, events);
    forall i, j | 0 <= i < j < |s| && Read(side, s[i]).Edge? && Read(side, s[j]).Edge?
      ensures Read(side, s[i]).at <= Read(side, s[j]).at
    {
      assert ByTime(s[i], s[j]);
      assert s[i] in events && s[j] in events;
    }
  }

  function LatestEdge(side: Side, es: seq<Event>): (bound: int)
    ensures EdgesBefore(side, es, bound)
  {
    if es == [] then 0
    else
      assert es == Front(es) + [Last(es)];
      var b := LatestEdge(side, Front(es));
      if Read(side, Last(es)).Edge? && b < Read(side, Last(es)).at then Read(side, Last(es)).at else b
  }

  /** With a monotonic clock's timestamps no lifetime runs backwards, and the
      lifetimes of one identity never overlap one another. */
  lemma LifetimesAreSequential(side: Side, events: seq<Event>)
    requires Orderable(events)
    ensures var m := Matched(side, events);
      && Sequential(m.intervals)
      && (forall i :: 0 <= i < |m.intervals| ==> m.intervals[i].start <= m.intervals[i].end)
      && Count(IsNegative, m.issues) == 0
  {
    SortedInTime(side, events);
    var s := Sort(ByTime, events);
    RunInTime(side, s, LatestEdge(side, s));
    CountNone(IsNegative, Matched(side, events).issues);
  }

  // ---------------------------------------------------------------- timestamps below zero

  ghost predicate OpenedBy(side: Side, es: seq<Event>, m: Matching) {
    forall k :: k in m.open ==> exists e :: e in es && Read(side, e) == Edge(k, true, m.open[k])
  }

  ghost predicate SplitsZero(side: Side, k: Key, es: seq<Event>) {
    && (exists a :: a in es && Read(side, a) == Edge(k, true, 0))
    && (exists b :: b in es && Read(side, b) == Edge(k, false, -1))
  }

  ghost predicate NegativesSplitZero(side: Side, es: seq<Event>, issues: seq<Issue>) {
    forall i :: i in issues && i.NegativeInterval? ==> SplitsZero(side, i.key, es)
  }

  lemma {:induction false} NegativeRun(side: Side, es: seq<Event>)
    requires Ordered(ByTime, es)
    ensures OpenedBy(side, es, Run(side, es))
    ensures NegativesSplitZero(side, es, Run(side, es).issues)
  {
    if es != [] {
      NegativeRun(side, Front(es));
      assert es == Front(es) + [Last(es)];
      forall x | x in Front(es) ensures ByTime(x, Last(es)) {
        var i :| 0 <= i < |es| - 1 && es[i] == x;
      }
      OpenedByStep(side, Front(es), Run(side, Front(es)), Last(es));
      NegativeStep(side, Front(es), Run(side, Front(es)), Last(es));
    }
  }

  lemma OpenedByStep(side: Side, f: seq<Event>, m: Matching, e: Event)
    requires OpenedBy(side, f, m)
    ensures OpenedBy(side, f + [e], Accept(m, Read(side, e)))
  {
    var m' := Accept(m, Read(side, e));
    forall k | k in m'.open ensures exists x :: x in f + [e] && Read(side, x) == Edge(k, true, m'.open[k]) {
      if Read(side, e) == Edge(k, true, m'.open[k]) {
        assert e in f + [e];
      } else {
        var x :| x in f && Read(side, x) == Edge(k, true, m.open[k]);
        assert x in f + [e];
      }
    }
  }

  lemma NegativeStep(side: Side, f: seq<Event>, m: Matching, e: Event)
    requires OpenedBy(side, f, m) && NegativesSplitZero(side, f, m.issues)
    requires forall x :: x in f ==> ByTime(x, e)
    ensures NegativesSplitZero(side, f + [e], Accept(m, Read(side, e)).issues)
  {
    forall k | SplitsZero(side, k, f) ensures SplitsZero(side, k, f + [e]) {
      var a :| a in f && Read(side, a) == Edge(k, true, 0);
      var b :| b in f && Read(side, b) == Edge(k, false, -1);
      assert a in f + [e] && b in f + [e];
    }
    var mark := Read(side, e);
    if mark.Edge? && !mark.isStart && mark.key in m.open && mark.at < m.open[mark.key] {
      var x :| x in f && Read(side, x) == Edge(mark.key, true, m.open[mark.key]);
      assert ByTime(x, e);
      assert x in f + [e] && e in f + [e];
      assert SplitsZero(side, mark.key, f + [e]);
    }
  }

  /** Without assuming a non-negative clock, a lifetime runs backwards only when
      its identity has a start stamped 0 and an end stamped -1: the one pair of
      stamps the sort key does not tell apart. */
  lemma NegativeNeedsSplitZero(side: Side, events: seq<Event>, k: Key)
    requires NegativeInterval(k) in Matched(side, events).issues
    ensures SplitsZero(side, k, events)
  {
    SortOrdered(ByTime, events);
    SortMembers(ByTime, events);
    NegativeRun(side, Sort(ByTime, events));
    var a :| a in Sort(ByTime, events) && Read(side, a) == Edge(k, true, 0);
    var b :| b in Sort(ByTime, events) && Read(side, b) == Edge(k, false, -1);
    assert a in events && b in events;
  }

  /** Such a log exists: a start at 0 written before an end at -1. */
  lemma NegativeHappens()
    ensures
      var start := Event(StepStart, Some(0), Some("s"), None, Some(1), None, None);
      var end := Event(StepEnd, Some(-1), Some("s"), None, Some(1), None, None);
      NegativeInterval(StepKey("s", 1)) in Matched(Steps, [start, end]).issues
  {
    var start := Event(StepStart, Some(0), Some("s"), None, Some(1), None, None);
    var end := Event(StepEnd, Some(-1), Some("s"), None, Some(1), None, None);
    assert Front([start, end]) == [start] && Front([start]) == [];
    assert Sort(ByTime, [start]) == [start];
    assert Sort(ByTime, [start, end]) == [start, end];
    assert Run(Steps, [start]) == Accept(Run(Steps, []), Read(Steps, start));
    assert Run(Steps, [start, end]) == Accept(Run(Steps, [start]), Read(Steps, end));
    assert Matched(Steps, [start, end]).issues == [NegativeInterval(StepKey("s", 1))];
  }
}
