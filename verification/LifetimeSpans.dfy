/** What the matcher makes of any log, well bracketed or not: which stretches of an
    identity's records become lifetimes and which records raise an issue. */
module LifetimeSpans {
  import opened Sequences
  import opened Sorting
  import opened Events
  import opened Lifetimes
  import opened LifetimeLaws
  import opened LiveSets

  /** A start that comes first or right after an end. */
  ghost predicate OpensAt(k: Key, es: seq<Event>, i: int) {
    0 <= i < |es| && Delimits(k, true, es[i]) && (i == 0 || Delimits(k, false, es[i - 1]))
  }

  /** Nothing but starts from `i` up to `j`. */
  ghost predicate StartsFrom(k: Key, es: seq<Event>, i: int, j: int) {
    forall m :: 0 <= i <= m < j <= |es| ==> Delimits(k, true, es[m])
  }

  /** The records end in a run of starts whose first is stamped `a`. */
  ghost predicate OpenSpan(k: Key, es: seq<Event>, a: int) {
    exists i :: OpensAt(k, es, i) && StartsFrom(k, es, i, |es|) && es[i].ts == Some(a)
  }

  /** Some run of starts, the first stamped `a`, is followed by an end stamped `b`. */
  ghost predicate Span(k: Key, es: seq<Event>, a: int, b: int) {
    exists i, j :: IsSpan(k, es, i, j, a, b)
  }

  ghost predicate IsSpan(k: Key, es: seq<Event>, i: int, j: int, a: int, b: int) {
    && OpensAt(k, es, i) && i < j < |es| && StartsFrom(k, es, i, j) && Delimits(k, false, es[j])
    && es[i].ts == Some(a) && es[j].ts == Some(b)
  }

  ghost predicate RestartAt(k: Key, es: seq<Event>, i: int) {
    1 <= i < |es| && Delimits(k, true, es[i]) && Delimits(k, true, es[i - 1])
  }

  /** Two starts in a row. */
  ghost predicate Restarts(k: Key, es: seq<Event>) {
    exists i :: RestartAt(k, es, i)
  }

  ghost predicate OrphanAt(k: Key, es: seq<Event>, i: int) {
    0 <= i < |es| && Delimits(k, false, es[i]) && (i == 0 || Delimits(k, false, es[i - 1]))
  }

  /** An end that comes first or right after another end. */
  ghost predicate Orphans(k: Key, es: seq<Event>) {
    exists i :: OrphanAt(k, es, i)
  }

  ghost predicate AllOwn(k: Key, es: seq<Event>) {
    forall i :: 0 <= i < |es| ==> Delimits(k, true, es[i]) || Delimits(k, false, es[i])
  }

  // ---------------------------------------------------------------- one more record

  lemma OpenSnoc(k: Key, es: seq<Event>, a: int)
    requires es != [] && AllOwn(k, es)
    ensures OpenSpan(k, es, a) <==>
      && Delimits(k, true, Last(es))
      && (if |es| == 1 || Delimits(k, false, es[|es| - 2]) then Last(es).ts == Some(a) else OpenSpan(k, Front(es), a))
  {
    var f := Front(es);
    assert forall i :: 0 <= i < |f| ==> f[i] == es[i];
    if OpenSpan(k, es, a) {
      var i :| OpensAt(k, es, i) && StartsFrom(k, es, i, |es|) && es[i].ts == Some(a);
      assert Delimits(k, true, es[|es| - 1]);
      if i < |f| {
        assert Delimits(k, true, es[|es| - 2]);
        assert OpensAt(k, f, i) && StartsFrom(k, f, i, |f|);
      }
    }
    if Delimits(k, true, Last(es)) {
      if |es| == 1 || Delimits(k, false, es[|es| - 2]) {
        assert OpensAt(k, es, |f|) && StartsFrom(k, es, |f|, |es|);
      } else if OpenSpan(k, f, a) {
        var i :| OpensAt(k, f, i) && StartsFrom(k, f, i, |f|) && f[i].ts == Some(a);
        forall m | i <= m < |es| ensures Delimits(k, true, es[m]) {
          assert m < |f| ==> Delimits(k, true, f[m]);
        }
        assert OpensAt(k, es, i) && StartsFrom(k, es, i, |es|);
      }
    }
  }

  lemma SpanSnoc(k: Key, es: seq<Event>, a: int, b: int)
    requires es != []
    ensures Span(k, es, a, b) <==>
      || Span(k, Front(es), a, b)
      || (Delimits(k, false, Last(es)) && OpenSpan(k, Front(es), a) && Last(es).ts == Some(b))
  {
    var f := Front(es);
    if Span(k, es, a, b) {
      var i, j :| IsSpan(k, es, i, j, a, b);
      SpanOfFront(k, es, i, j, a, b);
    }
    if Span(k, f, a, b) {
      var i, j :| IsSpan(k, f, i, j, a, b);
      SpanKept(k, es, i, j, a, b);
    }
    if Delimits(k, false, Last(es)) && OpenSpan(k, f, a) && Last(es).ts == Some(b) {
      SpanCloses(k, es, a, b);
    }
  }

  lemma SpanCloses(k: Key, es: seq<Event>, a: int, b: int)
    requires es != [] && OpenSpan(k, Front(es), a) && Delimits(k, false, Last(es)) && Last(es).ts == Some(b)
    ensures Span(k, es, a, b)
  {
    var f := Front(es);
    assert forall m :: 0 <= m < |f| ==> f[m] == es[m];
    var i :| OpensAt(k, f, i) && StartsFrom(k, f, i, |f|) && f[i].ts == Some(a);
    forall m | i <= m < |f| ensures Delimits(k, true, es[m]) {
      assert Delimits(k, true, f[m]);
    }
    assert IsSpan(k, es, i, |f|, a, b);
  }

  lemma SpanOfFront(k: Key, es: seq<Event>, i: int, j: int, a: int, b: int)
    requires es != [] && IsSpan(k, es, i, j, a, b)
    ensures if j < |es| - 1 then IsSpan(k, Front(es), i, j, a, b) else OpenSpan(k, Front(es), a)
  {
    var f := Front(es);
    assert forall m :: 0 <= m < |f| ==> f[m] == es[m];
    assert OpensAt(k, f, i);
    assert StartsFrom(k, f, i, j) by {
      forall m | 0 <= i <= m < j <= |f| ensures Delimits(k, true, f[m]) {
        assert Delimits(k, true, es[m]);
      }
    }
  }

  lemma SpanKept(k: Key, es: seq<Event>, i: int, j: int, a: int, b: int)
    requires es != [] && IsSpan(k, Front(es), i, j, a, b)
    ensures IsSpan(k, es, i, j, a, b)
  {
    var f := Front(es);
    assert forall m :: 0 <= m < |f| ==> f[m] == es[m];
    forall m | 0 <= i <= m < j <= |es| ensures Delimits(k, true, es[m]) {
      assert Delimits(k, true, f[m]);
    }
  }

  lemma SameFaults(k: Key, es: seq<Event>, i: int)
    requires es != [] && i < |es| - 1
    ensures RestartAt(k, es, i) <==> RestartAt(k, Front(es), i)
    ensures OrphanAt(k, es, i) <==> OrphanAt(k, Front(es), i)
  {
    if 0 <= i {
      assert Front(es)[i] == es[i];
      assert i >= 1 ==> Front(es)[i - 1] == es[i - 1];
    }
  }

  lemma RestartsSnoc(k: Key, es: seq<Event>)
    requires es != []
    ensures Restarts(k, es) <==> Restarts(k, Front(es)) || RestartAt(k, es, |es| - 1)
  {
    if i :| RestartAt(k, Front(es), i) {
      SameFaults(k, es, i);
    }
    if i :| RestartAt(k, es, i) {
      if i < |es| - 1 {
        SameFaults(k, es, i);
      }
    }
  }

  lemma OrphansSnoc(k: Key, es: seq<Event>)
    requires es != []
    ensures Orphans(k, es) <==> Orphans(k, Front(es)) || OrphanAt(k, es, |es| - 1)
  {
    if i :| OrphanAt(k, Front(es), i) {
      SameFaults(k, es, i);
    }
    if i :| OrphanAt(k, es, i) {
      if i < |es| - 1 {
        SameFaults(k, es, i);
      }
    }
  }

  // ---------------------------------------------------------------- the matcher

  lemma OwnMark(k: Key, e: Event)
    requires Delimits(k, true, e) || Delimits(k, false, e)
    ensures Read(SideOf(k), e) == Edge(k, Delimits(k, true, e), e.ts.value)
    ensures Delimits(k, true, e) <==> !Delimits(k, false, e)
  {
    ReadIs(SideOf(k), e, k, true);
    ReadIs(SideOf(k), e, k, false);
  }

  /** An identity is open after its records exactly when they end in a start, since
      the first start of that last run. */
  lemma {:induction false} OpenIs(k: Key, es: seq<Event>, a: int)
    requires AllOwn(k, es)
    ensures var m := Run(SideOf(k), es);
      && (k in m.open <==> es != [] && Delimits(k, true, Last(es)))
      && (k in m.open && m.open[k] == a <==> OpenSpan(k, es, a))
  {
    if es != [] {
      OpenIs(k, Front(es), a);
      OpenSnoc(k, es, a);
      OwnMark(k, Last(es));
      if |es| >= 2 {
        OwnMark(k, es[|es| - 2]);
        assert Last(Front(es)) == es[|es| - 2];
      }
    }
  }

  /** Its lifetimes are the spans that do not run backwards, and the others are
      reported. */
  lemma {:induction false} SpansAreLifetimes(k: Key, es: seq<Event>, a: int, b: int)
    requires AllOwn(k, es)
    ensures Interval(k, a, b) in Run(SideOf(k), es).intervals <==> a <= b && Span(k, es, a, b)
  {
    if es != [] {
      var f, e := Front(es), Last(es);
      SpansAreLifetimes(k, f, a, b);
      SpanSnoc(k, es, a, b);
      OpenIs(k, f, a);
      OwnMark(k, e);
    }
  }

  ghost predicate Backwards(k: Key, es: seq<Event>) {
    exists a, b :: Span(k, es, a, b) && b < a
  }

  lemma BackwardsSnoc(k: Key, es: seq<Event>)
    requires es != [] && AllOwn(k, es)
    ensures var m := Run(SideOf(k), Front(es));
      Backwards(k, es) <==>
      || Backwards(k, Front(es))
      || (Delimits(k, false, Last(es)) && k in m.open && Last(es).ts.value < m.open[k])
  {
    var f, e := Front(es), Last(es);
    var m := Run(SideOf(k), f);
    if a, b :| Span(k, es, a, b) && b < a {
      SpanSnoc(k, es, a, b);
      OpenIs(k, f, a);
    }
    if a, b :| Span(k, f, a, b) && b < a {
      SpanSnoc(k, es, a, b);
    }
    if Delimits(k, false, e) && k in m.open && e.ts.value < m.open[k] {
      OpenIs(k, f, m.open[k]);
      SpanSnoc(k, es, m.open[k], e.ts.value);
    }
  }

  /** The issues it raises are two starts in a row, an end with no start before it
      since the last end, and a span that runs backwards. */
  lemma {:induction false} IssuesAreFaults(k: Key, es: seq<Event>)
    requires AllOwn(k, es)
    ensures var issues := Run(SideOf(k), es).issues;
      && (DuplicateStart(k) in issues <==> Restarts(k, es))
      && (EndWithoutStart(k) in issues <==> Orphans(k, es))
      && (NegativeInterval(k) in issues <==> Backwards(k, es))
  {
    if es != [] {
      IssuesAreFaults(k, Front(es));
      RestartsSnoc(k, es);
      OrphansSnoc(k, es);
      BackwardsSnoc(k, es);
      OpenIs(k, Front(es), 0);
      OwnMark(k, Last(es));
      if |es| >= 2 {
        OwnMark(k, es[|es| - 2]);
        assert Last(Front(es)) == es[|es| - 2];
      }
    } else {
      assert !Backwards(k, es);
    }
  }

  // ---------------------------------------------------------------- every log

  lemma OwnInTime(k: Key, events: seq<Event>)
    ensures AllOwn(k, InTime(k, events))
    ensures Matched(SideOf(k), Trace(SideOf(k), k, events)) == Run(SideOf(k), InTime(k, events))
  {
    var own := Filter(OwnRecord(k), events);
    FilterMembers(OwnRecord(k), events);
    SortMembers(ByTime, own);
    TraceIsOwn(k, events);
    forall i | 0 <= i < |InTime(k, events)|
      ensures Delimits(k, true, InTime(k, events)[i]) || Delimits(k, false, InTime(k, events)[i])
    {
      assert InTime(k, events)[i] in InTime(k, events);
      assert OwnRecord(k)(InTime(k, events)[i]);
    }
  }

  /** In any log, an identity has a lifetime from `a` to `b` exactly when among its
      records in time order a run of starts, the first at `a`, is followed by an end
      at `b`: repeated starts leave the first in force. */
  lemma LifetimesAreSpans(events: seq<Event>, k: Key, a: int, b: int)
    ensures Interval(k, a, b) in Matched(SideOf(k), events).intervals <==>
      a <= b && Span(k, InTime(k, events), a, b)
  {
    var s := Matched(SideOf(k), events).intervals;
    MatchedProjects(SideOf(k), k, events);
    OwnInTime(k, events);
    SpansAreLifetimes(k, InTime(k, events), a, b);
    FilterMembers(IntervalOf(k), s);
    assert IntervalOf(k)(Interval(k, a, b));
  }

  /** In any log, each issue about an identity is raised exactly when its records in
      time order show the fault. */
  lemma FaultsAreIssues(events: seq<Event>, k: Key)
    ensures var bag, es := IssueBag(Matched(SideOf(k), events)), InTime(k, events);
      && (DuplicateStart(k) in bag <==> Restarts(k, es))
      && (EndWithoutStart(k) in bag <==> Orphans(k, es))
      && (NegativeInterval(k) in bag <==> Backwards(k, es))
      && (StartWithoutEnd(k) in bag <==> es != [] && Delimits(k, true, Last(es)))
  {
    var m, es := Matched(SideOf(k), events), InTime(k, events);
    MatchedProjects(SideOf(k), k, events);
    OwnInTime(k, events);
    IssuesAreFaults(k, es);
    OpenIs(k, es, 0);
    NoUnclosedYet(SideOf(k), Sort(ByTime, events));
    InBag(m, k, DuplicateStart(k));
    InBag(m, k, EndWithoutStart(k));
    InBag(m, k, NegativeInterval(k));
    UnclosedInBag(m, k);
  }

  lemma InBag(m: Matching, k: Key, i: Issue)
    requires !i.StartWithoutEnd? && IssueOf(k)(i)
    ensures i in IssueBag(m) <==> i in Filter(IssueOf(k), m.issues)
  {
    FilterMembers(IssueOf(k), m.issues);
    assert i in m.issues <==> i in multiset(m.issues);
  }

  lemma UnclosedInBag(m: Matching, k: Key)
    requires forall i :: i in m.issues ==> !i.StartWithoutEnd?
    ensures StartWithoutEnd(k) in IssueBag(m) <==> k in m.open
  {
    assert StartWithoutEnd(k) in (set j | j in m.open.Keys :: StartWithoutEnd(j)) <==> k in m.open;
    assert StartWithoutEnd(k) in multiset(m.issues) ==> StartWithoutEnd(k) in m.issues;
  }

  lemma {:induction false} NoUnclosedYet(side: Side, es: seq<Event>)
    ensures forall i :: i in Run(side, es).issues ==> !i.StartWithoutEnd?
  {
    if es != [] {
      NoUnclosedYet(side, Front(es));
    }
  }
}
