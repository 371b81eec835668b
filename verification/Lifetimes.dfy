/** Pairing start and end records into half-open lifetimes. */
module Lifetimes {
  import opened Sequences
  import opened Sorting
  import opened Events

  datatype Issue =
    | MalformedRecord(isStart: bool)
    | DuplicateStart(key: Key)
    | EndWithoutStart(key: Key)
    | NegativeInterval(key: Key)
    | StartWithoutEnd(key: Key)

  datatype Matching = Matching(open: map<Key, int>, intervals: seq<Interval>, issues: seq<Issue>)

  /** What one record does to the matcher. */
  function Accept(m: Matching, mark: Mark): Matching {
    match mark
    case Ignored => m
    case Malformed(isStart) => m.(issues := m.issues + [MalformedRecord(isStart)])
    case Edge(k, isStart, t) =>
      if isStart then
        if k in m.open then m.(issues := m.issues + [DuplicateStart(k)])
        else m.(open := m.open[k := t])
      else if k !in m.open then m.(issues := m.issues + [EndWithoutStart(k)])
      else if t < m.open[k] then
        m.(open := m.open - {k}, issues := m.issues + [NegativeInterval(k)])
      else
        m.(open := m.open - {k}, intervals := m.intervals + [Interval(k, m.open[k], t)])
  }

  function Run(side: Side, es: seq<Event>): Matching {
    if es == [] then Matching(map[], [], []) else Accept(Run(side, Front(es)), Read(side, Last(es)))
  }

  /** The matcher over a whole log: a stable sort by time, then one pass. */
  function Matched(side: Side, events: seq<Event>): Matching {
    Run(side, Sort(ByTime, events))
  }

  ghost function Unclosed(m: Matching): multiset<Issue> {
    multiset(set k | k in m.open.Keys :: StartWithoutEnd(k))
  }

  /** Every issue reported for a log, the unclosed starts included. */
  ghost function IssueBag(m: Matching): multiset<Issue> {
    multiset(m.issues) + Unclosed(m)
  }

  method CompletedIntervals(side: Side, events: seq<Event>)
    returns (intervals: seq<Interval>, issues: seq<Issue>)
    ensures intervals == Matched(side, events).intervals
    ensures multiset(issues) == IssueBag(Matched(side, events))
  {
    var starts: map<Key, int> := map[];
    intervals, issues := [], [];
    var ordered := Sort(ByTime, events);
    for i := 0 to |ordered|
      invariant Matching(starts, intervals, issues) == Run(side, ordered[..i])
    {
      TakeSnoc(ordered, i);
      match Read(side, ordered[i]) {
        case Ignored =>
        case Malformed(isStart) =>
          issues := issues + [MalformedRecord(isStart)];
        case Edge(k, isStart, timestamp) =>
          if isStart {
            if k in starts {
              issues := issues + [DuplicateStart(k)];
            } else {
              starts := starts[k := timestamp];
            }
          } else if k !in starts {
            issues := issues + [EndWithoutStart(k)];
          } else {
            var start := starts[k];
            starts := starts - {k};
            if timestamp < start {
              issues := issues + [NegativeInterval(k)];
            } else {
              intervals := intervals + [Interval(k, start, timestamp)];
            }
          }
      }
    }
    assert ordered[..|ordered|] == ordered;
    ghost var m := Matched(side, events);
    var pending := starts.Keys;
    while pending != {}
      invariant pending <= m.open.Keys
      invariant multiset(issues) + multiset(set k | k in pending :: StartWithoutEnd(k)) == IssueBag(m)
    {
      var k :| k in pending;
      ghost var before := set j | j in pending :: StartWithoutEnd(j);
      ghost var after := set j | j in pending - {k} :: StartWithoutEnd(j);
      assert before == after + {StartWithoutEnd(k)};
      pending := pending - {k};
      issues := issues + [StartWithoutEnd(k)];
    }
  }

  // ---------------------------------------------------------------- one identity at a time

  function IntervalOf(k: Key): Interval -> bool {
    (v: Interval) => v.key == k
  }

  function IssueOf(k: Key): Issue -> bool {
    (i: Issue) => !i.MalformedRecord? && i.key == k
  }

  /** The matcher treats identities independently: what it says of one identity
      is what it says of that identity's records alone. */
  lemma {:induction false} RunProjects(side: Side, k: Key, es: seq<Event>)
    ensures var m, p := Run(side, es), Run(side, Trace(side, k, es));
      && (k in m.open <==> k in p.open)
      && (k in m.open ==> m.open[k] == p.open[k])
      && Filter(IntervalOf(k), m.intervals) == p.intervals
      && Filter(IssueOf(k), m.issues) == p.issues
      && p.open.Keys <= {k}
  {
    if es != [] {
      RunProjects(side, k, Front(es));
      AcceptProjects(k, Run(side, Front(es)), Run(side, Trace(side, k, Front(es))), Read(side, Last(es)));
      if OfKey(side, k)(Last(es)) {
        var t := Trace(side, k, Front(es));
        assert Front(t + [Last(es)]) == t;
      }
    }
  }

  lemma AcceptProjects(k: Key, m: Matching, p: Matching, mark: Mark)
    requires k in m.open <==> k in p.open
    requires k in m.open ==> m.open[k] == p.open[k]
    requires Filter(IntervalOf(k), m.intervals) == p.intervals
    requires Filter(IssueOf(k), m.issues) == p.issues
    requires p.open.Keys <= {k}
    ensures var m', p' := Accept(m, mark), if mark.Edge? && mark.key == k then Accept(p, mark) else p;
      && (k in m'.open <==> k in p'.open)
      && (k in m'.open ==> m'.open[k] == p'.open[k])
      && Filter(IntervalOf(k), m'.intervals) == p'.intervals
      && Filter(IssueOf(k), m'.issues) == p'.issues
      && p'.open.Keys <= {k}
  {
    match mark {
      case Ignored =>
      case Malformed(isStart) =>
        FilterSnoc(IssueOf(k), m.issues, MalformedRecord(isStart));
      case Edge(j, isStart, t) =>
        if isStart {
          FilterSnoc(IssueOf(k), m.issues, DuplicateStart(j));
        } else if j !in m.open {
          FilterSnoc(IssueOf(k), m.issues, EndWithoutStart(j));
        } else if t < m.open[j] {
          FilterSnoc(IssueOf(k), m.issues, NegativeInterval(j));
        } else {
          FilterSnoc(IntervalOf(k), m.intervals, Interval(j, m.open[j], t));
        }
    }
  }
}
