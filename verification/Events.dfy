/** The guest's log records as the analyser reads them: every field may be
    absent or of the wrong type, which the analyser sees as `None`. */
module Events {
  import opened Sequences
  import opened Sorting

  datatype Kind = StepStart | StepEnd | WorkerStart | WorkerSample | WorkerEnd | OtherKind

  datatype Event = Event(
    kind: Kind,
    ts: Option<int>,
    step: Option<string>,
    worker: Option<int>,
    pid: Option<int>,
    cpuNs: Option<int>,
    cpu: Option<int>)

  datatype Key =
    | StepKey(step: string, pid: int)
    | WorkerKey(step: string, worker: int, pid: int)

  datatype Interval = Interval(key: Key, start: int, end: int) {
    predicate Overlaps(lo: int, hi: int) {
      start < hi && lo < end
    }
  }

  /** Half-open: a lifetime contains its start and not its end. */
  function LiveAt(t: int): Interval -> bool {
    (v: Interval) => v.start <= t < v.end
  }

  /** Which pair of event names is being matched. */
  datatype Side = Steps | Workers {
    function StartKind(): Kind {
      if Steps? then StepStart else WorkerStart
    }

    function EndKind(): Kind {
      if Steps? then StepEnd else WorkerEnd
    }
  }

  /** What one record means to the matcher of one side. */
  datatype Mark = Ignored | Malformed(isStart: bool) | Edge(key: Key, isStart: bool, at: int)

  function Read(side: Side, e: Event): Mark {
    if e.kind != side.StartKind() && e.kind != side.EndKind() then Ignored
    else if e.ts.None? || e.step.None? || e.pid.None? || (side.Workers? && e.worker.None?) then
      Malformed(e.kind == side.StartKind())
    else
      Edge(
        if side.Workers? then WorkerKey(e.step.value, e.worker.value, e.pid.value)
        else StepKey(e.step.value, e.pid.value),
        e.kind == side.StartKind(),
        e.ts.value)
  }

  /** `monotonic_ns or -1`: an absent timestamp and timestamp 0 both sort as -1. */
  function SortKey(e: Event): int {
    if e.ts.None? || e.ts.value == 0 then -1 else e.ts.value
  }

  predicate ByTime(a: Event, b: Event) {
    SortKey(a) <= SortKey(b)
  }

  function OfKey(side: Side, k: Key): Event -> bool {
    (e: Event) => Read(side, e).Edge? && Read(side, e).key == k
  }

  /** The records of one identity, in log order. */
  function Trace(side: Side, k: Key, events: seq<Event>): seq<Event> {
    Filter(OfKey(side, k), events)
  }

  /** No record is stamped 0 while another is stamped -1, the one pair of stamps
      the sort key does not tell apart. A monotonic clock never reads -1. */
  ghost predicate Orderable(events: seq<Event>) {
    forall a, b :: a in events && b in events && a.ts == Some(0) ==> b.ts != Some(-1)
  }

  predicate NoLater(a: Event, b: Event) {
    a.ts.Some? && b.ts.Some? ==> a.ts.value <= b.ts.value
  }

  /** Records that carry a stamp come in the order of their stamps. */
  ghost predicate InTimeOrder(events: seq<Event>) {
    Ordered(NoLater, events)
  }

  lemma OrderableSorts(events: seq<Event>)
    requires Orderable(events)
    ensures InTimeOrder(Sort(ByTime, events))
  {
    var s := Sort(ByTime, events);
    SortOrdered(ByTime, events);
    SortMembers(ByTime, events);
    forall i, j | 0 <= i < j < |s| ensures NoLater(s[i], s[j]) {
      assert s[i] in s && s[j] in s;
      assert ByTime(s[i], s[j]);
    }
  }

  /** Records the sort key does not tell apart stay as they were. */
  lemma TiesStay(events: seq<Event>)
    ensures Filter(Tied, Sort(ByTime, events)) == Filter(Tied, events)
  {
    SortFilters(ByTime, Tied, events);
    var f := Filter(Tied, events);
    FilterMembers(Tied, events);
    forall i, j | 0 <= i < j < |f| ensures ByTime(f[i], f[j]) {
      assert f[i] in f && f[j] in f;
    }
    SortOfOrdered(ByTime, f);
  }

  predicate Tied(e: Event) {
    SortKey(e) == -1
  }

  lemma SplitTies(x: seq<Event>, a: Event, y: seq<Event>, b: Event)
    requires Tied(a) && Tied(b) && b in y && !NoLater(a, b)
    ensures !InTimeOrder(Filter(Tied, x + [a] + y))
  {
    FilterConcat(Tied, x + [a], y);
    FilterSnoc(Tied, x, a);
    FilterMembers(Tied, y);
    var f, g := Filter(Tied, x), Filter(Tied, y);
    var r := Filter(Tied, x + [a] + y);
    assert r == f + [a] + g;
    var j :| 0 <= j < |g| && g[j] == b;
    assert r[|f|] == a && r[|f| + 1 + j] == b;
  }

  /** If sorting puts a log in time order, its tied records were so already. */
  lemma SortedTies(log: seq<Event>)
    requires InTimeOrder(Sort(ByTime, log))
    ensures InTimeOrder(Filter(Tied, log))
  {
    FilterOrdered(NoLater, Tied, Sort(ByTime, log));
    TiesStay(log);
  }

  /** A log that lists the stamp 0 before the stamp -1 is not sorted by time. */
  lemma SplitZeroMissorts(log: seq<Event>, i: nat, j: nat)
    requires i < j < |log| && log[i].ts == Some(0) && log[j].ts == Some(-1)
    ensures !InTimeOrder(Sort(ByTime, log))
  {
    var x, a, y, b := log[..i], log[i], log[i + 1..], log[j];
    assert b == y[j - i - 1];
    assert log == x + [a] + y;
    SplitTies(x, a, y, b);
    if InTimeOrder(Sort(ByTime, log)) {
      SortedTies(log);
    }
  }

  lemma SplitZeroBefore(events: seq<Event>) returns (log: seq<Event>, i: nat, j: nat)
    requires !Orderable(events)
    ensures multiset(log) == multiset(events)
    ensures i < j < |log| && log[i].ts == Some(0) && log[j].ts == Some(-1)
  {
    var a, b :| a in events && b in events && a.ts == Some(0) && b.ts == Some(-1);
    i :| 0 <= i < |events| && events[i] == a;
    j :| 0 <= j < |events| && events[j] == b;
    log := events;
    if j < i {
      log := events[i := b][j := a];
      i, j := j, i;
    }
  }

  /** That is exactly what it takes for the sort key to sort by time: however the
      log was interleaved, sorting it puts the stamps in order. */
  lemma OrderableIff(events: seq<Event>)
    ensures Orderable(events) <==>
      forall log :: multiset(log) == multiset(events) ==> InTimeOrder(Sort(ByTime, log))
  {
    if Orderable(events) {
      forall log | multiset(log) == multiset(events) ensures InTimeOrder(Sort(ByTime, log)) {
        assert forall e :: e in log ==> e in multiset(log);
        assert forall e :: e in multiset(events) ==> e in events;
        OrderableSorts(log);
      }
    } else {
      var log, i, j := SplitZeroBefore(events);
      SplitZeroMissorts(log, i, j);
    }
  }
}
