/** What the bandwidth verdict means: which windows the scan examines, which it
    reports, and by which quota each series is judged. */
module BandwidthLaws {
  import opened Sequences
  import opened Sorting
  import opened Ordering
  import opened Bandwidth

  // ---------------------------------------------------------------- the scan is exact

  /** No reading ends before it starts by as much as a whole minimum window. */
  ghost predicate NoSelfWindow(q: Quota, minPeriods: int, s: seq<Reading>) {
    forall r :: r in s ==> !Long(q, minPeriods, r, r)
  }

  lemma MulAtLeast(m: int, n: int)
    requires m >= 1 && n >= 0
    ensures m * n >= n
  {
  }

  /** A clock that never goes back is enough. */
  lemma TimedHasNoSelfWindow(q: Quota, minPeriods: int, s: seq<Reading>)
    requires q.Valid() && minPeriods >= 1 && forall r :: r in s ==> r.start <= r.end
    ensures NoSelfWindow(q, minPeriods, s)
  {
  }

  /** Only a later reading can end a long window. */
  lemma LongGoesForward(q: Quota, minPeriods: int, s: seq<Reading>, i: nat, j: nat)
    requires NoSelfWindow(q, minPeriods, s) && Ordered(ReadingOrder, s)
    requires i < |s| && j < |s| && Long(q, minPeriods, s[i], s[j])
    ensures i < j
  {
    assert !Long(q, minPeriods, s[i], s[i]);
    assert j < i ==> ReadingOrder(s[j], s[i]);
  }

  /** How many readings of `s` end a long window that `a` begins. */
  function Ends(q: Quota, minPeriods: int, s: seq<Reading>): Reading -> nat {
    (a: Reading) => Count(LongFrom(q, minPeriods, a), s)
  }

  /** Ordered pairs of readings a long window apart, in a log taken as a bag. */
  function LongPairs(q: Quota, minPeriods: int, s: seq<Reading>): nat {
    SumOf(Ends(q, minPeriods, s), s)
  }

  /** Nothing a row looks for is at or before the row itself. */
  lemma RowIsComplete(q: Quota, minPeriods: int, s: seq<Reading>, i: nat, p: Reading -> bool)
    requires NoSelfWindow(q, minPeriods, s) && Ordered(ReadingOrder, s) && i < |s|
    requires forall j :: 0 <= j < |s| && p(s[j]) ==> Long(q, minPeriods, s[i], s[j])
    ensures Count(p, s[i + 1..]) == Count(p, s)
  {
    var a, b := s[..i + 1], s[i + 1..];
    forall j | 0 <= j < |a| ensures !p(a[j]) {
      assert a[j] == s[j];
      if p(s[j]) {
        LongGoesForward(q, minPeriods, s, i, j);
      }
    }
    CountNone(p, a);
    CountConcat(p, a, b);
    assert s == a + b;
  }

  lemma {:induction false} ExaminedRows(q: Quota, minPeriods: int, s: seq<Reading>, m: nat)
    requires NoSelfWindow(q, minPeriods, s) && Ordered(ReadingOrder, s) && m <= |s|
    ensures Examined(q, minPeriods, s, m) == SumOf(Ends(q, minPeriods, s), s[..m])
  {
    if m > 0 {
      ExaminedRows(q, minPeriods, s, m - 1);
      TakeSnoc(s, m - 1);
      RowIsComplete(q, minPeriods, s, m - 1, LongFrom(q, minPeriods, s[m - 1]));
    }
  }

  lemma RowIsShort(q: Quota, minPeriods: int, s: seq<Reading>, i: nat)
    requires i < |s|
    ensures Count(LongFrom(q, minPeriods, s[i]), s[i + 1..]) <= Ends(q, minPeriods, s)(s[i])
    ensures Long(q, minPeriods, s[i], s[i]) ==>
      Count(LongFrom(q, minPeriods, s[i]), s[i + 1..]) < Ends(q, minPeriods, s)(s[i])
  {
    var p, a, b := LongFrom(q, minPeriods, s[i]), s[..i + 1], s[i + 1..];
    CountPositive(p, a);
    assert a[i] == s[i];
    CountConcat(p, a, b);
    assert s == a + b;
  }

  lemma {:induction false} ExaminedAtMost(q: Quota, minPeriods: int, s: seq<Reading>, m: nat)
    requires m <= |s|
    ensures Examined(q, minPeriods, s, m) <= SumOf(Ends(q, minPeriods, s), s[..m])
    ensures (exists i :: 0 <= i < m && Long(q, minPeriods, s[i], s[i])) ==>
      Examined(q, minPeriods, s, m) < SumOf(Ends(q, minPeriods, s), s[..m])
  {
    if m > 0 {
      ExaminedAtMost(q, minPeriods, s, m - 1);
      TakeSnoc(s, m - 1);
      RowIsShort(q, minPeriods, s, m - 1);
    }
  }

  lemma LongPairsOfPermutation(q: Quota, minPeriods: int, a: seq<Reading>, b: seq<Reading>)
    requires multiset(a) == multiset(b)
    ensures LongPairs(q, minPeriods, a) == LongPairs(q, minPeriods, b)
  {
    forall i | 0 <= i < |a| ensures Ends(q, minPeriods, a)(a[i]) == Ends(q, minPeriods, b)(a[i]) {
      CountOfPermutation(LongFrom(q, minPeriods, a[i]), a, b);
    }
    SumOfSame(Ends(q, minPeriods, a), Ends(q, minPeriods, b), a);
    SumOfPermutation(Ends(q, minPeriods, b), a, b);
  }

  lemma SortedReadings(q: Quota, minPeriods: int, s: seq<Reading>)
    ensures Ordered(ReadingOrder, Sort(ReadingOrder, s))
    ensures NoSelfWindow(q, minPeriods, Sort(ReadingOrder, s)) <==> NoSelfWindow(q, minPeriods, s)
  {
    SortOrdered(ReadingOrder, s);
    SortMembers(ReadingOrder, s);
  }

  /** Each pair of readings a long window apart is examined exactly once, whatever
      order the log lists them in, precisely when no reading is a long window
      apart from itself. */
  lemma EachWindowOnce(q: Quota, minPeriods: int, samples: seq<Reading>)
    ensures var s := Sort(ReadingOrder, samples);
      Examined(q, minPeriods, s, |s|) == LongPairs(q, minPeriods, samples) <==>
      NoSelfWindow(q, minPeriods, samples)
  {
    var s := Sort(ReadingOrder, samples);
    SortedReadings(q, minPeriods, samples);
    assert s[..|s|] == s;
    SortPermutes(ReadingOrder, samples);
    LongPairsOfPermutation(q, minPeriods, samples, s);
    ExaminedAtMost(q, minPeriods, s, |s|);
    if NoSelfWindow(q, minPeriods, samples) {
      ExaminedRows(q, minPeriods, s, |s|);
    } else {
      var r :| r in s && Long(q, minPeriods, r, r);
      var i :| 0 <= i < |s| && s[i] == r;
      assert Long(q, minPeriods, s[i], s[i]);
    }
  }

  /** With a read that ends before it starts, a separated pair can go unexamined. */
  lemma UntimedReadIsMissed()
    ensures
      var q, x, y := Quota(1, 1, 0), Reading(2_000, 2_000, 0), Reading(10_000, 0, 0);
      var s := Sort(ReadingOrder, [x, y]);
      Long(q, 1, y, x) && Examined(q, 1, s, |s|) < LongPairs(q, 1, [x, y])
  {
    var q, x, y := Quota(1, 1, 0), Reading(2_000, 2_000, 0), Reading(10_000, 0, 0);
    var s := [x, y];
    assert Front(s) == [x] && Front([x]) == [] && Front([y]) == [];
    assert Sort(ReadingOrder, [x]) == [x];
    assert Sort(ReadingOrder, s) == s;
    assert s[1..] == [y] && s[2..] == [];
    assert Count(LongFrom(q, 1, x), [y]) == 1;
    assert Examined(q, 1, s, 1) == Examined(q, 1, s, 0) + 1;
    assert Examined(q, 1, s, 2) == Examined(q, 1, s, 1);
    assert Count(LongFrom(q, 1, x), [x]) == 0 && Count(LongFrom(q, 1, y), [x]) == 1;
    assert Ends(q, 1, s)(x) == 1 && Ends(q, 1, s)(y) == 2;
    assert SumOf(Ends(q, 1, s), [x]) == 1;
  }

  // ---------------------------------------------------------------- the verdict is exact

  ghost predicate Bad(q: Quota, minPeriods: int, slack: int, a: Reading, b: Reading)
    requires q.Valid()
  {
    Long(q, minPeriods, a, b) && Breaks(q, slack, a, b)
  }

  lemma {:induction false} RowClean(k: SeriesKey, q: Quota, minPeriods: int, slack: int, a: Reading, s: seq<Reading>)
    requires q.Valid()
    ensures RowViolations(k, q, minPeriods, slack, a, s) == [] <==>
      forall j :: 0 <= j < |s| ==> !Bad(q, minPeriods, slack, a, s[j])
  {
    if s != [] {
      RowClean(k, q, minPeriods, slack, a, Front(s));
      assert s[|s| - 1] == Last(s);
    }
  }

  lemma {:induction false} RowsClean(k: SeriesKey, q: Quota, minPeriods: int, slack: int, s: seq<Reading>, m: nat)
    requires q.Valid() && m <= |s|
    ensures Violations(k, q, minPeriods, slack, s, m) == [] <==>
      forall i, j :: 0 <= i < m && i < j < |s| ==> !Bad(q, minPeriods, slack, s[i], s[j])
  {
    if m > 0 {
      RowsClean(k, q, minPeriods, slack, s, m - 1);
      RowClean(k, q, minPeriods, slack, s[m - 1], s[m..]);
      if RowViolations(k, q, minPeriods, slack, s[m - 1], s[m..]) == [] {
        forall j | m - 1 < j < |s| ensures !Bad(q, minPeriods, slack, s[m - 1], s[j]) {
          assert s[m..][j - m] == s[j];
        }
      }
    }
  }

  lemma {:induction false} ExaminedPositive(q: Quota, minPeriods: int, s: seq<Reading>, m: nat)
    requires m <= |s|
    ensures Examined(q, minPeriods, s, m) > 0 <==>
      exists i, j :: 0 <= i < m && i < j < |s| && Long(q, minPeriods, s[i], s[j])
  {
    if m > 0 {
      ExaminedPositive(q, minPeriods, s, m - 1);
      CountPositive(LongFrom(q, minPeriods, s[m - 1]), s[m..]);
      if Examined(q, minPeriods, s, m) > 0 && Examined(q, minPeriods, s, m - 1) == 0 {
        var j :| 0 <= j < |s[m..]| && LongFrom(q, minPeriods, s[m - 1])(s[m..][j]);
        assert Long(q, minPeriods, s[m - 1], s[m + j]);
      }
      if i, j :| 0 <= i < m && i < j < |s| && Long(q, minPeriods, s[i], s[j]) {
        if i == m - 1 {
          assert LongFrom(q, minPeriods, s[m - 1])(s[m..][j - m]);
        }
      }
    }
  }

  ghost predicate SomeWindow(q: Quota, minPeriods: int, s: seq<Reading>) {
    exists a, b :: a in s && b in s && Long(q, minPeriods, a, b)
  }

  ghost predicate NoBadWindow(q: Quota, minPeriods: int, slack: int, s: seq<Reading>)
    requires q.Valid()
  {
    forall a, b :: a in s && b in s ==> !Bad(q, minPeriods, slack, a, b)
  }

  lemma SortedSomeWindow(q: Quota, minPeriods: int, s: seq<Reading>)
    requires NoSelfWindow(q, minPeriods, s) && Ordered(ReadingOrder, s)
    ensures Examined(q, minPeriods, s, |s|) > 0 <==> SomeWindow(q, minPeriods, s)
  {
    ExaminedPositive(q, minPeriods, s, |s|);
    if a, b :| a in s && b in s && Long(q, minPeriods, a, b) {
      var i :| 0 <= i < |s| && s[i] == a;
      var j :| 0 <= j < |s| && s[j] == b;
      LongGoesForward(q, minPeriods, s, i, j);
      assert Long(q, minPeriods, s[i], s[j]);
    }
    if i, j :| 0 <= i < |s| && i < j < |s| && Long(q, minPeriods, s[i], s[j]) {
      assert s[i] in s && s[j] in s;
    }
  }

  /** Windows are examined exactly when two readings are a long window apart,
      whatever order the log lists the readings in. */
  lemma SomeWindowExamined(q: Quota, minPeriods: int, samples: seq<Reading>)
    requires NoSelfWindow(q, minPeriods, samples)
    ensures var s := Sort(ReadingOrder, samples);
      Examined(q, minPeriods, s, |s|) > 0 <==> SomeWindow(q, minPeriods, samples)
  {
    SortedReadings(q, minPeriods, samples);
    SortMembers(ReadingOrder, samples);
    SortedSomeWindow(q, minPeriods, Sort(ReadingOrder, samples));
    assert SomeWindow(q, minPeriods, Sort(ReadingOrder, samples)) <==> SomeWindow(q, minPeriods, samples);
  }

  /** Something is reported exactly when a long window breaks the bound. */
  lemma BadWindowReported(k: SeriesKey, q: Quota, minPeriods: int, slack: int, samples: seq<Reading>)
    requires q.Valid() && NoSelfWindow(q, minPeriods, samples)
    ensures var s := Sort(ReadingOrder, samples);
      Violations(k, q, minPeriods, slack, s, |s|) == [] <==> NoBadWindow(q, minPeriods, slack, samples)
  {
    var s := Sort(ReadingOrder, samples);
    SortMembers(ReadingOrder, samples);
    RowsClean(k, q, minPeriods, slack, s, |s|);
    if Violations(k, q, minPeriods, slack, s, |s|) == [] {
      SortedReadings(q, minPeriods, samples);
      SortedWindows(q, minPeriods, s);
      forall a, b | a in samples && b in samples ensures !Bad(q, minPeriods, slack, a, b) {
        if Long(q, minPeriods, a, b) {
          var i, j :| 0 <= i < j < |s| && s[i] == a && s[j] == b;
          assert !Bad(q, minPeriods, slack, s[i], s[j]);
        }
      }
    }
    if NoBadWindow(q, minPeriods, slack, samples) {
      forall i, j | 0 <= i < |s| && i < j < |s| ensures !Bad(q, minPeriods, slack, s[i], s[j]) {
        assert s[i] in samples && s[j] in samples;
      }
    }
  }

  lemma SortedWindows(q: Quota, minPeriods: int, s: seq<Reading>)
    requires NoSelfWindow(q, minPeriods, s) && Ordered(ReadingOrder, s)
    ensures forall a, b :: a in s && b in s && Long(q, minPeriods, a, b) ==>
      exists i, j :: 0 <= i < j < |s| && s[i] == a && s[j] == b
  {
    forall a, b | a in s && b in s && Long(q, minPeriods, a, b)
      ensures exists i, j :: 0 <= i < j < |s| && s[i] == a && s[j] == b
    {
      var i :| 0 <= i < |s| && s[i] == a;
      var j :| 0 <= j < |s| && s[j] == b;
      LongGoesForward(q, minPeriods, s, i, j);
    }
  }

  // ---------------------------------------------------------------- the report is exact

  /** The readings that with `a` make up a window reported as `v`. */
  ghost function Accuses(k: SeriesKey, q: Quota, minPeriods: int, slack: int, a: Reading, v: Violation): Reading -> bool
    requires q.Valid()
  {
    (b: Reading) => Bad(q, minPeriods, slack, a, b) && Judge(k, q, slack, a, b) == v
  }

  ghost function Accusations(k: SeriesKey, q: Quota, minPeriods: int, slack: int, s: seq<Reading>, v: Violation)
    : Reading -> nat
    requires q.Valid()
  {
    (a: Reading) => Count(Accuses(k, q, minPeriods, slack, a, v), s)
  }

  /** Ordered pairs of readings that break the bound as `v` says. */
  ghost function BadPairs(k: SeriesKey, q: Quota, minPeriods: int, slack: int, s: seq<Reading>, v: Violation): nat
    requires q.Valid()
  {
    SumOf(Accusations(k, q, minPeriods, slack, s, v), s)
  }

  lemma {:induction false} RowReports(k: SeriesKey, q: Quota, minPeriods: int, slack: int, a: Reading,
    s: seq<Reading>, v: Violation)
    requires q.Valid()
    ensures multiset(RowViolations(k, q, minPeriods, slack, a, s))[v] ==
      Count(Accuses(k, q, minPeriods, slack, a, v), s)
  {
    if s != [] {
      RowReports(k, q, minPeriods, slack, a, Front(s), v);
    }
  }

  lemma {:induction false} RowsReport(k: SeriesKey, q: Quota, minPeriods: int, slack: int, s: seq<Reading>, m: nat,
    v: Violation)
    requires q.Valid() && NoSelfWindow(q, minPeriods, s) && Ordered(ReadingOrder, s) && m <= |s|
    ensures multiset(Violations(k, q, minPeriods, slack, s, m))[v] ==
      SumOf(Accusations(k, q, minPeriods, slack, s, v), s[..m])
  {
    if m > 0 {
      RowsReport(k, q, minPeriods, slack, s, m - 1, v);
      TakeSnoc(s, m - 1);
      RowReports(k, q, minPeriods, slack, s[m - 1], s[m..], v);
      RowIsComplete(q, minPeriods, s, m - 1, Accuses(k, q, minPeriods, slack, s[m - 1], v));
    }
  }

  lemma BadPairsOfPermutation(k: SeriesKey, q: Quota, minPeriods: int, slack: int, a: seq<Reading>, b: seq<Reading>,
    v: Violation)
    requires q.Valid() && multiset(a) == multiset(b)
    ensures BadPairs(k, q, minPeriods, slack, a, v) == BadPairs(k, q, minPeriods, slack, b, v)
  {
    var f, g := Accusations(k, q, minPeriods, slack, a, v), Accusations(k, q, minPeriods, slack, b, v);
    forall i | 0 <= i < |a| ensures f(a[i]) == g(a[i]) {
      CountOfPermutation(Accuses(k, q, minPeriods, slack, a[i], v), a, b);
    }
    SumOfSame(f, g, a);
    SumOfPermutation(g, a, b);
  }

  /** The report, as a bag, is the judgement of every pair that breaks the bound,
      each as often as the log holds such a pair, whatever order it lists them in. */
  lemma ReportIsExact(k: SeriesKey, q: Quota, minPeriods: int, slack: int, samples: seq<Reading>, v: Violation)
    requires q.Valid() && NoSelfWindow(q, minPeriods, samples)
    ensures var s := Sort(ReadingOrder, samples);
      multiset(Violations(k, q, minPeriods, slack, s, |s|))[v] == BadPairs(k, q, minPeriods, slack, samples, v)
  {
    var s := Sort(ReadingOrder, samples);
    SortedReadings(q, minPeriods, samples);
    RowsReport(k, q, minPeriods, slack, s, |s|, v);
    assert s[..|s|] == s;
    SortPermutes(ReadingOrder, samples);
    BadPairsOfPermutation(k, q, minPeriods, slack, samples, s, v);
  }

  lemma {:induction false} RowHasPair(k: SeriesKey, q: Quota, minPeriods: int, slack: int, a: Reading,
    s: seq<Reading>, v: Violation)
    requires q.Valid() && v in RowViolations(k, q, minPeriods, slack, a, s)
    ensures exists b :: b in s && Bad(q, minPeriods, slack, a, b) && Judge(k, q, slack, a, b) == v
  {
    InSnoc(s);
    if v in RowViolations(k, q, minPeriods, slack, a, Front(s)) {
      RowHasPair(k, q, minPeriods, slack, a, Front(s), v);
    } else {
      assert Bad(q, minPeriods, slack, a, Last(s));
    }
  }

  /** Whatever is reported, some two readings earn it. */
  lemma {:induction false} ReportHasPair(k: SeriesKey, q: Quota, minPeriods: int, slack: int, s: seq<Reading>, m: nat,
    v: Violation)
    requires q.Valid() && m <= |s| && v in Violations(k, q, minPeriods, slack, s, m)
    ensures exists a, b ::
      a in s && b in s && Bad(q, minPeriods, slack, a, b) && Judge(k, q, slack, a, b) == v
  {
    if v in Violations(k, q, minPeriods, slack, s, m - 1) {
      ReportHasPair(k, q, minPeriods, slack, s, m - 1, v);
    } else {
      RowHasPair(k, q, minPeriods, slack, s[m - 1], s[m..], v);
    }
  }

  lemma InSnoc<T(!new)>(s: seq<T>)
    requires s != []
    ensures forall x :: x in s <==> x in Front(s) || x == Last(s)
  {
    assert s == Front(s) + [Last(s)];
  }

  // ---------------------------------------------------------------- which quota applies

  /** Record `r` gives group `path` the bounded quota `q`, as read by `pid` if one is asked for. */
  ghost predicate Configures(r: Record, path: string, pid: Option<int>, q: Quota) {
    && r.ConfigRecord? && r.path == Some(path) && r.pid.Some? && (pid.Some? ==> r.pid == pid)
    && r.cpuMax == Some((q.quota, q.period)) && q.quota > 0 && q.period > 0
    && q.burst == if r.burst.Some? && r.burst.value >= 0 then r.burst.value else 0
  }

  ghost predicate Unconfigured(r: Record, path: string, pid: Option<int>) {
    forall q :: !Configures(r, path, pid, q)
  }

  /** The last record of the log that gives `path` a quota gives it `q`. */
  ghost predicate LatestQuota(records: seq<Record>, path: string, pid: Option<int>, q: Quota) {
    exists i :: 0 <= i < |records| && Configures(records[i], path, pid, q) &&
      forall j :: i < j < |records| ==> Unconfigured(records[j], path, pid)
  }

  /** A series is judged by the last quota its own process recorded for its group,
      or if it recorded none by the last quota any process recorded for it. */
  ghost predicate JudgedBy(records: seq<Record>, k: SeriesKey, q: Quota) {
    || LatestQuota(records, k.path, Some(k.pid), q)
    || ( && (forall i :: 0 <= i < |records| ==> Unconfigured(records[i], k.path, Some(k.pid)))
         && LatestQuota(records, k.path, None, q))
  }

  lemma LatestSnoc(records: seq<Record>, path: string, pid: Option<int>, q: Quota)
    requires records != []
    ensures LatestQuota(records, path, pid, q) <==>
      || Configures(Last(records), path, pid, q)
      || (Unconfigured(Last(records), path, pid) && LatestQuota(Front(records), path, pid, q))
  {
    var f, r := Front(records), Last(records);
    assert records[|f|] == r && forall i :: 0 <= i < |f| ==> records[i] == f[i];
    if Configures(r, path, pid, q) {
      assert Configures(records[|f|], path, pid, q);
    }
    if Unconfigured(r, path, pid) && LatestQuota(f, path, pid, q) {
      var i :| 0 <= i < |f| && Configures(f[i], path, pid, q) &&
        forall j :: i < j < |f| ==> Unconfigured(f[j], path, pid);
      assert Configures(records[i], path, pid, q);
    }
    if LatestQuota(records, path, pid, q) {
      var i :| 0 <= i < |records| && Configures(records[i], path, pid, q) &&
        forall j :: i < j < |records| ==> Unconfigured(records[j], path, pid);
      if i < |f| {
        assert Configures(f[i], path, pid, q);
        assert Unconfigured(records[|f|], path, pid);
      }
    }
  }

  lemma ParsedQuota(r: Record, path: string, pid: Option<int>, q: Quota)
    requires r.ConfigRecord? && r.path == Some(path) && r.pid.Some? && (pid.Some? ==> r.pid == pid)
    ensures Configures(r, path, pid, q) <==> ParseQuota(r.cpuMax, r.burst) == Some(q)
    ensures Unconfigured(r, path, pid) <==> ParseQuota(r.cpuMax, r.burst).None?
  {
    var p := ParseQuota(r.cpuMax, r.burst);
    if p.Some? {
      assert Configures(r, path, pid, p.value);
    }
  }

  /** The two maps hold the latest quota of each process for a group, and of each group. */
  lemma {:induction false} QuotaIsLatest(records: seq<Record>, k: SeriesKey, q: Quota)
    ensures k in ConfigsOf(records).own && ConfigsOf(records).own[k] == q <==>
      LatestQuota(records, k.path, Some(k.pid), q)
    ensures k.path in ConfigsOf(records).byPath && ConfigsOf(records).byPath[k.path] == q <==>
      LatestQuota(records, k.path, None, q)
  {
    if records != [] {
      QuotaIsLatest(Front(records), k, q);
      LatestSnoc(records, k.path, Some(k.pid), q);
      LatestSnoc(records, k.path, None, q);
      var r := Last(records);
      if r.ConfigRecord? && r.path == Some(k.path) && r.pid.Some? {
        ParsedQuota(r, k.path, None, q);
        if r.pid == Some(k.pid) {
          ParsedQuota(r, k.path, Some(k.pid), q);
        }
      }
    }
  }

  lemma {:induction false} OwnQuotaIff(records: seq<Record>, k: SeriesKey)
    ensures k in ConfigsOf(records).own <==>
      exists i :: 0 <= i < |records| && !Unconfigured(records[i], k.path, Some(k.pid))
  {
    if records != [] {
      var f, r := Front(records), Last(records);
      OwnQuotaIff(f, k);
      assert records[|f|] == r && forall i :: 0 <= i < |f| ==> records[i] == f[i];
      if i :| 0 <= i < |f| && !Unconfigured(f[i], k.path, Some(k.pid)) {
        assert !Unconfigured(records[i], k.path, Some(k.pid));
      }
      if r.ConfigRecord? && r.path == Some(k.path) && r.pid == Some(k.pid) {
        ParsedQuota(r, k.path, Some(k.pid), Quota(0, 0, 0));
        assert ParseQuota(r.cpuMax, r.burst).Some? ==> !Unconfigured(records[|f|], k.path, Some(k.pid));
      }
    }
  }

  /** The quota the check looks up is the one the log's records call for. */
  lemma QuotaIsJudged(records: seq<Record>, k: SeriesKey, q: Quota)
    ensures QuotaFor(ConfigsOf(records), k) == Some(q) <==> JudgedBy(records, k, q)
  {
    QuotaIsLatest(records, k, q);
    OwnQuotaIff(records, k);
    if LatestQuota(records, k.path, Some(k.pid), q) {
      assert k in ConfigsOf(records).own;
    }
  }

  // ---------------------------------------------------------------- which readings a series has

  /** The record is reading `a` of series `k`. */
  predicate IsReadingAt(k: SeriesKey, a: Reading, r: Record) {
    r == StatRecord(Some(k.path), Some(k.pid), Some(a.start), Some(a.end), Some(a.usage))
  }

  function ReadingAt(k: SeriesKey, a: Reading): Record -> bool {
    (r: Record) => IsReadingAt(k, a, r)
  }

  ghost predicate Recorded(records: seq<Record>, k: SeriesKey, a: Reading) {
    exists i :: 0 <= i < |records| && IsReadingAt(k, a, records[i])
  }

  /** A series holds each reading as often as the log records it. */
  lemma {:induction false} SeriesIsRecorded(records: seq<Record>, k: SeriesKey, a: Reading)
    ensures multiset(Series(k, records))[a] == Count(ReadingAt(k, a), records)
  {
    if records != [] {
      SeriesIsRecorded(Front(records), k, a);
    }
  }

  lemma SeriesHolds(records: seq<Record>, k: SeriesKey, a: Reading)
    ensures a in Series(k, records) <==> Recorded(records, k, a)
  {
    SeriesIsRecorded(records, k, a);
    assert a in Series(k, records) <==> a in multiset(Series(k, records));
    CountPositive(ReadingAt(k, a), records);
    if i :| 0 <= i < |records| && ReadingAt(k, a)(records[i]) {
      assert IsReadingAt(k, a, records[i]);
    }
    if i :| 0 <= i < |records| && IsReadingAt(k, a, records[i]) {
      assert ReadingAt(k, a)(records[i]);
    }
  }

  lemma {:induction false} SeenOnce(records: seq<Record>)
    ensures NoDuplicates(SeriesSeen(records))
  {
    if records != [] {
      SeenOnce(Front(records));
    }
  }

  lemma KeyOrderIsTotal()
    ensures TotalPreorder(KeyOrder)
  {
    forall a, b ensures KeyOrder(a, b) || KeyOrder(b, a) {
      StringLeTotal(a.path, b.path);
    }
    forall a, b, c | KeyOrder(a, b) && KeyOrder(b, c) ensures KeyOrder(a, c) {
      KeyOrderTransitive(a, b, c);
    }
  }

  lemma KeyOrderTransitive(a: SeriesKey, b: SeriesKey, c: SeriesKey)
    requires KeyOrder(a, b) && KeyOrder(b, c)
    ensures KeyOrder(a, c)
  {
    StringLeTotal(a.path, b.path);
    if a.path != b.path && b.path != c.path {
      StringLeTransitive(a.path, b.path, c.path);
    }
  }

  /** The series are exactly those with a reading, each once, by path and then pid. */
  lemma SeriesAreListed(records: seq<Record>)
    ensures var keys := SeriesOrder(records);
      && (forall i, j :: 0 <= i < j < |keys| ==> keys[i] != keys[j])
      && (forall i, j :: 0 <= i < j < |keys| ==>
          if keys[i].path == keys[j].path then keys[i].pid <= keys[j].pid else StringLe(keys[i].path, keys[j].path))
    ensures forall k :: k in SeriesOrder(records) <==> exists a :: Recorded(records, k, a)
  {
    KeyOrderIsTotal();
    SortOrdered(KeyOrder, SeriesSeen(records));
    SortPermutes(KeyOrder, SeriesSeen(records));
    SeenOnce(records);
    PermutationDistinct(SeriesSeen(records), SeriesOrder(records));
    SortMembers(KeyOrder, SeriesSeen(records));
    forall k ensures k in SeriesOrder(records) <==> exists a :: Recorded(records, k, a) {
      UnseenIsEmpty(k, records);
      if Series(k, records) != [] {
        SeriesHolds(records, k, Series(k, records)[0]);
      }
      if a :| Recorded(records, k, a) {
        SeriesHolds(records, k, a);
      }
    }
  }

  // ---------------------------------------------------------------- the verdict is exact

  /** No reading of a series with a quota is a long window apart from itself. */
  ghost predicate NoSelfWindows(records: seq<Record>, minPeriods: int) {
    forall k, q, a :: JudgedBy(records, k, q) && Recorded(records, k, a) ==> !Long(q, minPeriods, a, a)
  }

  /** A series the log gives a quota for has two readings a long window apart. */
  ghost predicate Checkable(records: seq<Record>, minPeriods: int, k: SeriesKey) {
    exists q, a, b ::
      JudgedBy(records, k, q) && Recorded(records, k, a) && Recorded(records, k, b) && Long(q, minPeriods, a, b)
  }

  /** No two readings of the series break the bound of its quota. */
  ghost predicate Clean(records: seq<Record>, minPeriods: int, slack: int, k: SeriesKey) {
    forall q: Quota, a, b ::
      q.Valid() && JudgedBy(records, k, q) && Recorded(records, k, a) && Recorded(records, k, b) ==>
      !Bad(q, minPeriods, slack, a, b)
  }

  lemma ReadingsOf(records: seq<Record>, k: SeriesKey)
    ensures forall a :: a in Series(k, records) <==> Recorded(records, k, a)
  {
    forall a ensures a in Series(k, records) <==> Recorded(records, k, a) {
      SeriesHolds(records, k, a);
    }
  }

  lemma Judgement(records: seq<Record>, k: SeriesKey)
    ensures forall q :: JudgedBy(records, k, q) <==> QuotaFor(ConfigsOf(records), k) == Some(q)
  {
    forall q ensures JudgedBy(records, k, q) <==> QuotaFor(ConfigsOf(records), k) == Some(q) {
      QuotaIsJudged(records, k, q);
    }
  }

  lemma SeriesHasNoSelfWindow(records: seq<Record>, minPeriods: int, k: SeriesKey, q: Quota)
    requires NoSelfWindows(records, minPeriods) && QuotaFor(ConfigsOf(records), k) == Some(q)
    ensures NoSelfWindow(q, minPeriods, Series(k, records))
  {
    QuotaIsJudged(records, k, q);
    ReadingsOf(records, k);
  }

  lemma CheckableIff(records: seq<Record>, minPeriods: int, k: SeriesKey)
    ensures Checkable(records, minPeriods, k) <==>
      var q := QuotaFor(ConfigsOf(records), k);
      q.Some? && SomeWindow(q.value, minPeriods, Series(k, records))
  {
    Judgement(records, k);
    ReadingsOf(records, k);
  }

  lemma CleanIff(records: seq<Record>, minPeriods: int, slack: int, k: SeriesKey, q: Quota)
    requires q.Valid() && QuotaFor(ConfigsOf(records), k) == Some(q)
    ensures Clean(records, minPeriods, slack, k) <==> NoBadWindow(q, minPeriods, slack, Series(k, records))
  {
    Judgement(records, k);
    ReadingsOf(records, k);
  }

  lemma KeyIsExact(records: seq<Record>, minPeriods: int, slack: int, k: SeriesKey)
    requires NoSelfWindows(records, minPeriods)
    ensures SeriesExamined(records, minPeriods, k) > 0 <==> Checkable(records, minPeriods, k)
    ensures SeriesViolations(records, minPeriods, slack, k) == [] <==> Clean(records, minPeriods, slack, k)
  {
    QuotaForIsValid(records, k);
    CheckableIff(records, minPeriods, k);
    var q := QuotaFor(ConfigsOf(records), k);
    if q.Some? {
      SeriesHasNoSelfWindow(records, minPeriods, k, q.value);
      SomeWindowExamined(q.value, minPeriods, Series(k, records));
      BadWindowReported(k, q.value, minPeriods, slack, Series(k, records));
      CleanIff(records, minPeriods, slack, k, q.value);
    } else {
      Judgement(records, k);
    }
  }

  lemma {:induction false} KeysExamined(records: seq<Record>, minPeriods: int, keys: seq<SeriesKey>)
    requires NoSelfWindows(records, minPeriods)
    ensures TotalExamined(records, minPeriods, keys) > 0 <==>
      exists k :: k in keys && Checkable(records, minPeriods, k)
  {
    if keys != [] {
      KeysExamined(records, minPeriods, Front(keys));
      KeyIsExact(records, minPeriods, 0, Last(keys));
      InSnoc(keys);
      if k :| k in keys && Checkable(records, minPeriods, k) {
        assert k in Front(keys) || k == Last(keys);
      }
    }
  }

  lemma {:induction false} KeysClean(records: seq<Record>, minPeriods: int, slack: int, keys: seq<SeriesKey>)
    requires NoSelfWindows(records, minPeriods)
    ensures AllViolations(records, minPeriods, slack, keys) == [] <==>
      forall k :: k in keys ==> Clean(records, minPeriods, slack, k)
  {
    if keys != [] {
      KeysClean(records, minPeriods, slack, Front(keys));
      KeyIsExact(records, minPeriods, slack, Last(keys));
      InSnoc(keys);
    }
  }

  /** The verdict is exact over the whole log: it is ok precisely when some series
      the records give a quota for has two readings a long window apart and no such
      pair, in any series, breaks the bound of the quota it is judged by. */
  lemma VerdictIsExact(records: seq<Record>, minPeriods: int, slack: int, c: Check)
    requires NoSelfWindows(records, minPeriods) && CheckOf(records, minPeriods, slack, c)
    ensures c.ok <==>
      && (exists k :: Checkable(records, minPeriods, k))
      && (forall k :: Clean(records, minPeriods, slack, k))
  {
    var keys := SeriesOrder(records);
    KeysExamined(records, minPeriods, keys);
    KeysClean(records, minPeriods, slack, keys);
    SeriesAreListed(records);
    forall k | k !in keys ensures !Checkable(records, minPeriods, k) && Clean(records, minPeriods, slack, k) {
    }
  }

  // ---------------------------------------------------------------- the report over the whole log

  /** Two readings of `v`'s series, judged by its quota, earn exactly violation `v`. */
  ghost predicate Earned(records: seq<Record>, minPeriods: int, slack: int, q: Quota, a: Reading, b: Reading,
    v: Violation)
  {
    && q.Valid() && JudgedBy(records, v.key, q) && Recorded(records, v.key, a) && Recorded(records, v.key, b)
    && b.start - a.end >= minPeriods * (q.period * 1000)
    && v.start == a.start && v.end == b.end && v.used == b.usage - a.usage
    && (if v.used < 0 then v.allowed == 0 else v.used > v.allowed && v.allowed == Allowed(q, slack, a, b))
  }

  lemma {:induction false} ViolationHasSeries(records: seq<Record>, minPeriods: int, slack: int,
    keys: seq<SeriesKey>, v: Violation)
    ensures v in AllViolations(records, minPeriods, slack, keys) <==>
      exists k :: k in keys && v in SeriesViolations(records, minPeriods, slack, k)
  {
    if keys != [] {
      ViolationHasSeries(records, minPeriods, slack, Front(keys), v);
      InSnoc(keys);
      if k :| k in keys && v in SeriesViolations(records, minPeriods, slack, k) {
        assert k in Front(keys) || k == Last(keys);
      }
    }
  }

  lemma SeriesViolationEarned(records: seq<Record>, minPeriods: int, slack: int, k: SeriesKey, v: Violation)
    requires v in SeriesViolations(records, minPeriods, slack, k)
    ensures v.key == k && exists q, a, b :: Earned(records, minPeriods, slack, q, a, b, v)
  {
    QuotaForIsValid(records, k);
    var q := QuotaFor(ConfigsOf(records), k).value;
    QuotaIsJudged(records, k, q);
    var s := Sort(ReadingOrder, Series(k, records));
    ReportHasPair(k, q, minPeriods, slack, s, |s|, v);
    SortMembers(ReadingOrder, Series(k, records));
    var a, b :| a in s && b in s && Bad(q, minPeriods, slack, a, b) && Judge(k, q, slack, a, b) == v;
    ReadingsOf(records, k);
    assert Earned(records, minPeriods, slack, q, a, b, v);
  }

  lemma EarnedIsReported(records: seq<Record>, minPeriods: int, slack: int, q: Quota, a: Reading, b: Reading,
    v: Violation)
    requires NoSelfWindows(records, minPeriods) && Earned(records, minPeriods, slack, q, a, b, v)
    ensures v in SeriesViolations(records, minPeriods, slack, v.key)
  {
    var k, samples := v.key, Series(v.key, records);
    QuotaIsJudged(records, k, q);
    ReadingsOf(records, k);
    SeriesHasNoSelfWindow(records, minPeriods, k, q);
    ReportIsExact(k, q, minPeriods, slack, samples, v);
    assert Bad(q, minPeriods, slack, a, b) && Judge(k, q, slack, a, b) == v;
    BadPairCounts(k, q, minPeriods, slack, samples, a, b, v);
    var s := Sort(ReadingOrder, samples);
    assert v in multiset(Violations(k, q, minPeriods, slack, s, |s|));
  }

  lemma BadPairCounts(k: SeriesKey, q: Quota, minPeriods: int, slack: int, s: seq<Reading>, a: Reading, b: Reading,
    v: Violation)
    requires q.Valid() && a in s && b in s && Bad(q, minPeriods, slack, a, b) && Judge(k, q, slack, a, b) == v
    ensures BadPairs(k, q, minPeriods, slack, s, v) > 0
  {
    var i :| 0 <= i < |s| && s[i] == a;
    var j :| 0 <= j < |s| && s[j] == b;
    CountPositive(Accuses(k, q, minPeriods, slack, a, v), s);
    assert Accuses(k, q, minPeriods, slack, a, v)(s[j]);
    SumOfPositive(Accusations(k, q, minPeriods, slack, s, v), s, i);
  }

  lemma {:induction false} SumOfPositive<T>(f: T -> nat, s: seq<T>, i: nat)
    requires i < |s| && f(s[i]) > 0
    ensures SumOf(f, s) > 0
  {
    if i < |s| - 1 {
      assert Front(s)[i] == s[i];
      SumOfPositive(f, Front(s), i);
    }
  }

  /** A violation is reported exactly when the log's own records earn it. */
  lemma ReportedIffEarned(records: seq<Record>, minPeriods: int, slack: int, c: Check, v: Violation)
    requires NoSelfWindows(records, minPeriods) && CheckOf(records, minPeriods, slack, c)
    ensures v in c.violations <==> exists q, a, b :: Earned(records, minPeriods, slack, q, a, b, v)
  {
    ViolationHasSeries(records, minPeriods, slack, SeriesOrder(records), v);
    if v in c.violations {
      var k :| k in SeriesOrder(records) && v in SeriesViolations(records, minPeriods, slack, k);
      SeriesViolationEarned(records, minPeriods, slack, k, v);
    }
    if q, a, b :| Earned(records, minPeriods, slack, q, a, b, v) {
      EarnedIsReported(records, minPeriods, slack, q, a, b, v);
      SeriesAreListed(records);
    }
  }
}
