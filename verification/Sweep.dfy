/** The sweep line that finds the largest number of simultaneous lifetimes. */
module Sweep {
  import opened Sequences
  import opened Sorting
  import opened Events

  /** `peak` is the largest number of lifetimes that contain one instant. */
  ghost predicate IsPeak(s: seq<Interval>, peak: int) {
    && (forall t :: Count(LiveAt(t), s) <= peak)
    && (exists t :: Count(LiveAt(t), s) == peak)
  }

  datatype Boundary = Boundary(at: int, delta: int)

  /** Tuple order: at one instant the ends come before the starts. */
  predicate SweepOrder(a: Boundary, b: Boundary) {
    a.at < b.at || (a.at == b.at && a.delta <= b.delta)
  }

  function Boundaries(s: seq<Interval>): seq<Boundary> {
    if s == [] then []
    else if Last(s).end <= Last(s).start then Boundaries(Front(s))
    else Boundaries(Front(s)) + [Boundary(Last(s).start, 1), Boundary(Last(s).end, -1)]
  }

  method CollectBoundaries(intervals: seq<Interval>) returns (boundaries: seq<Boundary>)
    ensures boundaries == Boundaries(intervals)
  {
    boundaries := [];
    for i := 0 to |intervals|
      invariant boundaries == Boundaries(intervals[..i])
    {
      TakeSnoc(intervals, i);
      if intervals[i].start < intervals[i].end {
        boundaries := boundaries + [Boundary(intervals[i].start, 1), Boundary(intervals[i].end, -1)];
      }
    }
    assert intervals[..|intervals|] == intervals;
  }

  /** The highest running count over the swept boundaries, and where it is reached. */
  method Highest(sweep: seq<Boundary>) returns (peak: int, ghost top: nat)
    requires Unit(sweep)
    ensures top <= |sweep| && peak == Height(sweep[..top])
    ensures forall j :: 0 <= j <= |sweep| ==> Height(sweep[..j]) <= peak
  {
    var active := 0;
    peak, top := 0, 0;
    for i := 0 to |sweep|
      invariant active == Height(sweep[..i])
      invariant forall j :: 0 <= j <= i ==> Height(sweep[..j]) <= peak
      invariant top <= i && peak == Height(sweep[..top])
    {
      HeightSnoc(sweep, i);
      active := active + sweep[i].delta;
      if active > peak {
        peak, top := active, i + 1;
      }
    }
  }

  lemma HeightSnoc(s: seq<Boundary>, i: nat)
    requires i < |s| && Unit(s)
    ensures Height(s[..i + 1]) == Height(s[..i]) + s[i].delta
  {
    TakeSnoc(s, i);
    assert s[i] in s;
  }

  method MaxOverlap(intervals: seq<Interval>) returns (peak: int)
    ensures IsPeak(intervals, peak)
  {
    var boundaries := CollectBoundaries(intervals);
    var sweep := Sort(SweepOrder, boundaries);
    SortIsSweep(intervals);
    ghost var top;
    peak, top := Highest(sweep);
    HighestPrefixIsPeak(intervals, sweep, top, peak);
  }

  // ---------------------------------------------------------------- heights

  predicate Up(b: Boundary) { b.delta == 1 }
  predicate Down(b: Boundary) { b.delta == -1 }

  /** The running count after `s`. */
  ghost function Height(s: seq<Boundary>): int {
    Count(Up, s) - Count(Down, s)
  }

  ghost predicate Unit(s: seq<Boundary>) {
    forall b :: b in s ==> b.delta == 1 || b.delta == -1
  }

  /** Position in tuple order, as one number. */
  function Rank(b: Boundary): int {
    2 * b.at + (if b.delta == 1 then 1 else 0)
  }

  function UpBy(c: int): Boundary -> bool {
    (b: Boundary) => Up(b) && Rank(b) <= c
  }

  function DownBy(c: int): Boundary -> bool {
    (b: Boundary) => Down(b) && Rank(b) <= c
  }

  /** The count once everything up to rank `c` has been swept. */
  ghost function HeightAt(s: seq<Boundary>, c: int): int {
    Count(UpBy(c), s) - Count(DownBy(c), s)
  }

  lemma {:induction false} BoundariesAreUnit(s: seq<Interval>)
    ensures Unit(Boundaries(s))
  {
    if s != [] {
      BoundariesAreUnit(Front(s));
    }
  }

  /** Strictly inside: neither starting nor ending at `t`. */
  function Across(t: int): Interval -> bool {
    (v: Interval) => v.start < t < v.end
  }

  lemma HeightAtPair(s: seq<Boundary>, a: Boundary, b: Boundary, c: int)
    ensures HeightAt(s + [a, b], c) == HeightAt(s, c) + HeightAt([a], c) + HeightAt([b], c)
  {
    assert s + [a, b] == (s + [a]) + [b];
    CountSnoc(UpBy(c), s + [a], b);
    CountSnoc(UpBy(c), s, a);
    CountSnoc(DownBy(c), s + [a], b);
    CountSnoc(DownBy(c), s, a);
    CountSnoc(UpBy(c), [], a);
    CountSnoc(DownBy(c), [], a);
    CountSnoc(UpBy(c), [], b);
    CountSnoc(DownBy(c), [], b);
    assert [] + [a] == [a] && [] + [b] == [b];
  }

  /** Sweeping through all boundaries at `t` leaves the lifetimes that contain
      `t`; stopping after the ends at `t` leaves those strictly across it. */
  lemma {:induction false} HeightIsLiveCount(s: seq<Interval>, t: int)
    ensures HeightAt(Boundaries(s), 2 * t + 1) == Count(LiveAt(t), s)
    ensures HeightAt(Boundaries(s), 2 * t) == Count(Across(t), s)
  {
    if s != [] {
      HeightIsLiveCount(Front(s), t);
      var v := Last(s);
      if v.start < v.end {
        var a, b := Boundary(v.start, 1), Boundary(v.end, -1);
        HeightAtPair(Boundaries(Front(s)), a, b, 2 * t + 1);
        HeightAtPair(Boundaries(Front(s)), a, b, 2 * t);
        HeightOfOne(a, 2 * t + 1);
        HeightOfOne(b, 2 * t + 1);
        HeightOfOne(a, 2 * t);
        HeightOfOne(b, 2 * t);
      }
    }
  }

  lemma HeightOfOne(b: Boundary, c: int)
    ensures HeightAt([b], c) ==
      (if UpBy(c)(b) then 1 else 0) - (if DownBy(c)(b) then 1 else 0)
  {
    CountSnoc(UpBy(c), [], b);
    CountSnoc(DownBy(c), [], b);
    assert [] + [b] == [b];
  }

  lemma SortedHeight(s: seq<Boundary>, c: int)
    ensures HeightAt(Sort(SweepOrder, s), c) == HeightAt(s, c)
  {
    SortPermutes(SweepOrder, s);
    CountOfPermutation(UpBy(c), s, Sort(SweepOrder, s));
    CountOfPermutation(DownBy(c), s, Sort(SweepOrder, s));
  }

  // ---------------------------------------------------------------- prefixes of the sweep

  ghost predicate Ranked(s: seq<Boundary>) {
    forall i, j :: 0 <= i < j < |s| ==> Rank(s[i]) <= Rank(s[j])
  }

  lemma SweepIsRanked(s: seq<Boundary>)
    requires Unit(s)
    ensures Ranked(Sort(SweepOrder, s)) && Unit(Sort(SweepOrder, s))
  {
    SortOrdered(SweepOrder, s);
    SortMembers(SweepOrder, s);
    var r := Sort(SweepOrder, s);
    forall i, j | 0 <= i < j < |r| ensures Rank(r[i]) <= Rank(r[j]) {
      assert SweepOrder(r[i], r[j]);
      assert r[i] in r && r[j] in r;
    }
  }

  lemma HeightAtSplits(a: seq<Boundary>, b: seq<Boundary>, c: int)
    ensures HeightAt(a + b, c) == HeightAt(a, c) + HeightAt(b, c)
  {
    CountConcat(UpBy(c), a, b);
    CountConcat(DownBy(c), a, b);
  }

  /** Boundaries none of which lies above rank `c`. */
  lemma BelowCut(a: seq<Boundary>, c: int)
    requires Unit(a) && forall i :: 0 <= i < |a| ==> Rank(a[i]) <= c
    ensures HeightAt(a, c) == Height(a)
    ensures if c % 2 == 1 then HeightAt(a, c - 1) <= Height(a) else Height(a) <= HeightAt(a, c - 1)
  {
    CountSame(UpBy(c), Up, a);
    CountSame(DownBy(c), Down, a);
    forall i | 0 <= i < |a| ensures a[i].delta == 1 || a[i].delta == -1 {
      assert a[i] in a;
    }
    if c % 2 == 1 {
      CountFewer(UpBy(c - 1), Up, a);
      CountSame(DownBy(c - 1), Down, a);
    } else {
      CountFewer(DownBy(c - 1), Down, a);
      CountSame(UpBy(c - 1), Up, a);
    }
  }

  /** Boundaries none of which lies below rank `c`. */
  lemma AboveCut(b: seq<Boundary>, c: int)
    requires forall i :: 0 <= i < |b| ==> c <= Rank(b[i])
    ensures HeightAt(b, c - 1) == 0
    ensures if c % 2 == 1 then 0 <= HeightAt(b, c) else HeightAt(b, c) <= 0
  {
    CountNone(UpBy(c - 1), b);
    CountNone(DownBy(c - 1), b);
    if c % 2 == 1 {
      CountNone(DownBy(c), b);
    } else {
      CountNone(UpBy(c), b);
    }
  }

  /** The count in the middle of a group of equal boundaries lies between the
      counts before and after the group. */
  lemma PrefixHeight(s: seq<Boundary>, i: nat)
    requires Ranked(s) && Unit(s) && 0 < i <= |s|
    ensures var t := s[i - 1].at;
      if s[i - 1].delta == 1 then HeightAt(s, 2 * t) <= Height(s[..i]) <= HeightAt(s, 2 * t + 1)
      else HeightAt(s, 2 * t) <= Height(s[..i]) <= HeightAt(s, 2 * t - 1)
  {
    var a, b, c := s[..i], s[i..], Rank(s[i - 1]);
    assert s == a + b;
    HeightAtSplits(a, b, c);
    HeightAtSplits(a, b, c - 1);
    assert Unit(a) by { assert forall x :: x in a ==> x in s; }
    BelowCut(a, c);
    forall j | 0 <= j < |b| ensures c <= Rank(b[j]) {
      assert b[j] == s[i + j];
    }
    AboveCut(b, c);
  }

  /** Everything up to rank `c` is a prefix of the sweep. */
  lemma {:induction false} CutIsPrefix(s: seq<Boundary>, c: int) returns (n: nat)
    requires Ranked(s)
    ensures n <= |s| && HeightAt(s, c) == Height(s[..n])
  {
    if s == [] || Rank(Last(s)) <= c {
      n := |s|;
      assert s[..n] == s;
      CountSame(UpBy(c), Up, s);
      CountSame(DownBy(c), Down, s);
    } else {
      n := CutIsPrefix(Front(s), c);
      assert Front(s)[..n] == s[..n];
    }
  }

  /** `r` is the boundaries of `s` in sweep order. */
  ghost predicate SweepOf(s: seq<Interval>, r: seq<Boundary>) {
    Ranked(r) && Unit(r) && forall c :: HeightAt(r, c) == HeightAt(Boundaries(s), c)
  }

  lemma SortIsSweep(s: seq<Interval>)
    ensures SweepOf(s, Sort(SweepOrder, Boundaries(s)))
  {
    BoundariesAreUnit(s);
    SweepIsRanked(Boundaries(s));
    forall c ensures HeightAt(Sort(SweepOrder, Boundaries(s)), c) == HeightAt(Boundaries(s), c) {
      SortedHeight(Boundaries(s), c);
    }
  }

  /** The running count never goes negative and never exceeds the number of
      lifetimes live at some instant. */
  lemma RunningCount(s: seq<Interval>, r: seq<Boundary>, i: nat) returns (t: int)
    requires SweepOf(s, r) && i <= |r|
    ensures 0 <= Height(r[..i]) <= Count(LiveAt(t), s)
  {
    if i == 0 {
      t := 0;
    } else {
      PrefixHeight(r, i);
      var at := r[i - 1].at;
      HeightIsLiveCount(s, at);
      t := if r[i - 1].delta == 1 then at else at - 1;
      HeightIsLiveCount(s, t);
      assert 2 * (at - 1) + 1 == 2 * at - 1;
    }
  }

  lemma HighestPrefixIsPeak(s: seq<Interval>, r: seq<Boundary>, top: nat, peak: int)
    requires SweepOf(s, r)
    requires top <= |r| && peak == Height(r[..top])
    requires forall j :: 0 <= j <= |r| ==> Height(r[..j]) <= peak
    ensures IsPeak(s, peak)
  {
    forall t ensures Count(LiveAt(t), s) <= peak {
      HeightIsLiveCount(s, t);
      var n := CutIsPrefix(r, 2 * t + 1);
    }
    var t := RunningCount(s, r, top);
    assert Count(LiveAt(t), s) == peak;
  }
}
