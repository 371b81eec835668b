/** Consumers a quota permits, following `cpu.max` and `cpu.max.burst` in the
    "CPU Interface Files" section of the Linux cgroup v2 documentation, and why
    the bandwidth check never accuses one. */
module QuotaConsumers {
  import opened Sequences
  import opened Arithmetic
  import opened Bandwidth
  import opened BandwidthLaws

  /** Quota period `n` is `[PeriodStart(n), PeriodStart(n + 1))`, for a group whose
      periods began at any phase. The quota's period is in microseconds. */
  function PeriodStart(q: Quota, phase: int, n: int): int {
    phase + n * (q.period * 1000)
  }

  function Spent(q: Quota, phase: int, granted: int -> int, n: int): int {
    granted(PeriodStart(q, phase, n + 1)) - granted(PeriodStart(q, phase, n))
  }

  ghost predicate Monotone(f: int -> int) {
    forall s, t :: s <= t ==> f(s) <= f(t)
  }

  /** The kernel's grant: in each period at most the quota plus the tokens carried
      over, and what is left over carries on up to the burst. */
  ghost predicate LegalGrant(q: Quota, phase: int, granted: int -> int, carry: int -> int) {
    && Monotone(granted)
    && (forall n :: 0 <= carry(n) <= q.burst)
    && (forall n :: LegalPeriod(q, phase, granted, carry, n))
  }

  ghost predicate LegalPeriod(q: Quota, phase: int, granted: int -> int, carry: int -> int, n: int) {
    var left := q.quota + carry(n) - Spent(q, phase, granted, n);
    left >= 0 && carry(n + 1) == if left < q.burst then left else q.burst
  }

  /** Usage trails the grant by at most the runtime cached on the CPUs. */
  ghost predicate LegalUse(slack: int, granted: int -> int, used: int -> int) {
    && Monotone(used)
    && (forall t :: granted(t) - slack <= used(t) <= granted(t))
  }

  ghost predicate Legal(q: Quota, slack: int, used: int -> int) {
    exists phase, granted, carry ::
      LegalGrant(q, phase, granted, carry) && LegalUse(slack, granted, used)
  }

  /** `r` was read from the consumer's counter at some instant inside its window. */
  ghost predicate ReadsFrom(used: int -> int, r: Reading) {
    exists t :: r.start <= t <= r.end && r.usage == used(t)
  }

  // ---------------------------------------------------------------- token bucket

  /** Over any run of periods the grants are the quotas plus what the carry gave up. */
  lemma {:induction false} TokenBucket(q: Quota, phase: int, granted: int -> int, carry: int -> int, n: int, m: nat)
    requires LegalGrant(q, phase, granted, carry)
    ensures granted(PeriodStart(q, phase, n + m)) - granted(PeriodStart(q, phase, n)) <=
      m * q.quota + carry(n) - carry(n + m)
  {
    if m > 0 {
      TokenBucket(q, phase, granted, carry, n, m - 1);
      assert LegalPeriod(q, phase, granted, carry, n + m - 1);
      assert n + (m - 1) == n + m - 1 && (n + m - 1) + 1 == n + m;
      assert m * q.quota == (m - 1) * q.quota + q.quota;
    }
  }

  lemma SumTimes(a: int, c: int, p: int)
    ensures (a + c + 1) * p == a * p + c * p + p
  {
  }

  /** A window of length at most `w` meets at most `ceil(w / p) + 1` periods. */
  lemma PeriodsTouched(p: int, phase: int, s: int, t: int, w: int)
    requires p > 0 && s <= t && t - s <= w
    ensures (t - phase) / p - (s - phase) / p + 1 <= CeilDiv(w, p) + 1
  {
    var a, b, c := (s - phase) / p, (t - phase) / p, CeilDiv(w, p);
    DivBounds(s - phase, p);
    DivBounds(t - phase, p);
    DivBounds(w + p - 1, p);
    SumTimes(a, c, p);
    MulCancel(b, a + c + 1, p);
  }

  /** Every instant lies in the period its distance from the phase says. */
  lemma InPeriod(q: Quota, phase: int, t: int)
    requires q.Valid()
    ensures var n := (t - phase) / q.PeriodNs(); PeriodStart(q, phase, n) <= t < PeriodStart(q, phase, n + 1)
  {
    var p := q.PeriodNs();
    DivBounds(t - phase, p);
    NextPeriod((t - phase) / p, p);
  }

  lemma NextPeriod(n: int, p: int)
    ensures (n + 1) * p == n * p + p
  {
  }

  /** Over whole periods the grant is at most their quotas and the burst. */
  lemma PeriodsGrant(q: Quota, phase: int, granted: int -> int, carry: int -> int, n: int, m: nat, most: int)
    requires q.Valid() && LegalGrant(q, phase, granted, carry) && m <= most
    ensures granted(PeriodStart(q, phase, n + m)) - granted(PeriodStart(q, phase, n)) <= q.quota * most + q.burst
  {
    TokenBucket(q, phase, granted, carry, n, m);
    assert 0 <= carry(n) <= q.burst && 0 <= carry(n + m);
    MulMonotone(m, most, q.quota);
  }

  /** In any window of length at most `w` the grant is at most the bound. */
  lemma WindowGrant(q: Quota, phase: int, granted: int -> int, carry: int -> int, s: int, t: int, w: int)
    requires q.Valid() && LegalGrant(q, phase, granted, carry) && s <= t && t - s <= w
    ensures granted(t) - granted(s) <= q.quota * (CeilDiv(w, q.PeriodNs()) + 1) + q.burst
  {
    var p := q.PeriodNs();
    var a, b := (s - phase) / p, (t - phase) / p;
    InPeriod(q, phase, s);
    InPeriod(q, phase, t);
    assert granted(PeriodStart(q, phase, a)) <= granted(s);
    assert granted(t) <= granted(PeriodStart(q, phase, b + 1));
    DivMonotone(s - phase, t - phase, p);
    PeriodsTouched(p, phase, s, t, w);
    PeriodsGrant(q, phase, granted, carry, a, b + 1 - a, CeilDiv(w, p) + 1);
    assert a + (b + 1 - a) == b + 1;
  }

  // ---------------------------------------------------------------- no false alarm

  lemma LegalWindow(q: Quota, slack: int, used: int -> int, s: int, t: int, w: int)
    requires q.Valid() && Legal(q, slack, used) && s <= t && t - s <= w
    ensures 0 <= used(t) - used(s) <= q.quota * (CeilDiv(w, q.PeriodNs()) + 1) + q.burst + slack
  {
    var phase, granted, carry :| LegalGrant(q, phase, granted, carry) && LegalUse(slack, granted, used);
    WindowGrant(q, phase, granted, carry, s, t, w);
    assert granted(t) - slack <= used(t) <= granted(t);
    assert granted(s) - slack <= used(s) <= granted(s);
  }

  /** The instants of two readings a long window apart lie inside the window judged. */
  lemma WindowHolds(q: Quota, minPeriods: int, a: Reading, b: Reading, s: int, t: int)
    requires q.Valid() && minPeriods >= 1 && Long(q, minPeriods, a, b)
    requires a.start <= s <= a.end && b.start <= t <= b.end
    ensures s < t && t - s <= b.end - a.start
  {
  }

  /** Two readings of a legal consumer never break the bound. */
  lemma LegalPairPasses(q: Quota, minPeriods: int, slack: int, used: int -> int, a: Reading, b: Reading)
    requires q.Valid() && minPeriods >= 1 && Legal(q, slack, used)
    requires ReadsFrom(used, a) && ReadsFrom(used, b)
    ensures !Bad(q, minPeriods, slack, a, b)
  {
    if Long(q, minPeriods, a, b) {
      var s :| a.start <= s <= a.end && a.usage == used(s);
      var t :| b.start <= t <= b.end && b.usage == used(t);
      WindowHolds(q, minPeriods, a, b, s, t);
      LegalWindow(q, slack, used, s, t, b.end - a.start);
    }
  }

  /** Every series with a quota was read from a consumer that quota permits. */
  ghost predicate LegalLog(records: seq<Record>, slack: int) {
    forall k :: LegalSeries(records, slack, k)
  }

  ghost predicate LegalSeries(records: seq<Record>, slack: int, k: SeriesKey) {
    forall q :: JudgedBy(records, k, q) ==> LegalUnder(records, slack, k, q)
  }

  /** All readings of series `k` come from one consumer that quota `q` permits. */
  ghost predicate LegalUnder(records: seq<Record>, slack: int, k: SeriesKey, q: Quota) {
    exists used :: Legal(q, slack, used) && forall a :: Recorded(records, k, a) ==> ReadsFrom(used, a)
  }

  lemma LegalSeriesPasses(records: seq<Record>, minPeriods: int, slack: int, k: SeriesKey, q: Quota)
    requires minPeriods >= 1 && LegalSeries(records, slack, k) && QuotaFor(ConfigsOf(records), k) == Some(q)
    requires q.Valid()
    ensures NoSelfWindow(q, minPeriods, Series(k, records))
    ensures NoBadWindow(q, minPeriods, slack, Series(k, records))
  {
    QuotaIsJudged(records, k, q);
    ReadingsOf(records, k);
    assert LegalUnder(records, slack, k, q);
    var used :| Legal(q, slack, used) && forall a :: Recorded(records, k, a) ==> ReadsFrom(used, a);
    TimedHasNoSelfWindow(q, minPeriods, Series(k, records));
    forall a, b | a in Series(k, records) && b in Series(k, records) ensures !Bad(q, minPeriods, slack, a, b) {
      LegalPairPasses(q, minPeriods, slack, used, a, b);
    }
  }

  lemma {:induction false} LegalKeysPass(records: seq<Record>, minPeriods: int, slack: int, keys: seq<SeriesKey>)
    requires minPeriods >= 1 && LegalLog(records, slack)
    ensures AllViolations(records, minPeriods, slack, keys) == []
  {
    if keys != [] {
      LegalKeysPass(records, minPeriods, slack, Front(keys));
      var k := Last(keys);
      assert LegalSeries(records, slack, k);
      QuotaForIsValid(records, k);
      var q := QuotaFor(ConfigsOf(records), k);
      if q.Some? {
        LegalSeriesPasses(records, minPeriods, slack, k, q.value);
        BadWindowReported(k, q.value, minPeriods, slack, Series(k, records));
      }
    }
  }

  /** No false alarm: consumers within their quotas, read at any instants inside
      the recorded windows, for any phase of the periods, yield no violation. */
  lemma NoFalseAlarm(records: seq<Record>, minPeriods: int, slack: int, c: Check)
    requires minPeriods >= 1 && LegalLog(records, slack) && CheckOf(records, minPeriods, slack, c)
    ensures c.violations == [] && c.ok == c.checkable
  {
    LegalKeysPass(records, minPeriods, slack, SeriesOrder(records));
  }

  // ---------------------------------------------------------------- counters that only grow

  /** A series read, at any instants inside its windows, from a counter that only grows. */
  ghost predicate ReadFromCounter(records: seq<Record>, k: SeriesKey) {
    exists used :: Monotone(used) && forall a :: Recorded(records, k, a) ==> ReadsFrom(used, a)
  }

  lemma CounterPairForward(q: Quota, minPeriods: int, used: int -> int, a: Reading, b: Reading)
    requires q.Valid() && minPeriods >= 1 && Monotone(used)
    requires ReadsFrom(used, a) && ReadsFrom(used, b) && Long(q, minPeriods, a, b)
    ensures a.usage <= b.usage
  {
    var s :| a.start <= s <= a.end && a.usage == used(s);
    var t :| b.start <= t <= b.end && b.usage == used(t);
    WindowHolds(q, minPeriods, a, b, s, t);
  }

  /** A counter that only grows is never reported as going backwards, whatever its
      consumer uses, however reads overlap and whatever the other series hold. */
  lemma CounterNeverBackwards(records: seq<Record>, minPeriods: int, slack: int, c: Check, v: Violation)
    requires minPeriods >= 1 && CheckOf(records, minPeriods, slack, c)
    requires v in c.violations && ReadFromCounter(records, v.key)
    ensures v.used >= 0
  {
    ViolationHasSeries(records, minPeriods, slack, SeriesOrder(records), v);
    var k :| k in SeriesOrder(records) && v in SeriesViolations(records, minPeriods, slack, k);
    SeriesViolationEarned(records, minPeriods, slack, k, v);
    var q, a, b :| Earned(records, minPeriods, slack, q, a, b, v);
    var used :| Monotone(used) && forall a :: Recorded(records, k, a) ==> ReadsFrom(used, a);
    CounterPairForward(q, minPeriods, used, a, b);
  }

  // ---------------------------------------------------------------- the bound is tight

  /** Saves the burst, spends it with the first quota at the end of period 0, and
      from then on spends each quota as soon as it is replenished. */
  function Greedy(q: Quota): int -> int {
    (t: int) => if q.period <= 0 || t < q.PeriodNs() then 0
                else q.burst + CeilDiv(t, q.PeriodNs()) * q.quota
  }

  function GreedyCarry(q: Quota): int -> int {
    (n: int) => if n <= 0 then q.burst else 0
  }

  lemma CeilDivMonotone(s: int, t: int, p: int)
    requires p > 0 && s <= t
    ensures CeilDiv(s, p) <= CeilDiv(t, p)
  {
    DivMonotone(s + p - 1, t + p - 1, p);
  }

  /** `ceil(m / p)` for `m` in `(n * p - p, n * p]`. */
  lemma CeilDivIs(m: int, n: int, p: int)
    requires p > 0 && n * p - p < m <= n * p
    ensures CeilDiv(m, p) == n
  {
    var c := CeilDiv(m, p);
    DivBounds(m + p - 1, p);
    assert (c + 1) * p == c * p + p && (n + 1) * p == n * p + p;
    MulCancel(c, n + 1, p);
    MulCancel(n, c + 1, p);
  }

  lemma GreedyAtStart(q: Quota, n: int)
    requires q.Valid()
    ensures Greedy(q)(PeriodStart(q, 0, n)) == if n < 1 then 0 else q.burst + n * q.quota
  {
    var p := q.PeriodNs();
    if n < 1 {
      MulMonotone(n, 0, p);
    } else {
      MulAtLeast(n, p);
      CeilDivIs(n * p, n, p);
    }
  }

  lemma GreedyMonotone(q: Quota, s: int, t: int)
    requires q.Valid() && s <= t
    ensures Greedy(q)(s) <= Greedy(q)(t)
  {
    var p := q.PeriodNs();
    if t >= p {
      CeilDivIs(p, 1, p);
      CeilDivMonotone(p, t, p);
      MulMonotone(1, CeilDiv(t, p), q.quota);
      if s >= p {
        CeilDivMonotone(s, t, p);
        MulMonotone(CeilDiv(s, p), CeilDiv(t, p), q.quota);
      }
    }
  }

  lemma GreedyPeriod(q: Quota, n: int)
    requires q.Valid()
    ensures LegalPeriod(q, 0, Greedy(q), GreedyCarry(q), n)
  {
    GreedyAtStart(q, n);
    GreedyAtStart(q, n + 1);
    var x, y := n * q.quota, (n + 1) * q.quota;
    assert y == x + q.quota;
    assert Spent(q, 0, Greedy(q), n) == if n < 0 then 0 else if n == 0 then q.burst + q.quota else q.quota;
  }

  lemma GreedyGrantIsLegal(q: Quota)
    requires q.Valid()
    ensures LegalGrant(q, 0, Greedy(q), GreedyCarry(q))
  {
    forall s, t | s <= t ensures Greedy(q)(s) <= Greedy(q)(t) {
      GreedyMonotone(q, s, t);
    }
    forall n ensures LegalPeriod(q, 0, Greedy(q), GreedyCarry(q), n) {
      GreedyPeriod(q, n);
    }
    forall n ensures 0 <= GreedyCarry(q)(n) <= q.burst {
    }
  }

  /** The same grant with `slack` handed out beforehand. */
  function Ahead(q: Quota, slack: int): int -> int {
    (t: int) => Greedy(q)(t) + slack
  }

  /** Uses nothing of the head start before the first period ends, and all of it
      from then on. */
  function Trailing(q: Quota, slack: int): int -> int {
    (t: int) => if t < q.PeriodNs() then Greedy(q)(t) else Greedy(q)(t) + slack
  }

  lemma TrailingIsLegal(q: Quota, slack: nat)
    requires q.Valid()
    ensures Legal(q, slack, Trailing(q, slack))
  {
    var granted, used, carry := Ahead(q, slack), Trailing(q, slack), GreedyCarry(q);
    GreedyGrantIsLegal(q);
    forall n ensures LegalPeriod(q, 0, granted, carry, n) {
      assert LegalPeriod(q, 0, Greedy(q), carry, n);
      assert Spent(q, 0, granted, n) == Spent(q, 0, Greedy(q), n);
    }
    forall s, t | s <= t ensures granted(s) <= granted(t) && used(s) <= used(t) {
      GreedyMonotone(q, s, t);
    }
    assert LegalGrant(q, 0, granted, carry);
    assert LegalUse(slack, granted, used);
  }

  lemma GreedyWindow(q: Quota, k: nat)
    requires q.Valid() && k >= 1
    ensures Greedy(q)(q.PeriodNs() - 1) == 0
    ensures Greedy(q)((k + 1) * q.PeriodNs() - 1) == q.burst + (k + 1) * q.quota
    ensures CeilDiv(k * q.PeriodNs(), q.PeriodNs()) == k
  {
    var p := q.PeriodNs();
    assert (k + 1) * p == k * p + p && k * p >= p;
    CeilDivIs((k + 1) * p - 1, k + 1, p);
    CeilDivIs(k * p, k, p);
  }

  /** The bound is exactly right: for every quota, slack and whole number of
      periods some legal consumer uses all that the check allows, so no smaller
      bound would be free of false alarms. */
  lemma BoundIsTight(q: Quota, minPeriods: int, slack: nat, k: nat)
    requires q.Valid() && 1 <= minPeriods <= k
    ensures exists used, a, b ::
      && Legal(q, slack, used) && ReadsFrom(used, a) && ReadsFrom(used, b)
      && Long(q, minPeriods, a, b) && b.end - a.start == k * q.PeriodNs()
      && b.usage - a.usage == Allowed(q, slack, a, b)
  {
    var p := q.PeriodNs();
    var used, s, t := Trailing(q, slack), p - 1, (k + 1) * p - 1;
    TrailingIsLegal(q, slack);
    GreedyWindow(q, k);
    var a, b := Reading(s, s, used(s)), Reading(t, t, used(t));
    assert (k + 1) * p == k * p + p;
    assert ReadsFrom(used, a) && ReadsFrom(used, b);
    MulMonotone(minPeriods, k, p);
    MulAtLeast(k, p);
    assert q.quota * (k + 1) == (k + 1) * q.quota;
  }
}
