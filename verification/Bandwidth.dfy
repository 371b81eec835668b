/** `check_cgroup_bandwidth`: every long window of `cpu.stat` readings against
    the quota bound. Times are in nanoseconds, CPU usage in microseconds. */
module Bandwidth {
  import opened Sequences
  import opened Sorting
  import opened Ordering

  /** The group and the process that read it. */
  datatype SeriesKey = SeriesKey(path: string, pid: int)

  datatype Quota = Quota(quota: int, period: int, burst: int) {
    predicate Valid() {
      quota > 0 && period > 0 && burst >= 0
    }

    function PeriodNs(): int {
      period * 1000
    }
  }

  /** `usage` was read at some instant from `start` to `end`. */
  datatype Reading = Reading(start: int, end: int, usage: int)

  datatype Record =
    | ConfigRecord(path: Option<string>, pid: Option<int>, cpuMax: Option<(int, int)>, burst: Option<int>)
    | StatRecord(path: Option<string>, pid: Option<int>, start: Option<int>, end: Option<int>, usage: Option<int>)
    | OtherRecord

  datatype Violation = Violation(key: SeriesKey, start: int, end: int, used: int, allowed: int)

  datatype Check = Check(checkable: bool, ok: bool, checked: nat, violations: seq<Violation>)

  datatype CheckError = WindowTooShort | NegativeSlack

  datatype Outcome = Ok(check: Check) | Err(error: CheckError)

  // ---------------------------------------------------------------- one pair of readings

  function CeilDiv(n: int, d: int): int
    requires d > 0
  {
    (n + d - 1) / d
  }

  /** The two reads are apart by the minimum window wherever they fell. */
  predicate Long(q: Quota, minPeriods: int, a: Reading, b: Reading) {
    b.start - a.end >= minPeriods * q.PeriodNs()
  }

  function Allowed(q: Quota, slack: int, a: Reading, b: Reading): int
    requires q.Valid()
  {
    var elapsed := if b.end - a.start < 1 then 1 else b.end - a.start;
    q.quota * (CeilDiv(elapsed, q.PeriodNs()) + 1) + q.burst + slack
  }

  /** A long window breaks the bound when usage went backwards or too far. */
  predicate Breaks(q: Quota, slack: int, a: Reading, b: Reading)
    requires q.Valid()
  {
    b.usage < a.usage || b.usage - a.usage > Allowed(q, slack, a, b)
  }

  function Judge(k: SeriesKey, q: Quota, slack: int, a: Reading, b: Reading): Violation
    requires q.Valid()
  {
    Violation(k, a.start, b.end, b.usage - a.usage,
      if b.usage < a.usage then 0 else Allowed(q, slack, a, b))
  }

  // ---------------------------------------------------------------- one series

  predicate ReadingOrder(a: Reading, b: Reading) {
    if a.start != b.start then a.start < b.start
    else if a.end != b.end then a.end < b.end
    else a.usage <= b.usage
  }

  function LongFrom(q: Quota, minPeriods: int, a: Reading): Reading -> bool {
    (b: Reading) => Long(q, minPeriods, a, b)
  }

  /** Long windows that begin at one of the first `m` readings and end at a later one. */
  function Examined(q: Quota, minPeriods: int, s: seq<Reading>, m: nat): nat
    requires m <= |s|
  {
    if m == 0 then 0
    else Examined(q, minPeriods, s, m - 1) + Count(LongFrom(q, minPeriods, s[m - 1]), s[m..])
  }

  function RowViolations(k: SeriesKey, q: Quota, minPeriods: int, slack: int, a: Reading, s: seq<Reading>)
    : seq<Violation>
    requires q.Valid()
  {
    if s == [] then []
    else if Long(q, minPeriods, a, Last(s)) && Breaks(q, slack, a, Last(s)) then
      RowViolations(k, q, minPeriods, slack, a, Front(s)) + [Judge(k, q, slack, a, Last(s))]
    else RowViolations(k, q, minPeriods, slack, a, Front(s))
  }

  function Violations(k: SeriesKey, q: Quota, minPeriods: int, slack: int, s: seq<Reading>, m: nat): seq<Violation>
    requires q.Valid() && m <= |s|
  {
    if m == 0 then []
    else Violations(k, q, minPeriods, slack, s, m - 1) + RowViolations(k, q, minPeriods, slack, s[m - 1], s[m..])
  }

  method ScanSeries(k: SeriesKey, q: Quota, minPeriods: int, slack: int, samples: seq<Reading>)
    returns (checked: nat, violations: seq<Violation>)
    requires q.Valid()
    ensures var s := Sort(ReadingOrder, samples);
      && checked == Examined(q, minPeriods, s, |s|)
      && violations == Violations(k, q, minPeriods, slack, s, |s|)
  {
    var s := Sort(ReadingOrder, samples);
    checked, violations := 0, [];
    var minimum := minPeriods * q.PeriodNs();
    for i := 0 to |s|
      invariant checked == Examined(q, minPeriods, s, i)
      invariant violations == Violations(k, q, minPeriods, slack, s, i)
    {
      var row, rest := s[i], s[i + 1..];
      var n, v := checked, violations;
      for j := 0 to |rest|
        invariant checked == n + Count(LongFrom(q, minPeriods, row), rest[..j])
        invariant violations == v + RowViolations(k, q, minPeriods, slack, row, rest[..j])
      {
        TakeSnoc(rest, j);
        var last := rest[j];
        if last.start - row.end >= minimum {
          checked := checked + 1;
          if last.usage < row.usage {
            violations := violations + [Violation(k, row.start, last.end, last.usage - row.usage, 0)];
          } else {
            var elapsed := if last.end - row.start < 1 then 1 else last.end - row.start;
            var allowed := q.quota * (CeilDiv(elapsed, q.PeriodNs()) + 1) + q.burst + slack;
            var used := last.usage - row.usage;
            if used > allowed {
              violations := violations + [Violation(k, row.start, last.end, used, allowed)];
            }
          }
        }
      }
      assert rest[..|rest|] == rest;
    }
  }

  // ---------------------------------------------------------------- the log

  function ParseQuota(cpuMax: Option<(int, int)>, burst: Option<int>): (q: Option<Quota>)
    ensures q.Some? ==> q.value.Valid()
  {
    if cpuMax.None? || cpuMax.value.0 <= 0 || cpuMax.value.1 <= 0 then None
    else Some(Quota(cpuMax.value.0, cpuMax.value.1,
      if burst.None? || burst.value < 0 then 0 else burst.value))
  }

  /** The quotas a log records, the last record of a group and process winning. */
  datatype Configs = Configs(own: map<SeriesKey, Quota>, byPath: map<string, Quota>)

  function ConfigsOf(records: seq<Record>): Configs {
    if records == [] then Configs(map[], map[])
    else
      var c, r := ConfigsOf(Front(records)), Last(records);
      if r.ConfigRecord? && r.path.Some? && r.pid.Some? && ParseQuota(r.cpuMax, r.burst).Some? then
        var q := ParseQuota(r.cpuMax, r.burst).value;
        Configs(c.own[SeriesKey(r.path.value, r.pid.value) := q], c.byPath[r.path.value := q])
      else c
  }

  function QuotaFor(c: Configs, k: SeriesKey): Option<Quota> {
    if k in c.own then Some(c.own[k])
    else if k.path in c.byPath then Some(c.byPath[k.path])
    else None
  }

  predicate IsReading(r: Record) {
    r.StatRecord? && r.path.Some? && r.pid.Some? && r.start.Some? && r.end.Some? && r.usage.Some?
  }

  function ReadingKey(r: Record): SeriesKey
    requires IsReading(r)
  {
    SeriesKey(r.path.value, r.pid.value)
  }

  function ReadingOf(r: Record): Reading
    requires IsReading(r)
  {
    Reading(r.start.value, r.end.value, r.usage.value)
  }

  function Series(k: SeriesKey, records: seq<Record>): seq<Reading> {
    if records == [] then []
    else if IsReading(Last(records)) && ReadingKey(Last(records)) == k then
      Series(k, Front(records)) + [ReadingOf(Last(records))]
    else Series(k, Front(records))
  }

  function SeriesSeen(records: seq<Record>): seq<SeriesKey> {
    if records == [] then []
    else if IsReading(Last(records)) && ReadingKey(Last(records)) !in SeriesSeen(Front(records)) then
      SeriesSeen(Front(records)) + [ReadingKey(Last(records))]
    else SeriesSeen(Front(records))
  }

  predicate KeyOrder(a: SeriesKey, b: SeriesKey) {
    if a.path != b.path then StringLe(a.path, b.path) else a.pid <= b.pid
  }

  function SeriesOrder(records: seq<Record>): seq<SeriesKey> {
    Sort(KeyOrder, SeriesSeen(records))
  }

  method CollectConfigs(records: seq<Record>) returns (c: Configs)
    ensures c == ConfigsOf(records)
  {
    var own: map<SeriesKey, Quota>, byPath: map<string, Quota> := map[], map[];
    for n := 0 to |records|
      invariant Configs(own, byPath) == ConfigsOf(records[..n])
    {
      TakeSnoc(records, n);
      var r := records[n];
      if r.ConfigRecord? && r.path.Some? && r.pid.Some? {
        var parsed := ParseQuota(r.cpuMax, r.burst);
        if parsed.Some? {
          own := own[SeriesKey(r.path.value, r.pid.value) := parsed.value];
          byPath := byPath[r.path.value := parsed.value];
        }
      }
    }
    assert records[..|records|] == records;
    return Configs(own, byPath);
  }

  lemma {:induction false} UnseenIsEmpty(k: SeriesKey, records: seq<Record>)
    ensures k !in SeriesSeen(records) <==> Series(k, records) == []
  {
    if records != [] {
      UnseenIsEmpty(k, Front(records));
    }
  }

  method CollectSeries(records: seq<Record>) returns (seen: seq<SeriesKey>, table: map<SeriesKey, seq<Reading>>)
    ensures seen == SeriesSeen(records)
    ensures forall k :: k in table.Keys <==> k in seen
    ensures forall k :: k in table ==> table[k] == Series(k, records)
  {
    seen, table := [], map[];
    for n := 0 to |records|
      invariant seen == SeriesSeen(records[..n])
      invariant forall k :: k in table.Keys <==> k in seen
      invariant forall k :: k in table ==> table[k] == Series(k, records[..n])
    {
      TakeSnoc(records, n);
      var r := records[n];
      if IsReading(r) {
        var k := ReadingKey(r);
        if k !in table {
          UnseenIsEmpty(k, records[..n]);
          seen := seen + [k];
          table := table[k := []];
        }
        table := table[k := table[k] + [ReadingOf(r)]];
      }
    }
    assert records[..|records|] == records;
  }

  ghost predicate ValidConfigs(c: Configs) {
    && (forall k :: k in c.own ==> c.own[k].Valid())
    && (forall p :: p in c.byPath ==> c.byPath[p].Valid())
  }

  lemma {:induction false} QuotasAreValid(records: seq<Record>)
    ensures ValidConfigs(ConfigsOf(records))
  {
    if records != [] {
      QuotasAreValid(Front(records));
    }
  }

  lemma QuotaForIsValid(records: seq<Record>, k: SeriesKey)
    ensures QuotaFor(ConfigsOf(records), k).Some? ==> QuotaFor(ConfigsOf(records), k).value.Valid()
  {
    QuotasAreValid(records);
  }

  /** The windows of one group and process, and how many break the bound. */
  function SeriesExamined(records: seq<Record>, minPeriods: int, k: SeriesKey): nat {
    var q, s := QuotaFor(ConfigsOf(records), k), Sort(ReadingOrder, Series(k, records));
    if q.None? then 0 else Examined(q.value, minPeriods, s, |s|)
  }

  function SeriesViolations(records: seq<Record>, minPeriods: int, slack: int, k: SeriesKey): seq<Violation> {
    QuotaForIsValid(records, k);
    var q, s := QuotaFor(ConfigsOf(records), k), Sort(ReadingOrder, Series(k, records));
    if q.None? then [] else Violations(k, q.value, minPeriods, slack, s, |s|)
  }

  function TotalExamined(records: seq<Record>, minPeriods: int, keys: seq<SeriesKey>): nat {
    if keys == [] then 0
    else TotalExamined(records, minPeriods, Front(keys)) + SeriesExamined(records, minPeriods, Last(keys))
  }

  function AllViolations(records: seq<Record>, minPeriods: int, slack: int, keys: seq<SeriesKey>): seq<Violation> {
    if keys == [] then []
    else
      AllViolations(records, minPeriods, slack, Front(keys))
      + SeriesViolations(records, minPeriods, slack, Last(keys))
  }

  ghost predicate CheckOf(records: seq<Record>, minPeriods: int, slack: int, c: Check) {
    var keys := SeriesOrder(records);
    && c.checked == TotalExamined(records, minPeriods, keys)
    && c.violations == AllViolations(records, minPeriods, slack, keys)
    && c.checkable == (c.checked > 0)
    && c.ok == (c.checkable && c.violations == [])
  }

  method CheckBandwidth(records: seq<Record>, minPeriods: int, slack: int) returns (r: Outcome)
    ensures r.Ok? <==> 1 <= minPeriods && 0 <= slack
    ensures r == Err(WindowTooShort) <==> minPeriods < 1
    ensures r == Err(NegativeSlack) <==> 1 <= minPeriods && slack < 0
    ensures r.Ok? ==> CheckOf(records, minPeriods, slack, r.check)
  {
    if minPeriods < 1 {
      return Err(WindowTooShort);
    }
    if slack < 0 {
      return Err(NegativeSlack);
    }
    var configs := CollectConfigs(records);
    var seen, table := CollectSeries(records);
    var keys := Sort(KeyOrder, seen);
    var checked: nat, violations := 0, [];
    for n := 0 to |keys|
      invariant checked == TotalExamined(records, minPeriods, keys[..n])
      invariant violations == AllViolations(records, minPeriods, slack, keys[..n])
    {
      TakeSnoc(keys, n);
      SortMembers(KeyOrder, seen);
      assert keys[n] in keys && keys[n] in seen;
      var q := QuotaFor(configs, keys[n]);
      if q.Some? {
        QuotaForIsValid(records, keys[n]);
        var more, found := ScanSeries(keys[n], q.value, minPeriods, slack, table[keys[n]]);
        checked := checked + more;
        violations := violations + found;
      }
    }
    assert keys[..|keys|] == keys;
    return Ok(Check(checked > 0, checked > 0 && violations == [], checked, violations));
  }
}
