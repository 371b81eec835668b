/** `verify_directory` from loaded records on: exact inventories, and no case counted twice. */
module CaseTimings {
  import opened Sequences
  import opened Sorting
  import opened Ordering

  datatype Case = Case(runner: string, gate: string, id: string, outcome: string, duration: Option<real>)

  datatype RunFile = RunFile(
    source: string,
    runner: string,
    gate: string,
    nested: bool,
    inventory: seq<string>,
    cases: seq<Case>)

  datatype Problem =
    | DuplicateInventory(source: string, gate: string)
    | DuplicateCase(source: string, gate: string, id: string)
    | MissingCase(source: string, gate: string, id: string)
    | ExtraCase(source: string, gate: string, id: string)
    | DuplicatePrimary(source: string, runner: string, gate: string, id: string)

  datatype Report = Report(
    problems: seq<Problem>,
    primary: seq<Case>,
    nestedCount: nat,
    files: nat,
    missingGates: seq<string>)

  type Key = (string, string, string)

  function KeyOf(c: Case): Key {
    (c.runner, c.gate, c.id)
  }

  function IdOf(c: Case): string {
    c.id
  }

  function Ids(cases: seq<Case>): seq<string> {
    Map(IdOf, cases)
  }

  function Members(s: seq<string>): set<string> {
    set x | x in s
  }

  predicate IsDuplicatePrimary(p: Problem) {
    p.DuplicatePrimary?
  }

  // ---------------------------------------------------------------- sorted listings

  ghost predicate StrictlySorted(s: seq<string>) {
    forall i, j :: 0 <= i < j < |s| ==> StringLe(s[i], s[j]) && s[i] != s[j]
  }

  lemma StringLeIsTotal()
    ensures TotalPreorder(StringLe)
  {
    forall a, b ensures StringLe(a, b) || StringLe(b, a) {
      StringLeTotal(a, b);
    }
    forall a, b, c | StringLe(a, b) && StringLe(b, c) ensures StringLe(a, c) {
      StringLeTransitive(a, b, c);
    }
  }

  method SortedSet(s: set<string>) returns (r: seq<string>)
    ensures StrictlySorted(r) && Members(r) == s
  {
    var rest, list := s, [];
    while rest != {}
      invariant NoDuplicates(list) && rest <= s && Members(list) == s - rest
    {
      var x :| x in rest;
      assert x !in Members(list);
      assert Members(list + [x]) == Members(list) + {x};
      rest, list := rest - {x}, list + [x];
    }
    r := Sort(StringLe, list);
    StringLeIsTotal();
    SortOrdered(StringLe, list);
    SortMembers(StringLe, list);
    SortPermutes(StringLe, list);
    PermutationDistinct(list, r);
    assert Members(r) == Members(list);
  }

  // ---------------------------------------------------------------- one record

  /** The record's cases are a duplicate-free enumeration of a duplicate-free inventory. */
  ghost predicate Exact(run: RunFile) {
    && NoDuplicates(run.inventory)
    && NoDuplicates(Ids(run.cases))
    && Members(Ids(run.cases)) == Members(run.inventory)
  }

  lemma {:induction false} DistinctIffCardinality<T>(s: seq<T>)
    ensures |set x | x in s| == |s| <==> NoDuplicates(s)
    ensures |set x | x in s| <= |s|
  {
    if s == [] {
      assert (set x | x in s) == {};
    } else {
      var f, x := Front(s), Last(s);
      DistinctIffCardinality(f);
      assert s == f + [x];
      assert (set y | y in s) == (set y | y in f) + {x};
      if x in f {
        assert (set y | y in s) == (set y | y in f);
        var i :| 0 <= i < |f| && f[i] == x;
        assert s[i] == s[|s| - 1];
      }
    }
  }

  ghost predicate HasCase(run: RunFile, x: string) {
    exists i :: 0 <= i < |run.cases| && run.cases[i].id == x
  }

  /** Two of the first `n` cases have id `x`. */
  ghost predicate Twice(run: RunFile, n: nat, x: string) {
    exists a, b :: 0 <= a < b < n <= |run.cases| && run.cases[a].id == x && run.cases[b].id == x
  }

  /** What a record can be faulted for on its own. */
  ghost predicate OwnFault(run: RunFile, p: Problem) {
    match p
    case DuplicateInventory(source, gate) =>
      source == run.source && gate == run.gate && !NoDuplicates(run.inventory)
    case DuplicateCase(source, gate, x) =>
      source == run.source && gate == run.gate && Twice(run, |run.cases|, x)
    case MissingCase(source, gate, x) =>
      source == run.source && gate == run.gate && x in run.inventory && !HasCase(run, x)
    case ExtraCase(source, gate, x) =>
      source == run.source && gate == run.gate && x !in run.inventory && HasCase(run, x)
    case DuplicatePrimary(_, _, _, _) => false
  }

  ghost predicate Repeated(run: RunFile, n: nat, p: Problem) {
    p.DuplicateCase? && p.source == run.source && p.gate == run.gate && Twice(run, n, p.id)
  }

  lemma TwiceSnoc(run: RunFile, n: nat, x: string)
    requires n < |run.cases|
    ensures Twice(run, n + 1, x) <==>
      Twice(run, n, x) || (run.cases[n].id == x && x in Members(Ids(run.cases)[..n]))
  {
    var ids := Ids(run.cases);
    if a, b :| 0 <= a < b < n + 1 && run.cases[a].id == x && run.cases[b].id == x {
      assert ids[..n][a] == x;
      assert b < n ==> Twice(run, n, x);
    }
    if run.cases[n].id == x && x in Members(ids[..n]) {
      var a :| 0 <= a < n && ids[..n][a] == x;
      assert run.cases[a].id == x;
    }
  }

  lemma TwiceIsDuplicate(run: RunFile, n: nat)
    requires n <= |run.cases|
    ensures NoDuplicates(Ids(run.cases)[..n]) <==> forall x :: !Twice(run, n, x)
  {
    var ids := Ids(run.cases)[..n];
    if !NoDuplicates(ids) {
      var a, b :| 0 <= a < b < |ids| && ids[a] == ids[b];
      assert run.cases[a].id == ids[a] && run.cases[b].id == ids[b];
      assert Twice(run, n, ids[a]);
    }
    if x :| Twice(run, n, x) {
      var a, b :| 0 <= a < b < n && run.cases[a].id == x && run.cases[b].id == x;
      assert ids[a] == ids[b];
    }
  }

  method DuplicateProblems(run: RunFile) returns (problems: seq<Problem>, seen: set<string>)
    ensures seen == Members(Ids(run.cases))
    ensures forall p :: p in problems <==>
      (p.DuplicateInventory? && OwnFault(run, p)) || Repeated(run, |run.cases|, p)
  {
    problems := [];
    DistinctIffCardinality(run.inventory);
    if |Members(run.inventory)| != |run.inventory| {
      problems := [DuplicateInventory(run.source, run.gate)];
    }
    var ids := Ids(run.cases);
    seen := {};
    for i := 0 to |run.cases|
      invariant seen == Members(ids[..i])
      invariant forall p :: p in problems <==>
        (p.DuplicateInventory? && OwnFault(run, p)) || Repeated(run, i, p)
    {
      ghost var before := problems;
      if run.cases[i].id in seen {
        problems := problems + [DuplicateCase(run.source, run.gate, run.cases[i].id)];
      }
      forall p ensures p in problems <==>
        (p.DuplicateInventory? && OwnFault(run, p)) || Repeated(run, i + 1, p)
      {
        if p.DuplicateCase? {
          TwiceSnoc(run, i, p.id);
        }
        assert p in problems <==>
          || p in before
          || (run.cases[i].id in seen && p == DuplicateCase(run.source, run.gate, run.cases[i].id));
      }
      seen := seen + {run.cases[i].id};
    }
    assert ids[..|run.cases|] == ids;
  }

  /** The record's own problems: a duplicated inventory or case, a case missing or
      not in the inventory. */
  method CheckRun(run: RunFile) returns (problems: seq<Problem>)
    ensures forall p :: p in problems <==> OwnFault(run, p)
    ensures problems == [] <==> Exact(run)
    ensures Count(IsDuplicatePrimary, problems) == 0
  {
    var own, seen := DuplicateProblems(run);
    var inventory := Members(run.inventory);
    var missing := SortedSet(inventory - seen);
    var extra := SortedSet(seen - inventory);
    problems := own + Map(x => MissingCase(run.source, run.gate, x), missing)
      + Map(x => ExtraCase(run.source, run.gate, x), extra);
    forall p ensures p in problems <==> OwnFault(run, p) {
      ListedProblems(run, own, missing, extra, problems, p);
      assert Repeated(run, |run.cases|, p) <==> p.DuplicateCase? && OwnFault(run, p);
      if p.MissingCase? || p.ExtraCase? {
        SeenIsCase(run, p.id);
        assert p.id in missing <==> p.id in Members(missing);
        assert p.id in extra <==> p.id in Members(extra);
      }
    }
    NoFaultIffExact(run);
    assert problems != [] ==> problems[0] in problems;
    forall i | 0 <= i < |problems| ensures !IsDuplicatePrimary(problems[i]) {
      assert problems[i] in problems;
      assert OwnFault(run, problems[i]);
    }
    CountNone(IsDuplicatePrimary, problems);
  }

  lemma SeenIsCase(run: RunFile, x: string)
    ensures x in Members(Ids(run.cases)) <==> HasCase(run, x)
  {
    var ids := Ids(run.cases);
    if x in ids {
      var i :| 0 <= i < |ids| && ids[i] == x;
      assert run.cases[i].id == x;
    }
    if i :| 0 <= i < |run.cases| && run.cases[i].id == x {
      assert ids[i] == x;
    }
  }

  /** A record has no fault exactly when it enumerates its inventory. */
  lemma NoFaultIffExact(run: RunFile)
    ensures (forall p :: !OwnFault(run, p)) <==> Exact(run)
  {
    var ids := Ids(run.cases);
    TwiceIsDuplicate(run, |run.cases|);
    assert ids[..|run.cases|] == ids;
    forall x ensures x in Members(ids) <==> HasCase(run, x) {
      SeenIsCase(run, x);
    }
    if forall p :: !OwnFault(run, p) {
      assert !OwnFault(run, DuplicateInventory(run.source, run.gate));
      forall x ensures !Twice(run, |run.cases|, x) && (x in Members(ids) <==> x in Members(run.inventory)) {
        assert !OwnFault(run, DuplicateCase(run.source, run.gate, x));
        assert !OwnFault(run, MissingCase(run.source, run.gate, x));
        assert !OwnFault(run, ExtraCase(run.source, run.gate, x));
      }
    }
  }

  lemma InMap<T, U>(f: T -> U, s: seq<T>, y: U)
    ensures y in Map(f, s) <==> exists i :: 0 <= i < |s| && f(s[i]) == y
  {
    if i :| 0 <= i < |s| && f(s[i]) == y {
      assert Map(f, s)[i] == y;
    }
  }

  lemma ListedProblems(run: RunFile, own: seq<Problem>, missing: seq<string>, extra: seq<string>,
    problems: seq<Problem>, p: Problem)
    requires problems == own + Map(x => MissingCase(run.source, run.gate, x), missing)
      + Map(x => ExtraCase(run.source, run.gate, x), extra)
    ensures p in problems <==>
      || p in own
      || (p.MissingCase? && p.source == run.source && p.gate == run.gate && p.id in missing)
      || (p.ExtraCase? && p.source == run.source && p.gate == run.gate && p.id in extra)
  {
    InMap(x => MissingCase(run.source, run.gate, x), missing, p);
    InMap(x => ExtraCase(run.source, run.gate, x), extra, p);
  }

  // ---------------------------------------------------------------- the primary aggregate

  /** The cases of all records that are not nested reruns, in order. */
  function PrimaryCases(runs: seq<RunFile>): seq<Case> {
    if runs == [] then []
    else if Last(runs).nested then PrimaryCases(Front(runs))
    else PrimaryCases(Front(runs)) + Last(runs).cases
  }

  function NestedTotal(runs: seq<RunFile>): nat {
    if runs == [] then 0
    else NestedTotal(Front(runs)) + (if Last(runs).nested then |Last(runs).cases| else 0)
  }

  ghost function PrimaryGates(runs: seq<RunFile>): set<string> {
    set r | r in runs && !r.nested :: r.gate
  }

  predicate HasKey(cases: seq<Case>, k: Key) {
    exists i :: 0 <= i < |cases| && KeyOf(cases[i]) == k
  }

  /** The first case of each key. */
  function Firsts(cases: seq<Case>): seq<Case> {
    if cases == [] then []
    else if HasKey(Firsts(Front(cases)), KeyOf(Last(cases))) then Firsts(Front(cases))
    else Firsts(Front(cases)) + [Last(cases)]
  }

  predicate SameKey(a: Case, b: Case) {
    a.runner == b.runner && a.gate == b.gate && a.id == b.id
  }

  ghost predicate Earlier(cases: seq<Case>, c: Case) {
    exists i :: 0 <= i < |cases| && SameKey(cases[i], c)
  }

  /** One of the first `n` cases of the record repeats the key of an earlier primary
      case, of this record or of those in `before`. */
  ghost predicate RepeatFault(run: RunFile, n: nat, before: seq<Case>, p: Problem) {
    exists a :: 0 <= a < n <= |run.cases| && Earlier(before + run.cases[..a], run.cases[a]) &&
      p == DuplicatePrimary(run.source, run.cases[a].runner, run.cases[a].gate, run.cases[a].id)
  }

  lemma RepeatSnoc(run: RunFile, n: nat, before: seq<Case>, p: Problem)
    requires n < |run.cases|
    ensures RepeatFault(run, n + 1, before, p) <==>
      || RepeatFault(run, n, before, p)
      || ( && Earlier(before + run.cases[..n], run.cases[n])
           && p == DuplicatePrimary(run.source, run.cases[n].runner, run.cases[n].gate, run.cases[n].id))
  {
  }

  lemma EarlierIs(cases: seq<Case>, c: Case)
    ensures HasKey(Firsts(cases), KeyOf(c)) <==> Earlier(cases, c)
  {
    FirstsKeys(cases, KeyOf(c));
    if i :| 0 <= i < |cases| && SameKey(cases[i], c) {
      assert KeyOf(cases[i]) == KeyOf(c);
    }
    if i :| 0 <= i < |cases| && KeyOf(cases[i]) == KeyOf(c) {
      assert SameKey(cases[i], c);
    }
  }

  method AddPrimary(run: RunFile, ghost before: seq<Case>, primary: seq<Case>)
    returns (more: seq<Case>, problems: seq<Problem>)
    requires primary == Firsts(before)
    ensures more == Firsts(before + run.cases)
    ensures |more| + |problems| == |primary| + |run.cases|
    ensures forall i :: 0 <= i < |problems| ==> problems[i].DuplicatePrimary?
    ensures forall p :: p in problems <==> RepeatFault(run, |run.cases|, before, p)
  {
    more, problems := primary, [];
    assert before + run.cases[..0] == before;
    for i := 0 to |run.cases|
      invariant more == Firsts(before + run.cases[..i])
      invariant |more| + |problems| == |primary| + i
      invariant forall j :: 0 <= j < |problems| ==> problems[j].DuplicatePrimary?
      invariant forall p :: p in problems <==> RepeatFault(run, i, before, p)
    {
      var c := run.cases[i];
      EarlierIs(before + run.cases[..i], c);
      forall p ensures RepeatFault(run, i + 1, before, p) <==>
        || RepeatFault(run, i, before, p)
        || (HasKey(more, KeyOf(c)) && p == DuplicatePrimary(run.source, c.runner, c.gate, c.id))
      {
        RepeatSnoc(run, i, before, p);
      }
      assert before + run.cases[..i + 1] == (before + run.cases[..i]) + [c];
      if HasKey(more, KeyOf(c)) {
        problems := problems + [DuplicatePrimary(run.source, c.runner, c.gate, c.id)];
      } else {
        more := more + [c];
      }
    }
    assert run.cases[..|run.cases|] == run.cases;
  }

  predicate CaseOrder(a: Case, b: Case) {
    if a.runner != b.runner then StringLe(a.runner, b.runner)
    else if a.gate != b.gate then StringLe(a.gate, b.gate)
    else StringLe(a.id, b.id)
  }

  ghost predicate NoRepeats(cases: seq<Case>) {
    forall i, j :: 0 <= i < j < |cases| ==> !SameKey(cases[i], cases[j])
  }

  /** A problem of the record, given the primary cases before it. */
  ghost predicate Fault(run: RunFile, before: seq<Case>, p: Problem) {
    OwnFault(run, p) || (!run.nested && RepeatFault(run, |run.cases|, before, p))
  }

  /** What a record adds to the aggregate: nothing if it is a nested rerun. */
  function Counted(run: RunFile): seq<Case> {
    if run.nested then [] else run.cases
  }

  method AddRun(run: RunFile, ghost before: seq<Case>, primary: seq<Case>)
    returns (more: seq<Case>, problems: seq<Problem>)
    requires primary == Firsts(before)
    ensures more == Firsts(before + Counted(run))
    ensures |more| + Count(IsDuplicatePrimary, problems) == |primary| + |Counted(run)|
    ensures problems == [] <==> Exact(run) && |more| == |primary| + |Counted(run)|
    ensures forall p :: p in problems <==> Fault(run, before, p)
  {
    var own := CheckRun(run);
    if run.nested {
      assert before + [] == before;
      return primary, own;
    }
    var found;
    more, found := AddPrimary(run, before, primary);
    problems := own + found;
    CountConcat(IsDuplicatePrimary, own, found);
    CountAll(IsDuplicatePrimary, found);
  }

  ghost predicate AllExact(runs: seq<RunFile>) {
    forall i :: 0 <= i < |runs| ==> Exact(runs[i])
  }

  lemma ExactSnoc(runs: seq<RunFile>, i: nat)
    requires i < |runs|
    ensures AllExact(runs[..i + 1]) <==> AllExact(runs[..i]) && Exact(runs[i])
  {
    TakeSnoc(runs, i);
    var a, b := runs[..i], runs[..i + 1];
    assert b[i] == runs[i];
    assert forall j :: 0 <= j < i ==> b[j] == a[j];
  }

  lemma PrimarySnoc(runs: seq<RunFile>, i: nat)
    requires i < |runs|
    ensures PrimaryCases(runs[..i + 1]) == PrimaryCases(runs[..i]) + Counted(runs[i])
    ensures NestedTotal(runs[..i + 1]) == NestedTotal(runs[..i]) + |runs[i].cases| - |Counted(runs[i])|
  {
    TakeSnoc(runs, i);
  }

  /** The problems and the aggregate after the records in `runs`. */
  ghost predicate Aggregated(runs: seq<RunFile>, problems: seq<Problem>, primary: seq<Case>) {
    && primary == Firsts(PrimaryCases(runs))
    && |primary| + Count(IsDuplicatePrimary, problems) == |PrimaryCases(runs)|
    && (problems == [] <==> AllExact(runs) && |primary| == |PrimaryCases(runs)|)
    && (forall p :: p in problems <==> SomeFault(runs, p))
  }

  ghost predicate FaultAt(runs: seq<RunFile>, i: int, p: Problem) {
    0 <= i < |runs| && Fault(runs[i], PrimaryCases(runs[..i]), p)
  }

  /** Some record has the problem. */
  ghost predicate SomeFault(runs: seq<RunFile>, p: Problem) {
    exists i :: FaultAt(runs, i, p)
  }

  lemma FaultAtPrefix(runs: seq<RunFile>, n: nat, i: nat, p: Problem)
    requires i < n <= |runs|
    ensures FaultAt(runs[..n], i, p) <==> Fault(runs[i], PrimaryCases(runs[..i]), p)
  {
    assert runs[..n][..i] == runs[..i];
  }

  lemma SomeFaultSnoc(runs: seq<RunFile>, n: nat, p: Problem)
    requires n < |runs|
    ensures SomeFault(runs[..n + 1], p) <==> SomeFault(runs[..n], p) || Fault(runs[n], PrimaryCases(runs[..n]), p)
  {
    var more := runs[..n + 1];
    if i :| FaultAt(runs[..n], i, p) {
      FaultAtPrefix(runs, n, i, p);
      FaultAtPrefix(runs, n + 1, i, p);
    }
    if i :| FaultAt(more, i, p) {
      FaultAtPrefix(runs, n + 1, i, p);
      if i < n {
        FaultAtPrefix(runs, n, i, p);
      }
    }
    FaultAtPrefix(runs, n + 1, n, p);
  }

  lemma AggregatedSnoc(runs: seq<RunFile>, i: nat, problems: seq<Problem>, primary: seq<Case>,
    more: seq<Case>, found: seq<Problem>)
    requires i < |runs| && Aggregated(runs[..i], problems, primary)
    requires more == Firsts(PrimaryCases(runs[..i]) + Counted(runs[i]))
    requires |more| + Count(IsDuplicatePrimary, found) == |primary| + |Counted(runs[i])|
    requires found == [] <==> Exact(runs[i]) && |more| == |primary| + |Counted(runs[i])|
    requires forall p :: p in found <==> Fault(runs[i], PrimaryCases(runs[..i]), p)
    ensures Aggregated(runs[..i + 1], problems + found, more)
  {
    PrimarySnoc(runs, i);
    ExactSnoc(runs, i);
    CountConcat(IsDuplicatePrimary, problems, found);
    FirstsAll(PrimaryCases(runs[..i]));
    forall p ensures p in problems + found <==> SomeFault(runs[..i + 1], p) {
      SomeFaultSnoc(runs, i, p);
    }
  }

  method Aggregate(runs: seq<RunFile>)
    returns (problems: seq<Problem>, primary: seq<Case>, nested: nat, gates: set<string>)
    ensures Aggregated(runs, problems, primary)
    ensures nested == NestedTotal(runs) && gates == PrimaryGates(runs)
  {
    problems, primary, nested, gates := [], [], 0, {};
    for i := 0 to |runs|
      invariant Aggregated(runs[..i], problems, primary)
      invariant nested == NestedTotal(runs[..i]) && gates == PrimaryGates(runs[..i])
    {
      PrimarySnoc(runs, i);
      GatesSnoc(runs, i);
      if runs[i].nested {
        nested := nested + |runs[i].cases|;
      } else {
        gates := gates + {runs[i].gate};
      }
      var more, found := AddRun(runs[i], PrimaryCases(runs[..i]), primary);
      AggregatedSnoc(runs, i, problems, primary, more, found);
      problems, primary := problems + found, more;
    }
    assert runs[..|runs|] == runs;
  }

  lemma {:induction false} CountAll<T>(p: T -> bool, s: seq<T>)
    requires forall i :: 0 <= i < |s| ==> p(s[i])
    ensures Count(p, s) == |s|
  {
    if s != [] {
      CountAll(p, Front(s));
    }
  }

  lemma GatesSnoc(runs: seq<RunFile>, i: nat)
    requires i < |runs|
    ensures PrimaryGates(runs[..i + 1]) ==
      if runs[i].nested then PrimaryGates(runs[..i]) else PrimaryGates(runs[..i]) + {runs[i].gate}
  {
    TakeSnoc(runs, i);
  }

  /** The verified aggregate of one directory. The verdict is exact: no problem
      precisely when every record enumerates its inventory and no primary key
      appears twice; each primary case is counted once or reported, and nested
      reruns never enter the aggregate. */
  method VerifyRuns(runs: seq<RunFile>, expectedGates: seq<string>) returns (r: Report)
    ensures r.problems == [] <==> AllExact(runs) && NoRepeats(PrimaryCases(runs))
    ensures forall p :: p in r.problems <==> SomeFault(runs, p)
    ensures |r.primary| + Count(IsDuplicatePrimary, r.problems) == |PrimaryCases(runs)|
    ensures multiset(r.primary) == multiset(Firsts(PrimaryCases(runs)))
    ensures KeysAscend(r.primary)
    ensures r.nestedCount == NestedTotal(runs) && r.files == |runs|
    ensures StrictlySorted(r.missingGates)
    ensures Members(r.missingGates) == Members(expectedGates) - PrimaryGates(runs)
  {
    var problems, primary, nested, gates := Aggregate(runs);
    var missing := SortedSet(Members(expectedGates) - gates);
    var ordered := Sort(CaseOrder, primary);
    SortPermutes(CaseOrder, primary);
    SortedKeysAscend(PrimaryCases(runs));
    FirstsAll(PrimaryCases(runs));
    r := Report(problems, ordered, nested, |runs|, missing);
  }

  // ---------------------------------------------------------------- what the aggregate holds

  lemma HasKeySnoc(cases: seq<Case>, c: Case, k: Key)
    ensures HasKey(cases + [c], k) <==> HasKey(cases, k) || KeyOf(c) == k
  {
    if HasKey(cases, k) {
      var i :| 0 <= i < |cases| && KeyOf(cases[i]) == k;
      assert (cases + [c])[i] == cases[i];
    }
    if KeyOf(c) == k {
      assert (cases + [c])[|cases|] == c;
    }
  }

  /** Every primary key is in the aggregate, and no other. */
  lemma {:induction false} FirstsKeys(cases: seq<Case>, k: Key)
    ensures HasKey(Firsts(cases), k) <==> HasKey(cases, k)
  {
    if cases != [] {
      FirstsKeys(Front(cases), k);
      assert cases == Front(cases) + [Last(cases)];
      HasKeySnoc(Front(cases), Last(cases), k);
      HasKeySnoc(Firsts(Front(cases)), Last(cases), k);
    }
  }

  lemma RepeatsSnoc(cases: seq<Case>, c: Case)
    ensures NoRepeats(cases + [c]) <==> NoRepeats(cases) && !HasKey(cases, KeyOf(c))
  {
    var more := cases + [c];
    assert forall i :: 0 <= i < |cases| ==> more[i] == cases[i];
    assert more[|cases|] == c;
    if NoRepeats(more) {
      forall i | 0 <= i < |cases| ensures KeyOf(cases[i]) != KeyOf(c) {
        assert KeyOf(more[i]) != KeyOf(more[|cases|]);
      }
    }
  }

  /** No key is in the aggregate twice. */
  lemma {:induction false} FirstsUnique(cases: seq<Case>)
    ensures NoRepeats(Firsts(cases))
  {
    if cases != [] {
      FirstsUnique(Front(cases));
      RepeatsSnoc(Firsts(Front(cases)), Last(cases));
    }
  }

  /** Nothing is dropped exactly when no key repeats. */
  lemma {:induction false} FirstsAll(cases: seq<Case>)
    ensures |Firsts(cases)| <= |cases|
    ensures |Firsts(cases)| == |cases| <==> NoRepeats(cases)
  {
    if cases != [] {
      FirstsAll(Front(cases));
      assert cases == Front(cases) + [Last(cases)];
      RepeatsSnoc(Front(cases), Last(cases));
      FirstsKeys(Front(cases), KeyOf(Last(cases)));
    }
  }

  /** A case is in the aggregate exactly when it is the first of its key. */
  lemma {:induction false} FirstsAreFirst(cases: seq<Case>, c: Case)
    ensures c in Firsts(cases) <==> exists i :: 0 <= i < |cases| && cases[i] == c && !Earlier(cases[..i], c)
  {
    if cases != [] {
      var f, last := Front(cases), Last(cases);
      FirstsAreFirst(f, c);
      EarlierIs(f, last);
      assert forall i :: 0 <= i < |f| ==> f[i] == cases[i] && f[..i] == cases[..i];
      assert cases[..|f|] == f;
      if i :| 0 <= i < |cases| && cases[i] == c && !Earlier(cases[..i], c) {
        if i < |f| {
          assert f[i] == c && f[..i] == cases[..i];
        }
      }
      if c in Firsts(cases) {
        if c in Firsts(f) {
          var i :| 0 <= i < |f| && f[i] == c && !Earlier(f[..i], c);
          assert cases[i] == c && cases[..i] == f[..i];
        } else {
          assert cases[|f|] == c;
        }
      }
    }
  }

  /** By runner, then by gate, then by case. */
  predicate Below(a: Case, b: Case) {
    if a.runner != b.runner then StringLe(a.runner, b.runner)
    else if a.gate != b.gate then StringLe(a.gate, b.gate)
    else a.id != b.id && StringLe(a.id, b.id)
  }

  ghost predicate KeysAscend(cases: seq<Case>) {
    forall i, j :: 0 <= i < j < |cases| ==> Below(cases[i], cases[j])
  }

  lemma CaseOrderIsTotal()
    ensures TotalPreorder(CaseOrder)
  {
    forall a, b ensures CaseOrder(a, b) || CaseOrder(b, a) {
      StringLeTotal(a.runner, b.runner);
      StringLeTotal(a.gate, b.gate);
      StringLeTotal(a.id, b.id);
    }
    forall a, b, c | CaseOrder(a, b) && CaseOrder(b, c) ensures CaseOrder(a, c) {
      CaseOrderTransitive(a, b, c);
    }
  }

  lemma CaseOrderTransitive(a: Case, b: Case, c: Case)
    requires CaseOrder(a, b) && CaseOrder(b, c)
    ensures CaseOrder(a, c)
  {
    StringLeTotal(a.runner, b.runner);
    StringLeTotal(a.gate, b.gate);
    if a.runner != b.runner && b.runner != c.runner {
      StringLeTransitive(a.runner, b.runner, c.runner);
    }
    if a.gate != b.gate && b.gate != c.gate && StringLe(a.gate, b.gate) && StringLe(b.gate, c.gate) {
      StringLeTransitive(a.gate, b.gate, c.gate);
    }
    if StringLe(a.id, b.id) && StringLe(b.id, c.id) {
      StringLeTransitive(a.id, b.id, c.id);
    }
  }

  lemma SortedKeysAscend(cases: seq<Case>)
    ensures KeysAscend(Sort(CaseOrder, Firsts(cases)))
  {
    var s := Firsts(cases);
    var r := Sort(CaseOrder, s);
    CaseOrderIsTotal();
    SortOrdered(CaseOrder, s);
    SortPermutes(CaseOrder, s);
    FirstsUnique(cases);
    KeysOfPermutation(s, r);
  }

  lemma KeysOfPermutation(a: seq<Case>, b: seq<Case>)
    requires multiset(a) == multiset(b) && NoRepeats(a)
    ensures NoRepeats(b)
  {
    forall i, j | 0 <= i < j < |b| ensures !SameKey(b[i], b[j]) {
      if SameKey(b[i], b[j]) {
        var p := (c: Case) => KeyOf(c) == KeyOf(b[i]);
        CountOfPermutation(p, a, b);
        KeyOnce(a, KeyOf(b[i]));
        CountTwo(p, b, i, j);
      }
    }
  }

  lemma {:induction false} KeyOnce(a: seq<Case>, k: Key)
    requires NoRepeats(a)
    ensures Count((c: Case) => KeyOf(c) == k, a) <= 1
  {
    if a != [] {
      assert a == Front(a) + [Last(a)];
      RepeatsSnoc(Front(a), Last(a));
      KeyOnce(Front(a), k);
      if KeyOf(Last(a)) == k {
        CountNone((c: Case) => KeyOf(c) == k, Front(a));
      }
    }
  }

  lemma {:induction false} CountTwo<T>(p: T -> bool, s: seq<T>, i: nat, j: nat)
    requires i < j < |s| && p(s[i]) && p(s[j])
    ensures Count(p, s) >= 2
  {
    CountConcat(p, s[..j], s[j..]);
    assert s == s[..j] + s[j..];
    CountPositive(p, s[..j]);
    assert s[..j][i] == s[i];
    CountPositive(p, s[j..]);
    assert s[j..][0] == s[j];
  }
}
