/** The environment rule: first entry of a name wins, then changes are applied. */
module EnvironmentRule {
  import opened Sequences

  type Byte = b: int | 0 <= b < 256
  type Bytes = seq<Byte>

  const EQUALS: Byte := 61

  datatype Variable = Variable(name: Bytes, value: Bytes)

  /** A value sets a variable, `None` removes it. */
  datatype Change = Change(name: Bytes, value: Option<Bytes>)

  /** An insertion-ordered dictionary: no name appears twice. */
  type Environment = seq<Variable>

  predicate HasName(d: Environment, n: Bytes) {
    exists i :: 0 <= i < |d| && d[i].name == n
  }

  ghost predicate UniqueNames(d: Environment) {
    forall i, j :: 0 <= i < j < |d| ==> d[i].name != d[j].name
  }

  predicate ValidName(n: Bytes) {
    n != [] && EQUALS !in n
  }

  // ---------------------------------------------------------------- dictionary operations

  /** Assignment: in place for a name that is present, at the end for a new one. */
  function Put(d: Environment, n: Bytes, v: Bytes): Environment {
    if d == [] then [Variable(n, v)]
    else if Last(d).name == n then Front(d) + [Variable(n, v)]
    else if HasName(Front(d), n) then Put(Front(d), n, v) + [Last(d)]
    else d + [Variable(n, v)]
  }

  function Remove(d: Environment, n: Bytes): Environment {
    Filter((x: Variable) => x.name != n, d)
  }

  /** The text before the first `=`, or all of it. */
  function NameLength(e: Bytes): (k: nat)
    ensures k <= |e| && EQUALS !in e[..k] && (k < |e| ==> e[k] == EQUALS)
  {
    if e == [] || e[0] == EQUALS then 0
    else
      var k := NameLength(e[1..]);
      assert e[..k + 1] == [e[0]] + e[1..][..k];
      k + 1
  }

  /** `entry.partition(b"=")` with a separator and a name. */
  function Split(e: Bytes): Option<Variable> {
    var k := NameLength(e);
    if k == |e| || k == 0 then None else Some(Variable(e[..k], e[k + 1..]))
  }

  function Parse(entries: seq<Bytes>): Environment {
    if entries == [] then []
    else
      var d, x := Parse(Front(entries)), Split(Last(entries));
      if x.Some? && !HasName(d, x.value.name) then d + [x.value] else d
  }

  function ApplyChange(d: Environment, c: Change): Environment {
    if c.value.None? then Remove(d, c.name) else Put(d, c.name, c.value.value)
  }

  function Apply(d: Environment, changes: seq<Change>): Environment {
    if changes == [] then d else ApplyChange(Apply(d, Front(changes)), Last(changes))
  }

  function Text(x: Variable): Bytes {
    x.name + [EQUALS] + x.value
  }

  function Render(d: Environment): seq<Bytes> {
    Map(Text, d)
  }

  function Kept(entries: seq<Bytes>, changes: seq<Change>): Environment {
    Apply(Parse(entries), changes)
  }

  function Rule(entries: seq<Bytes>, changes: seq<Change>): seq<Bytes> {
    Render(Kept(entries, changes))
  }

  method ByTheRule(entries: seq<Bytes>, changes: seq<Change>) returns (out: seq<Bytes>)
    ensures out == Rule(entries, changes)
    ensures var kept := Kept(entries, changes);
      |out| == |kept| && forall i :: 0 <= i < |out| ==> out[i] == kept[i].name + [EQUALS] + kept[i].value
  {
    var kept: Environment := [];
    for i := 0 to |entries|
      invariant kept == Parse(entries[..i])
    {
      TakeSnoc(entries, i);
      var x := Split(entries[i]);
      if x.Some? && !HasName(kept, x.value.name) {
        kept := kept + [x.value];
      }
    }
    assert entries[..|entries|] == entries;
    for i := 0 to |changes|
      invariant kept == Apply(Parse(entries), changes[..i])
    {
      TakeSnoc(changes, i);
      if changes[i].value.None? {
        kept := Remove(kept, changes[i].name);
      } else {
        kept := Put(kept, changes[i].name, changes[i].value.value);
      }
    }
    assert changes[..|changes|] == changes;
    out := [];
    for i := 0 to |kept|
      invariant |out| == i
      invariant forall j :: 0 <= j < i ==> out[j] == Text(kept[j])
    {
      out := out + [kept[i].name + [EQUALS] + kept[i].value];
    }
  }

  // ---------------------------------------------------------------- what a name ends up holding

  function Lookup(d: Environment, n: Bytes): Option<Bytes> {
    if d == [] then None
    else if Last(d).name == n then Some(Last(d).value)
    else Lookup(Front(d), n)
  }

  lemma {:induction false} LookupHas(d: Environment, n: Bytes)
    ensures Lookup(d, n).Some? <==> HasName(d, n)
  {
    if d != [] {
      LookupHas(Front(d), n);
      HasNameSnoc(Front(d), Last(d), n);
      assert d == Front(d) + [Last(d)];
    }
  }

  lemma HasNameSnoc(d: Environment, x: Variable, n: Bytes)
    ensures HasName(d + [x], n) <==> HasName(d, n) || x.name == n
  {
    if HasName(d, n) {
      var i :| 0 <= i < |d| && d[i].name == n;
      assert (d + [x])[i].name == n;
    }
    if x.name == n {
      assert (d + [x])[|d|].name == n;
    }
  }

  lemma LookupSnoc(d: Environment, x: Variable, n: Bytes)
    ensures Lookup(d + [x], n) == if x.name == n then Some(x.value) else Lookup(d, n)
  {
    assert Front(d + [x]) == d;
  }

  lemma {:induction false} LookupPut(d: Environment, n: Bytes, v: Bytes, m: Bytes)
    ensures Lookup(Put(d, n, v), m) == if m == n then Some(v) else Lookup(d, m)
  {
    LookupSnoc(d, Variable(n, v), m);
    if d == [] {
      assert d + [Variable(n, v)] == [Variable(n, v)];
    } else {
      LookupPut(Front(d), n, v, m);
      LookupSnoc(Front(d), Variable(n, v), m);
      LookupSnoc(Put(Front(d), n, v), Last(d), m);
    }
  }

  /** A name that is present keeps its place and a new one goes to the end. */
  lemma {:induction false} PutKeepsPlaces(d: Environment, n: Bytes, v: Bytes)
    ensures HasName(d, n) ==>
      |Put(d, n, v)| == |d| && forall i :: 0 <= i < |d| ==> Put(d, n, v)[i].name == d[i].name
    ensures !HasName(d, n) ==> Put(d, n, v) == d + [Variable(n, v)]
  {
    if d != [] {
      HasNameSnoc(Front(d), Last(d), n);
      assert d == Front(d) + [Last(d)];
      if HasName(Front(d), n) && Last(d).name != n {
        PutKeepsPlaces(Front(d), n, v);
      }
    }
  }

  lemma {:induction false} LookupRemove(d: Environment, n: Bytes, m: Bytes)
    ensures Lookup(Remove(d, n), m) == if m == n then None else Lookup(d, m)
  {
    if d != [] {
      LookupRemove(Front(d), n, m);
      if Last(d).name != n {
        LookupSnoc(Remove(Front(d), n), Last(d), m);
      }
    }
  }

  /** The entry gives `n` a value. */
  ghost predicate Gives(entry: Bytes, n: Bytes) {
    n + [EQUALS] <= entry
  }

  /** The first entry that gives `n` a value gives it `v`. */
  ghost predicate FirstEntry(entries: seq<Bytes>, n: Bytes, v: Bytes) {
    exists i :: 0 <= i < |entries| && entries[i] == n + [EQUALS] + v && forall j :: 0 <= j < i ==> !Gives(entries[j], n)
  }

  ghost predicate SomeEntry(entries: seq<Bytes>, n: Bytes) {
    exists i :: 0 <= i < |entries| && Gives(entries[i], n)
  }

  lemma SplitJoins(e: Bytes)
    ensures Split(e).Some? ==> ValidName(Split(e).value.name) && e == Text(Split(e).value)
  {
    var k := NameLength(e);
    if Split(e).Some? {
      assert e == e[..k] + [e[k]] + e[k + 1..];
    }
  }

  /** An entry is a variable exactly when it is a non-empty name without `=`, an
      `=` and a value. */
  lemma SplitIs(e: Bytes, n: Bytes, v: Bytes)
    ensures Split(e) == Some(Variable(n, v)) <==> ValidName(n) && e == n + [EQUALS] + v
  {
    SplitJoins(e);
    if ValidName(n) {
      SplitText(Variable(n, v));
    }
  }

  lemma GivesIs(e: Bytes, n: Bytes)
    requires ValidName(n)
    ensures Gives(e, n) <==> Split(e).Some? && Split(e).value.name == n
  {
    SplitJoins(e);
    if Gives(e, n) {
      var v := e[|n| + 1..];
      assert e == n + [EQUALS] + v;
      SplitIs(e, n, v);
    }
    if Split(e).Some? && Split(e).value.name == n {
      assert e == (n + [EQUALS]) + Split(e).value.value;
    }
  }

  lemma FirstEntrySnoc(f: seq<Bytes>, e: Bytes, n: Bytes, v: Bytes)
    ensures FirstEntry(f + [e], n, v) <==> FirstEntry(f, n, v) || (!SomeEntry(f, n) && e == n + [EQUALS] + v)
    ensures SomeEntry(f + [e], n) <==> SomeEntry(f, n) || Gives(e, n)
  {
    var s := f + [e];
    assert forall i :: 0 <= i < |f| ==> s[i] == f[i];
    assert s[|f|] == e;
    if FirstEntry(f, n, v) {
      var i :| 0 <= i < |f| && f[i] == n + [EQUALS] + v && forall j :: 0 <= j < i ==> !Gives(f[j], n);
      assert s[i] == n + [EQUALS] + v && forall j :: 0 <= j < i ==> !Gives(s[j], n);
    }
    if FirstEntry(s, n, v) {
      var i :| 0 <= i < |s| && s[i] == n + [EQUALS] + v && forall j :: 0 <= j < i ==> !Gives(s[j], n);
      if i < |f| {
        assert f[i] == n + [EQUALS] + v && forall j :: 0 <= j < i ==> !Gives(f[j], n);
      } else {
        assert forall j :: 0 <= j < |f| ==> !Gives(s[j], n);
      }
    }
    if i :| 0 <= i < |f| && Gives(f[i], n) {
      assert Gives(s[i], n);
    }
    if Gives(e, n) {
      assert Gives(s[|f|], n);
    }
  }

  /** Each valid name holds the value of the first entry that gives it one, and no
      other name holds anything. */
  lemma {:induction false} ParseHolds(entries: seq<Bytes>, n: Bytes, v: Bytes)
    ensures Lookup(Parse(entries), n) == Some(v) <==> ValidName(n) && FirstEntry(entries, n, v)
    ensures Lookup(Parse(entries), n).Some? <==> ValidName(n) && SomeEntry(entries, n)
  {
    if entries != [] {
      var f, e := Front(entries), Last(entries);
      ParseHolds(f, n, v);
      assert entries == f + [e];
      FirstEntrySnoc(f, e, n, v);
      LookupHas(Parse(f), n);
      ParseHoldsLast(f, e, n, v);
    }
  }

  lemma ParseHoldsLast(f: seq<Bytes>, e: Bytes, n: Bytes, v: Bytes)
    ensures Lookup(Parse(f + [e]), n) ==
      if !HasName(Parse(f), n) && ValidName(n) && Gives(e, n) then Some(e[|n| + 1..]) else Lookup(Parse(f), n)
    ensures e == n + [EQUALS] + v <==> Gives(e, n) && e[|n| + 1..] == v
  {
    var d, x := Parse(f), Split(e);
    assert Front(f + [e]) == f;
    LookupHas(d, n);
    SplitJoins(e);
    if ValidName(n) {
      GivesIs(e, n);
    }
    if x.Some? {
      LookupHas(d, x.value.name);
      LookupSnoc(d, x.value, n);
      assert x.value.name == n ==> e[|n| + 1..] == x.value.value;
    }
    if Gives(e, n) {
      assert e == n + [EQUALS] + e[|n| + 1..];
    }
  }

  /** The last change that names `n` sets it to `v`. */
  ghost predicate LastSets(changes: seq<Change>, n: Bytes, v: Bytes) {
    exists i :: 0 <= i < |changes| && changes[i] == Change(n, Some(v)) &&
      forall j :: i < j < |changes| ==> changes[j].name != n
  }

  predicate Unnamed(changes: seq<Change>, n: Bytes) {
    forall i :: 0 <= i < |changes| ==> changes[i].name != n
  }

  lemma LastSetsSnoc(changes: seq<Change>, n: Bytes, v: Bytes)
    requires changes != []
    ensures LastSets(changes, n, v) <==>
      if Last(changes).name == n then Last(changes).value == Some(v) else LastSets(Front(changes), n, v)
    ensures Unnamed(changes, n) <==> Unnamed(Front(changes), n) && Last(changes).name != n
  {
    var f, c := Front(changes), Last(changes);
    assert changes[|f|] == c && forall i :: 0 <= i < |f| ==> changes[i] == f[i];
    if c.name == n && c.value == Some(v) {
      assert changes[|f|] == Change(n, Some(v));
    }
    if c.name != n && LastSets(f, n, v) {
      var i :| 0 <= i < |f| && f[i] == Change(n, Some(v)) && forall j :: i < j < |f| ==> f[j].name != n;
      assert changes[i] == Change(n, Some(v)) && forall j :: i < j < |changes| ==> changes[j].name != n;
    }
    if LastSets(changes, n, v) {
      var i :| 0 <= i < |changes| && changes[i] == Change(n, Some(v)) &&
        forall j :: i < j < |changes| ==> changes[j].name != n;
      if c.name != n {
        assert f[i] == Change(n, Some(v)) && forall j :: i < j < |f| ==> f[j].name != n;
      }
    }
  }

  /** A name holds `v` exactly when the last change that names it sets it to `v`,
      or when no change names it, it is valid, and the first entry that gives it a
      value gives it `v`. */
  lemma {:induction false} NameHolds(entries: seq<Bytes>, changes: seq<Change>, n: Bytes, v: Bytes)
    ensures Lookup(Kept(entries, changes), n) == Some(v) <==>
      LastSets(changes, n, v) || (Unnamed(changes, n) && ValidName(n) && FirstEntry(entries, n, v))
  {
    if changes == [] {
      ParseHolds(entries, n, v);
    } else {
      NameHolds(entries, Front(changes), n, v);
      LastSetsSnoc(changes, n, v);
      var before, c := Kept(entries, Front(changes)), Last(changes);
      if c.value.None? {
        LookupRemove(before, c.name, n);
      } else {
        LookupPut(before, c.name, c.value.value, n);
      }
    }
  }

  /** The entry holds an `=` and a name before it. */
  predicate Usable(entry: Bytes) {
    EQUALS in entry && entry[0] != EQUALS
  }

  lemma UnusableSplits(e: Bytes)
    ensures Split(e).Some? <==> Usable(e)
  {
    var k := NameLength(e);
    SplitJoins(e);
    assert k == |e| ==> e[..k] == e;
  }

  lemma {:induction false} ParseDrops(entries: seq<Bytes>)
    ensures Parse(Filter(Usable, entries)) == Parse(entries)
  {
    if entries != [] {
      ParseDrops(Front(entries));
      UnusableSplits(Last(entries));
      if Usable(Last(entries)) {
        assert Front(Filter(Usable, entries)) == Filter(Usable, Front(entries));
      }
    }
  }

  /** Entries with no `=` or no name have no effect. */
  lemma UnusableIgnored(entries: seq<Bytes>, changes: seq<Change>)
    ensures Rule(Filter(Usable, entries), changes) == Rule(entries, changes)
  {
    ParseDrops(entries);
  }

  // ---------------------------------------------------------------- names stay unique

  lemma UniqueSnoc(d: Environment, x: Variable)
    requires UniqueNames(d) && !HasName(d, x.name)
    ensures UniqueNames(d + [x])
  {
  }

  lemma {:induction false} UniqueRemove(d: Environment, n: Bytes)
    requires UniqueNames(d)
    ensures UniqueNames(Remove(d, n))
  {
    if d != [] {
      UniqueRemove(Front(d), n);
      if Last(d).name != n {
        LookupRemove(Front(d), n, Last(d).name);
        LookupHas(Front(d), Last(d).name);
        LookupHas(Remove(Front(d), n), Last(d).name);
        UniqueSnoc(Remove(Front(d), n), Last(d));
      }
    }
  }

  lemma {:induction false} UniquePut(d: Environment, n: Bytes, v: Bytes)
    requires UniqueNames(d)
    ensures UniqueNames(Put(d, n, v))
  {
    if d != [] {
      HasNameSnoc(Front(d), Last(d), n);
      assert d == Front(d) + [Last(d)];
      if Last(d).name == n {
        UniqueSnoc(Front(d), Variable(n, v));
      } else if HasName(Front(d), n) {
        UniquePut(Front(d), n, v);
        LookupPut(Front(d), n, v, Last(d).name);
        LookupHas(Front(d), Last(d).name);
        LookupHas(Put(Front(d), n, v), Last(d).name);
        UniqueSnoc(Put(Front(d), n, v), Last(d));
      } else {
        UniqueSnoc(d, Variable(n, v));
      }
    }
  }

  lemma {:induction false} UniqueParse(entries: seq<Bytes>)
    ensures UniqueNames(Parse(entries))
  {
    if entries != [] {
      UniqueParse(Front(entries));
      var d, x := Parse(Front(entries)), Split(Last(entries));
      if x.Some? && !HasName(d, x.value.name) {
        UniqueSnoc(d, x.value);
      }
    }
  }

  /** No name appears twice in the result. */
  lemma {:induction false} UniqueKept(entries: seq<Bytes>, changes: seq<Change>)
    ensures UniqueNames(Kept(entries, changes))
  {
    if changes == [] {
      UniqueParse(entries);
    } else {
      UniqueKept(entries, Front(changes));
      var before, c := Kept(entries, Front(changes)), Last(changes);
      if c.value.None? {
        UniqueRemove(before, c.name);
      } else {
        UniquePut(before, c.name, c.value.value);
      }
    }
  }

  // ---------------------------------------------------------------- names keep their places

  function Untouched(changes: seq<Change>): Variable -> bool {
    (x: Variable) => Unnamed(changes, x.name)
  }

  lemma {:induction false} FilterPut(p: Variable -> bool, d: Environment, n: Bytes, v: Bytes)
    requires forall x: Variable :: x.name == n ==> !p(x)
    ensures Filter(p, Put(d, n, v)) == Filter(p, d)
  {
    FilterSnoc(p, d, Variable(n, v));
    if d == [] {
      assert d + [Variable(n, v)] == [Variable(n, v)];
    } else {
      FilterPut(p, Front(d), n, v);
      FilterSnoc(p, Front(d), Variable(n, v));
      FilterSnoc(p, Put(Front(d), n, v), Last(d));
    }
  }

  lemma {:induction false} FilterRemove(p: Variable -> bool, d: Environment, n: Bytes)
    requires forall x: Variable :: x.name == n ==> !p(x)
    ensures Filter(p, Remove(d, n)) == Filter(p, d)
  {
    if d != [] {
      FilterRemove(p, Front(d), n);
      if Last(d).name != n {
        FilterSnoc(p, Remove(Front(d), n), Last(d));
      }
    }
  }

  lemma {:induction false} ApplyKeepsOrder(p: Variable -> bool, d: Environment, changes: seq<Change>)
    requires forall i, x: Variable :: 0 <= i < |changes| && x.name == changes[i].name ==> !p(x)
    ensures Filter(p, Apply(d, changes)) == Filter(p, d)
  {
    if changes != [] {
      forall i, x: Variable | 0 <= i < |Front(changes)| && x.name == Front(changes)[i].name ensures !p(x) {
        assert Front(changes)[i] == changes[i];
      }
      ApplyKeepsOrder(p, d, Front(changes));
      var before, c := Apply(d, Front(changes)), Last(changes);
      assert changes[|changes| - 1] == c;
      if c.value.None? {
        FilterRemove(p, before, c.name);
      } else {
        FilterPut(p, before, c.name, c.value.value);
      }
    }
  }

  /** The variables no change names survive, with their values, in their order. */
  lemma UnchangedKeepOrder(entries: seq<Bytes>, changes: seq<Change>)
    ensures Filter(Untouched(changes), Kept(entries, changes)) == Filter(Untouched(changes), Parse(entries))
  {
    ApplyKeepsOrder(Untouched(changes), Parse(entries), changes);
  }

  // ---------------------------------------------------------------- composition

  ghost predicate WellNamed(d: Environment) {
    forall i :: 0 <= i < |d| ==> ValidName(d[i].name)
  }

  lemma {:induction false} ParseIsWellNamed(entries: seq<Bytes>)
    ensures WellNamed(Parse(entries))
    ensures |Parse(entries)| <= |entries|
  {
    if entries != [] {
      ParseIsWellNamed(Front(entries));
    }
  }

  lemma {:induction false} NameLengthOf(n: Bytes, rest: Bytes)
    requires EQUALS !in n
    ensures NameLength(n + [EQUALS] + rest) == |n|
  {
    if n == [] {
      assert (n + [EQUALS] + rest)[0] == EQUALS;
    } else {
      NameLengthOf(n[1..], rest);
      assert (n + [EQUALS] + rest)[1..] == n[1..] + [EQUALS] + rest;
      assert (n + [EQUALS] + rest)[0] == n[0];
    }
  }

  lemma SplitText(x: Variable)
    requires ValidName(x.name)
    ensures Split(Text(x)) == Some(x)
  {
    NameLengthOf(x.name, x.value);
    assert Text(x)[..|x.name|] == x.name;
    assert Text(x)[|x.name| + 1..] == x.value;
  }

  /** Rendering loses nothing when every name can be read back. */
  lemma {:induction false} ParseRender(d: Environment)
    requires WellNamed(d) && UniqueNames(d)
    ensures Parse(Render(d)) == d
  {
    if d != [] {
      ParseRender(Front(d));
      assert Front(Render(d)) == Render(Front(d));
      SplitText(Last(d));
    }
  }

  /** `changes` leaves `n` set. */
  ghost predicate Sets(changes: seq<Change>, n: Bytes) {
    exists v :: LastSets(changes, n, v)
  }

  lemma KeptIsWellNamed(entries: seq<Bytes>, changes: seq<Change>)
    requires forall n :: Sets(changes, n) ==> ValidName(n)
    ensures WellNamed(Kept(entries, changes))
  {
    var d := Kept(entries, changes);
    forall i | 0 <= i < |d| ensures ValidName(d[i].name) {
      var n := d[i].name;
      LookupHas(d, n);
      var v := Lookup(d, n).value;
      NameHolds(entries, changes, n, v);
    }
  }

  lemma {:induction false} ApplyConcat(d: Environment, a: seq<Change>, b: seq<Change>)
    ensures Apply(d, a + b) == Apply(Apply(d, a), b)
  {
    if b == [] {
      assert a + b == a;
    } else {
      assert a + b == (a + Front(b)) + [Last(b)];
      ApplyConcat(d, a, Front(b));
    }
  }

  /** Applying the rule twice is applying it once with both lists of changes. */
  ghost predicate Composes(entries: seq<Bytes>, first: seq<Change>, second: seq<Change>) {
    Rule(Rule(entries, first), second) == Rule(entries, first + second)
  }

  lemma ComposesWhenNamed(entries: seq<Bytes>, first: seq<Change>, second: seq<Change>)
    requires forall n :: Sets(first, n) ==> ValidName(n)
    ensures Composes(entries, first, second)
  {
    KeptIsWellNamed(entries, first);
    UniqueKept(entries, first);
    ParseRender(Kept(entries, first));
    ApplyConcat(Parse(entries), first, second);
  }

  lemma FailsWhenUnnamed(entries: seq<Bytes>, first: seq<Change>, n: Bytes) returns (second: seq<Change>)
    requires Sets(first, n) && !ValidName(n)
    ensures !Composes(entries, first, second)
  {
    var d := Kept(entries, first);
    var again := Parse(Render(d));
    var v :| LastSets(first, n, v);
    NameHolds(entries, first, n, v);
    LookupHas(d, n);
    ParseIsWellNamed(Render(d));
    if |again| < |d| {
      second := [];
      assert first + second == first;
    } else {
      var c := Change(n, Some([]));
      second := [c];
      ApplyConcat(Parse(entries), first, second);
      ApplyOne(d, c);
      ApplyOne(again, c);
      PutKeepsPlaces(again, n, []);
      PutKeepsPlaces(d, n, []);
    }
  }

  lemma ApplyOne(d: Environment, c: Change)
    ensures Apply(d, [c]) == ApplyChange(d, c)
  {
    assert [] + [c] == [c];
  }

  /** The rule composes with every later list of changes exactly when each name
      the first list leaves set is non-empty and holds no `=`. */
  lemma CompositionIff(entries: seq<Bytes>, first: seq<Change>)
    ensures (forall second :: Composes(entries, first, second)) <==>
      (forall n :: Sets(first, n) ==> ValidName(n))
  {
    if forall n :: Sets(first, n) ==> ValidName(n) {
      forall second ensures Composes(entries, first, second) {
        ComposesWhenNamed(entries, first, second);
      }
    } else {
      var n :| Sets(first, n) && !ValidName(n);
      var second := FailsWhenUnnamed(entries, first, n);
    }
  }
}
