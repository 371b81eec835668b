/** The guard that keeps one slug per issue number across landings. */
module IssueNumbers {
  import opened Sequences

  type Path = string

  /** The slug in a file's title, `None` when it does not parse. */
  type Slug = Option<string>

  /** The number in an issue file's name, `None` for any other file. */
  type Numbering = Path -> Option<nat>

  /** A checked-out tree: each file's slug. */
  type Tree = map<Path, Slug>

  datatype Filing = Filing(path: Path, slug: Slug)

  datatype Hit =
    | Collides(path: Path, number: nat, slug: Slug, base: Filing)
    | FiledTwice(number: nat, present: seq<Filing>)

  // ---------------------------------------------------------------- violations

  /** The filings of each number a change makes, in the order they are met. */
  method GroupByNumber(num: Numbering, changed: Tree) returns (byNumber: map<nat, seq<Filing>>)
    ensures forall n :: n in byNumber ==> byNumber[n] != [] && NoDuplicates(byNumber[n])
    ensures forall n, f :: n in byNumber && f in byNumber[n] ==>
      f.path in changed && num(f.path) == Some(n) && f.slug == changed[f.path]
    ensures forall p :: p in changed && num(p).Some? ==>
      num(p).value in byNumber && Filing(p, changed[p]) in byNumber[num(p).value]
  {
    byNumber := map[];
    var rest := changed.Keys;
    while rest != {}
      invariant rest <= changed.Keys
      invariant forall n :: n in byNumber ==> byNumber[n] != [] && NoDuplicates(byNumber[n])
      invariant forall n, f :: n in byNumber && f in byNumber[n] ==>
        f.path in changed && f.path !in rest && num(f.path) == Some(n) && f.slug == changed[f.path]
      invariant forall p :: p in changed && p !in rest && num(p).Some? ==>
        num(p).value in byNumber && Filing(p, changed[p]) in byNumber[num(p).value]
    {
      var p :| p in rest;
      rest := rest - {p};
      if num(p).Some? {
        var n := num(p).value;
        var present := if n in byNumber then byNumber[n] else [];
        assert Filing(p, changed[p]) !in present;
        byNumber := byNumber[n := present + [Filing(p, changed[p])]];
      }
    }
  }

  ghost predicate SameSlug(present: seq<Filing>) {
    forall i, j :: 0 <= i < |present| && 0 <= j < |present| ==> present[i].slug == present[j].slug
  }

  /** `len(slugs) > 1`. */
  predicate Differ(present: seq<Filing>) {
    exists i :: 0 <= i < |present| && present[i].slug != present[0].slug
  }

  method CheckNumber(number: nat, present: seq<Filing>, base: Option<Filing>) returns (hits: seq<Hit>)
    requires present != []
    ensures hits == [] <==>
      SameSlug(present) && (base.Some? ==> forall i :: 0 <= i < |present| ==> present[i].slug == base.value.slug)
    ensures forall h :: h in hits ==> h.number == number
    ensures forall h :: h in hits && h.Collides? ==>
      base == Some(h.base) && Filing(h.path, h.slug) in present && h.slug != h.base.slug
    ensures base.Some? ==> forall i :: 0 <= i < |present| && present[i].slug != base.value.slug ==>
      Collides(present[i].path, number, present[i].slug, base.value) in hits
    ensures forall h :: h in hits && h.FiledTwice? ==> h.present == present && !SameSlug(present)
    ensures !SameSlug(present) ==> FiledTwice(number, present) in hits
  {
    hits := [];
    if base.Some? {
      for i := 0 to |present|
        invariant forall j :: 0 <= j < i && present[j].slug != base.value.slug ==>
          Collides(present[j].path, number, present[j].slug, base.value) in hits
        invariant hits == [] <==> forall j :: 0 <= j < i ==> present[j].slug == base.value.slug
        invariant forall h :: h in hits ==> h.Collides? && h.number == number
        invariant forall h :: h in hits ==>
          base == Some(h.base) && Filing(h.path, h.slug) in present && h.slug != h.base.slug
      {
        if present[i].slug != base.value.slug {
          assert present[i] == Filing(present[i].path, present[i].slug);
          hits := hits + [Collides(present[i].path, number, present[i].slug, base.value)];
        }
      }
    }
    if Differ(present) {
      hits := hits + [FiledTwice(number, present)];
    }
  }

  /** Nothing to report: every number the change files has one slug, the target's
      where the target has that number. */
  ghost predicate NoCollision(num: Numbering, changed: Tree, base: map<nat, Filing>) {
    && (forall p :: p in changed && num(p).Some? && num(p).value in base ==>
        changed[p] == base[num(p).value].slug)
    && (forall p, q :: p in changed && q in changed && num(p).Some? && num(p) == num(q) ==>
        changed[p] == changed[q])
  }

  /** `present` lists the changed files with number `n`, each with its slug. */
  ghost predicate Lists(num: Numbering, changed: Tree, n: nat, present: seq<Filing>) {
    && NoDuplicates(present)
    && (forall f :: f in present ==> f.path in changed && num(f.path) == Some(n) && f.slug == changed[f.path])
    && (forall p :: p in changed && num(p) == Some(n) ==> Filing(p, changed[p]) in present)
  }

  /** The hit names a changed file whose slug differs from the target's, or lists
      all the files of a number, two of which differ. */
  ghost predicate Justified(num: Numbering, changed: Tree, base: map<nat, Filing>, h: Hit) {
    match h
    case Collides(path, number, slug, filed) =>
      && number in base && filed == base[number] && slug != filed.slug
      && path in changed && changed[path] == slug && num(path) == Some(number)
    case FiledTwice(number, present) =>
      Lists(num, changed, number, present) && !SameSlug(present)
  }

  ghost predicate AllReported(n: nat, present: seq<Filing>, base: map<nat, Filing>, hits: seq<Hit>) {
    && (!SameSlug(present) ==> FiledTwice(n, present) in hits)
    && (n in base ==>
        forall f :: f in present && f.slug != base[n].slug ==> Collides(f.path, n, f.slug, base[n]) in hits)
  }

  /** Some hit says that number `n` is filed under two slugs. */
  ghost predicate TwiceReported(n: nat, hits: seq<Hit>) {
    exists h :: h in hits && h.FiledTwice? && h.number == n
  }

  method Violations(num: Numbering, changed: Tree, base: map<nat, Filing>) returns (hits: seq<Hit>)
    ensures hits == [] <==> NoCollision(num, changed, base)
    ensures forall h :: h in hits ==> Justified(num, changed, base, h)
    ensures forall p ::
      p in changed && num(p).Some? && num(p).value in base && changed[p] != base[num(p).value].slug ==>
      Collides(p, num(p).value, changed[p], base[num(p).value]) in hits
    ensures forall p, q ::
      p in changed && q in changed && num(p).Some? && num(p) == num(q) && changed[p] != changed[q] ==>
      TwiceReported(num(p).value, hits)
  {
    hits := [];
    var byNumber := GroupByNumber(num, changed);
    var rest := byNumber.Keys;
    while rest != {}
      invariant rest <= byNumber.Keys
      invariant hits == [] <==> forall n :: n in byNumber && n !in rest ==> Agree(byNumber[n], n, base)
      invariant forall h :: h in hits ==> Justified(num, changed, base, h)
      invariant forall n :: n in byNumber && n !in rest ==> AllReported(n, byNumber[n], base, hits)
    {
      var n :| n in rest;
      rest := rest - {n};
      var more := CheckNumber(n, byNumber[n], if n in base then Some(base[n]) else None);
      HitsJustified(num, changed, base, n, byNumber[n], more);
      forall m | m in byNumber && m !in rest ensures AllReported(m, byNumber[m], base, hits + more) {
        MoreReported(m, byNumber[m], base, hits, more);
      }
      hits := hits + more;
    }
    AgreeIsNoCollision(num, changed, base, byNumber);
  }

  lemma MoreReported(n: nat, present: seq<Filing>, base: map<nat, Filing>, hits: seq<Hit>, more: seq<Hit>)
    requires AllReported(n, present, base, hits) || AllReported(n, present, base, more)
    ensures AllReported(n, present, base, hits + more)
  {
  }

  lemma HitsJustified(num: Numbering, changed: Tree, base: map<nat, Filing>, n: nat, present: seq<Filing>,
    hits: seq<Hit>)
    requires Lists(num, changed, n, present)
    requires forall h :: h in hits ==> h.number == n
    requires forall h :: h in hits && h.Collides? ==>
      n in base && h.base == base[n] && Filing(h.path, h.slug) in present && h.slug != h.base.slug
    requires forall h :: h in hits && h.FiledTwice? ==> h.present == present && !SameSlug(present)
    ensures forall h :: h in hits ==> Justified(num, changed, base, h)
  {
    forall h | h in hits ensures Justified(num, changed, base, h) {
      if h.Collides? {
        assert Filing(h.path, h.slug) in present;
      }
    }
  }

  ghost predicate Agree(present: seq<Filing>, n: nat, base: map<nat, Filing>) {
    && SameSlug(present)
    && (n in base ==> forall i :: 0 <= i < |present| ==> present[i].slug == base[n].slug)
  }

  lemma AgreeIsNoCollision(num: Numbering, changed: Tree, base: map<nat, Filing>, byNumber: map<nat, seq<Filing>>)
    requires forall n, f :: n in byNumber && f in byNumber[n] ==>
      f.path in changed && num(f.path) == Some(n) && f.slug == changed[f.path]
    requires forall p :: p in changed && num(p).Some? ==>
      num(p).value in byNumber && Filing(p, changed[p]) in byNumber[num(p).value]
    ensures (forall n :: n in byNumber ==> Agree(byNumber[n], n, base)) <==> NoCollision(num, changed, base)
  {
    if forall n :: n in byNumber ==> Agree(byNumber[n], n, base) {
      forall p | p in changed && num(p).Some? && num(p).value in base
        ensures changed[p] == base[num(p).value].slug
      {
        var present := byNumber[num(p).value];
        var i :| 0 <= i < |present| && present[i] == Filing(p, changed[p]);
      }
      forall p, q | p in changed && q in changed && num(p).Some? && num(p) == num(q)
        ensures changed[p] == changed[q]
      {
        var present := byNumber[num(p).value];
        var i :| 0 <= i < |present| && present[i] == Filing(p, changed[p]);
        var j :| 0 <= j < |present| && present[j] == Filing(q, changed[q]);
      }
    }
    if NoCollision(num, changed, base) {
      forall n | n in byNumber ensures Agree(byNumber[n], n, base) {
        forall i | 0 <= i < |byNumber[n]|
          ensures byNumber[n][i].path in changed && num(byNumber[n][i].path) == Some(n)
          ensures byNumber[n][i].slug == changed[byNumber[n][i].path]
        {
          assert byNumber[n][i] in byNumber[n];
        }
      }
    }
  }

  // ---------------------------------------------------------------- what is compared

  /** `base` says, for each wanted number the target has, one file that holds it. */
  ghost predicate BaseOf(num: Numbering, main: Tree, wanted: set<nat>, base: map<nat, Filing>) {
    && (forall n :: n in base ==>
        n in wanted && base[n].path in main && num(base[n].path) == Some(n) && base[n].slug == main[base[n].path])
    && (forall p :: p in main && num(p).Some? && num(p).value in wanted ==> num(p).value in base)
  }

  /** No file after the one named for `n` in the listing has that number. */
  ghost predicate LastListed(num: Numbering, listing: seq<Path>, n: nat, p: Path) {
    exists i :: 0 <= i < |listing| && listing[i] == p && forall j :: i < j < |listing| ==> num(listing[j]) != Some(n)
  }

  /** `base_issue_files`: a later file of the listing replaces an earlier one with
      the same number. */
  method BaseIssueFiles(num: Numbering, main: Tree, listing: seq<Path>, wanted: set<nat>)
    returns (base: map<nat, Filing>)
    requires forall p :: p in listing <==> p in main
    ensures BaseOf(num, main, wanted, base)
    ensures forall n :: n in base ==> LastListed(num, listing, n, base[n].path)
  {
    base := map[];
    for i := 0 to |listing|
      invariant forall n :: n in base ==>
        n in wanted && base[n].path in main && num(base[n].path) == Some(n) && base[n].slug == main[base[n].path]
      invariant forall j :: 0 <= j < i && num(listing[j]).Some? && num(listing[j]).value in wanted ==>
        num(listing[j]).value in base
      invariant forall n :: n in base ==> LastListed(num, listing[..i], n, base[n].path)
    {
      var p := listing[i];
      ghost var before := base;
      assert p in listing;
      if num(p).Some? && num(p).value in wanted {
        base := base[num(p).value := Filing(p, main[p])];
      }
      forall n | n in base ensures LastListed(num, listing[..i + 1], n, base[n].path) {
        if num(p) == Some(n) {
          assert listing[..i + 1][i] == p;
        } else {
          StillLast(num, listing, i, n, before[n].path);
        }
      }
    }
    assert listing[..|listing|] == listing;
    forall p | p in main && num(p).Some? && num(p).value in wanted ensures num(p).value in base {
      var j :| 0 <= j < |listing| && listing[j] == p;
    }
  }

  lemma StillLast(num: Numbering, listing: seq<Path>, i: nat, n: nat, p: Path)
    requires i < |listing| && LastListed(num, listing[..i], n, p) && num(listing[i]) != Some(n)
    ensures LastListed(num, listing[..i + 1], n, p)
  {
    var a, b := listing[..i], listing[..i + 1];
    var k :| 0 <= k < |a| && a[k] == p && forall j :: k < j < |a| ==> num(a[j]) != Some(n);
    assert b[k] == p;
    forall j | k < j < |b| ensures num(b[j]) != Some(n) {
      if j < i {
        assert b[j] == a[j];
      }
    }
  }

  /** A change: the paths it touches and the tree it leaves. */
  datatype Change = Change(touched: set<Path>, tree: Tree)

  /** `changed_issue_files`: a touched path that is gone claims no number. */
  function Changed(num: Numbering, c: Change): Tree {
    map p | p in c.touched && p in c.tree && num(p).Some? :: c.tree[p]
  }

  function Wanted(num: Numbering, c: Change): set<nat> {
    set p | p in Changed(num, c).Keys :: num(p).value
  }

  /** The target after the change lands on it. */
  function Land(main: Tree, c: Change): Tree {
    map p | p in main.Keys + c.tree.Keys && (if p in c.touched then p in c.tree else p in main) ::
      if p in c.touched then c.tree[p] else main[p]
  }

  // ---------------------------------------------------------------- landings

  /** All files of one number share one slug. */
  ghost predicate Consistent(num: Numbering, main: Tree) {
    forall p, q :: p in main && q in main && num(p).Some? && num(p) == num(q) ==> main[p] == main[q]
  }

  /** No number that was owned before has another slug after. */
  ghost predicate KeepsSlugs(num: Numbering, before: Tree, after: Tree) {
    forall p, q :: p in before && q in after && num(p).Some? && num(p) == num(q) ==> before[p] == after[q]
  }

  lemma LandedFile(num: Numbering, main: Tree, c: Change, q: Path)
    requires q in Land(main, c) && num(q).Some?
    ensures
      || (q in Changed(num, c) && Land(main, c)[q] == Changed(num, c)[q])
      || (q in main && Land(main, c)[q] == main[q])
    ensures q in Changed(num, c) ==> num(q).value in Wanted(num, c)
  {
  }

  lemma ChangedLands(num: Numbering, main: Tree, c: Change, q: Path)
    requires q in Changed(num, c)
    ensures q in Land(main, c) && Land(main, c)[q] == Changed(num, c)[q]
    ensures num(q).Some? && num(q).value in Wanted(num, c)
  {
  }

  lemma AcceptedConsistent(num: Numbering, main: Tree, c: Change, base: map<nat, Filing>)
    requires Consistent(num, main) && BaseOf(num, main, Wanted(num, c), base)
    requires NoCollision(num, Changed(num, c), base)
    ensures Consistent(num, Land(main, c))
  {
    var after := Land(main, c);
    forall p, q | p in after && q in after && num(p).Some? && num(p) == num(q) ensures after[p] == after[q] {
      LandedFile(num, main, c, p);
      LandedFile(num, main, c, q);
    }
  }

  lemma RefusedBreaks(num: Numbering, main: Tree, c: Change, base: map<nat, Filing>)
    requires BaseOf(num, main, Wanted(num, c), base)
    requires Consistent(num, Land(main, c)) && KeepsSlugs(num, main, Land(main, c))
    ensures NoCollision(num, Changed(num, c), base)
  {
    var changed := Changed(num, c);
    forall p | p in changed && num(p).Some? && num(p).value in base
      ensures changed[p] == base[num(p).value].slug
    {
      ChangedLands(num, main, c, p);
    }
    forall p, q | p in changed && q in changed && num(p).Some? && num(p) == num(q)
      ensures changed[p] == changed[q]
    {
      ChangedLands(num, main, c, p);
      ChangedLands(num, main, c, q);
    }
  }

  /** The guard is exact: against a consistent target it lets a change through
      precisely when the target stays consistent and no owned number changes its
      slug, whatever the change deletes, renames or adds. */
  lemma GuardIsExact(num: Numbering, main: Tree, c: Change, base: map<nat, Filing>)
    requires Consistent(num, main) && BaseOf(num, main, Wanted(num, c), base)
    ensures NoCollision(num, Changed(num, c), base) <==>
      Consistent(num, Land(main, c)) && KeepsSlugs(num, main, Land(main, c))
  {
    if NoCollision(num, Changed(num, c), base) {
      AcceptedConsistent(num, main, c, base);
    }
    if Consistent(num, Land(main, c)) && KeepsSlugs(num, main, Land(main, c)) {
      RefusedBreaks(num, main, c, base);
    }
  }

  /** Some reading of the target lets the change through. */
  ghost predicate Accepts(num: Numbering, main: Tree, c: Change) {
    exists base :: BaseOf(num, main, Wanted(num, c), base) && NoCollision(num, Changed(num, c), base)
  }

  /** The target after each change in turn is checked against it and lands or is refused. */
  ghost function Landed(num: Numbering, main: Tree, changes: seq<Change>): Tree {
    if changes == [] then main
    else
      var before := Landed(num, main, Front(changes));
      if Accepts(num, before, Last(changes)) then Land(before, Last(changes)) else before
  }

  /** Along every sequence of landings, all files with one number share one slug. */
  lemma {:induction false} AlwaysConsistent(num: Numbering, main: Tree, changes: seq<Change>)
    requires Consistent(num, main)
    ensures Consistent(num, Landed(num, main, changes))
  {
    if changes != [] {
      AlwaysConsistent(num, main, Front(changes));
      var before, c := Landed(num, main, Front(changes)), Last(changes);
      if Accepts(num, before, c) {
        var base :| BaseOf(num, before, Wanted(num, c), base) && NoCollision(num, Changed(num, c), base);
        AcceptedConsistent(num, before, c, base);
      }
    }
  }

  ghost predicate Owns(num: Numbering, main: Tree, n: nat, slug: Slug) {
    exists p :: p in main && num(p) == Some(n) && main[p] == slug
  }

  /** The number is owned before and after every one of the landings. */
  ghost predicate StaysOwned(num: Numbering, main: Tree, changes: seq<Change>, n: nat) {
    && (exists slug :: Owns(num, Landed(num, main, changes), n, slug))
    && (changes != [] ==> StaysOwned(num, main, Front(changes), n))
  }

  /** A number that stays owned along a sequence of landings keeps its slug. */
  lemma {:induction false} OwnedNumberKeepsSlug(num: Numbering, main: Tree, changes: seq<Change>, n: nat, slug: Slug)
    requires Consistent(num, main) && Owns(num, main, n, slug) && StaysOwned(num, main, changes, n)
    ensures Owns(num, Landed(num, main, changes), n, slug)
  {
    if changes != [] {
      var f, c := Front(changes), Last(changes);
      OwnedNumberKeepsSlug(num, main, f, n, slug);
      AlwaysConsistent(num, main, f);
      var before := Landed(num, main, f);
      var s :| Owns(num, Landed(num, main, changes), n, s);
      if Accepts(num, before, c) {
        var base :| BaseOf(num, before, Wanted(num, c), base) && NoCollision(num, Changed(num, c), base);
      }
    }
  }

  /** Where two changes file one number they give it one slug. */
  ghost predicate Compatible(num: Numbering, c: Change, d: Change) {
    forall p, q :: p in Changed(num, c) && q in Changed(num, d) && num(p) == num(q) ==>
      Changed(num, c)[p] == Changed(num, d)[q]
  }

  lemma AcceptsKeeps(num: Numbering, main: Tree, c: Change)
    requires Consistent(num, main) && Accepts(num, main, c)
    ensures Consistent(num, Land(main, c)) && KeepsSlugs(num, main, Land(main, c))
  {
    var base :| BaseOf(num, main, Wanted(num, c), base) && NoCollision(num, Changed(num, c), base);
    GuardIsExact(num, main, c, base);
  }

  /** A number of the first landing keeps its slug through the second. */
  lemma CompatibleKeeps(num: Numbering, main: Tree, c: Change, d: Change, p: Path, q: Path)
    requires Consistent(num, main) && Accepts(num, main, c) && Accepts(num, main, d) && Compatible(num, c, d)
    requires p in Land(main, c) && q in Land(Land(main, c), d) && num(p).Some? && num(p) == num(q)
    ensures Land(main, c)[p] == Land(Land(main, c), d)[q]
  {
    AcceptsKeeps(num, main, c);
    AcceptsKeeps(num, main, d);
    LandedFile(num, Land(main, c), d, q);
    if q in Changed(num, d) {
      ChangedLands(num, Land(main, c), d, q);
      ChangedLands(num, main, d, q);
      LandedFile(num, main, c, p);
    }
  }

  /** Two slugs in the tree after both landings come from one landing each. */
  lemma CompatibleConsistent(num: Numbering, main: Tree, c: Change, d: Change, p: Path, q: Path)
    requires Consistent(num, main) && Accepts(num, main, c) && Accepts(num, main, d) && Compatible(num, c, d)
    requires p in Land(Land(main, c), d) && q in Land(Land(main, c), d) && num(p).Some? && num(p) == num(q)
    ensures Land(Land(main, c), d)[p] == Land(Land(main, c), d)[q]
  {
    LandedFile(num, Land(main, c), d, p);
    LandedFile(num, Land(main, c), d, q);
    if p in Changed(num, d) && q in Changed(num, d) {
      AcceptsKeeps(num, main, d);
      ChangedLands(num, Land(main, c), d, p);
      ChangedLands(num, Land(main, c), d, q);
      ChangedLands(num, main, d, p);
      ChangedLands(num, main, d, q);
    } else if p in Changed(num, d) {
      CompatibleKeeps(num, main, c, d, q, p);
    } else {
      CompatibleKeeps(num, main, c, d, p, q);
    }
  }

  /** A check against a stale target is enough exactly when the change that landed
      in between files no number under another slug: then, and only then, both
      land without breaking the target or changing an owned number. */
  lemma StaleCheckIff(num: Numbering, main: Tree, c: Change, d: Change)
    requires Consistent(num, main) && Accepts(num, main, c) && Accepts(num, main, d)
    ensures
      Consistent(num, Land(Land(main, c), d)) && KeepsSlugs(num, Land(main, c), Land(Land(main, c), d)) <==>
      Compatible(num, c, d)
  {
    var first, after := Land(main, c), Land(Land(main, c), d);
    if Compatible(num, c, d) {
      forall p, q | p in after && q in after && num(p).Some? && num(p) == num(q) ensures after[p] == after[q] {
        CompatibleConsistent(num, main, c, d, p, q);
      }
      forall p, q | p in first && q in after && num(p).Some? && num(p) == num(q) ensures first[p] == after[q] {
        CompatibleKeeps(num, main, c, d, p, q);
      }
    }
    if KeepsSlugs(num, first, after) {
      forall p, q | p in Changed(num, c) && q in Changed(num, d) && num(p) == num(q)
        ensures Changed(num, c)[p] == Changed(num, d)[q]
      {
        ChangedLands(num, main, c, p);
        ChangedLands(num, first, d, q);
      }
    }
  }

  /** A change that files one issue. */
  function Files(p: Path, slug: Slug): Change {
    Change({p}, map[p := slug])
  }

  lemma NewNumberAccepted(num: Numbering, p: Path, slug: Slug)
    ensures Accepts(num, map[], Files(p, slug))
  {
    var base: map<nat, Filing> := map[];
    assert BaseOf(num, map[], Wanted(num, Files(p, slug)), base);
    assert NoCollision(num, Changed(num, Files(p, slug)), base);
  }

  /** A check against a stale target does not protect the target that is landed
      on: two filings of one new number are each fine against the old target. */
  lemma StaleCheckCollides(num: Numbering, p: Path, q: Path, x: Slug, y: Slug)
    requires p != q && num(p).Some? && num(p) == num(q) && x != y
    ensures Accepts(num, map[], Files(p, x)) && Accepts(num, map[], Files(q, y))
    ensures !Consistent(num, Land(Land(map[], Files(p, x)), Files(q, y)))
  {
    NewNumberAccepted(num, p, x);
    NewNumberAccepted(num, q, y);
    var first := Land(map[], Files(p, x));
    assert p in first && first[p] == x;
    var after := Land(first, Files(q, y));
    assert p in after && q in after && after[p] == x && after[q] == y;
  }
}
