/** The process-tree CPU walk: a stack without a visited set. */
module ProcessTree {
  import opened Sequences

  datatype Pid = Pid(number: int)

  /** The process `n` parents above `p`. */
  function Ancestor(parents: map<Pid, Pid>, p: Pid, n: nat): Option<Pid> {
    if n == 0 then Some(p)
    else
      var a := Ancestor(parents, p, n - 1);
      if a.Some? && a.value in parents then Some(parents[a.value]) else None
  }

  /** `p`'s parent chain reaches `root`. */
  ghost predicate Descends(parents: map<Pid, Pid>, root: Pid, p: Pid) {
    exists n: nat :: Ancestor(parents, p, n) == Some(root)
  }

  ghost predicate OnCycle(parents: map<Pid, Pid>, root: Pid) {
    exists n: nat :: n > 0 && Ancestor(parents, root, n) == Some(root)
  }

  /** `children` lists each process's children once. */
  ghost predicate ChildrenOf(parents: map<Pid, Pid>, children: map<Pid, seq<Pid>>) {
    && (forall p :: p in children ==> NoDuplicates(children[p]))
    && (forall p, c :: p in children && c in children[p] ==> c in parents && parents[c] == p)
    && (forall c :: c in parents ==> parents[c] in children && c in children[parents[c]])
  }

  method ListChildren(parents: map<Pid, Pid>) returns (children: map<Pid, seq<Pid>>)
    ensures ChildrenOf(parents, children)
  {
    children := map[];
    var rest := parents.Keys;
    while rest != {}
      invariant rest <= parents.Keys
      invariant forall p :: p in children ==> NoDuplicates(children[p])
      invariant forall p, c :: p in children && c in children[p] ==> c in parents && c !in rest && parents[c] == p
      invariant forall c :: c in parents && c !in rest ==> parents[c] in children && c in children[parents[c]]
    {
      var c :| c in rest;
      rest := rest - {c};
      var p := parents[c];
      var listed := if p in children then children[p] else [];
      children := children[p := listed + [c]];
    }
  }

  function Kids(children: map<Pid, seq<Pid>>, p: Pid): seq<Pid> {
    if p in children then children[p] else []
  }

  /** `cpu_ticks.get(p, 0)`. */
  function Ticks(ticks: map<Pid, int>, p: Pid): int {
    if p in ticks then ticks[p] else 0
  }

  /** The ticks of the processes that have any. */
  function TickSum(ticks: map<Pid, int>, s: seq<Pid>): int {
    if s == [] then 0
    else TickSum(ticks, Front(s)) + (if Last(s) in ticks then ticks[Last(s)] else 0)
  }

  /** The stack after `n` turns of the loop. */
  function StackAfter(children: map<Pid, seq<Pid>>, root: Pid, n: nat): seq<Pid> {
    if n == 0 then [root]
    else
      var s := StackAfter(children, root, n - 1);
      if s == [] then [] else Front(s) + Kids(children, Last(s))
  }

  // ---------------------------------------------------------------- the walk's invariant

  /** `visited` has been counted and `stack` is still to come. */
  ghost predicate Walking(parents: map<Pid, Pid>, root: Pid, visited: seq<Pid>, stack: seq<Pid>) {
    && NoDuplicates(visited + stack)
    && root in visited + stack
    && (forall x :: x in visited + stack ==> Descends(parents, root, x))
    && (forall x :: x in visited + stack && x != root ==> x in parents && parents[x] in visited)
    && (forall x :: x in parents && parents[x] in visited ==> x in visited + stack)
  }

  lemma {:induction false} AncestorUp(parents: map<Pid, Pid>, p: Pid, n: nat)
    requires p in parents
    ensures Ancestor(parents, p, n + 1) == Ancestor(parents, parents[p], n)
  {
    if n > 0 {
      AncestorUp(parents, p, n - 1);
    }
  }

  lemma KidDescends(parents: map<Pid, Pid>, root: Pid, p: Pid, c: Pid)
    requires c in parents && parents[c] == p && Descends(parents, root, p)
    ensures Descends(parents, root, c)
    ensures c == root ==> OnCycle(parents, root)
  {
    var n: nat :| Ancestor(parents, p, n) == Some(root);
    AncestorUp(parents, c, n);
    assert Ancestor(parents, c, n + 1) == Some(root);
  }

  lemma StartWalking(parents: map<Pid, Pid>, root: Pid)
    ensures Walking(parents, root, [], [root])
  {
    assert Ancestor(parents, root, 0) == Some(root);
  }

  /** A child of the process just popped was never seen before. */
  lemma KidIsNew(parents: map<Pid, Pid>, root: Pid, visited: seq<Pid>, stack: seq<Pid>, k: Pid)
    requires !OnCycle(parents, root) && Walking(parents, root, visited, stack) && stack != []
    requires k in parents && parents[k] == Last(stack)
    ensures k !in visited + stack && k != root && Descends(parents, root, k)
  {
    var c := Last(stack);
    assert c in visited + stack;
    KidDescends(parents, root, c, k);
    LastNotVisited(visited, stack);
  }

  lemma LastNotVisited(visited: seq<Pid>, stack: seq<Pid>)
    requires NoDuplicates(visited + stack) && stack != []
    ensures Last(stack) !in visited
  {
    var all := visited + stack;
    assert all[|all| - 1] == Last(stack);
    forall x | x in visited ensures x != Last(stack) {
      var i :| 0 <= i < |visited| && visited[i] == x;
      assert all[i] == x;
    }
  }

  lemma NewKidsDistinct(a: seq<Pid>, kids: seq<Pid>)
    requires NoDuplicates(a) && NoDuplicates(kids) && forall k :: k in kids ==> k !in a
    ensures NoDuplicates(a + kids)
  {
    forall i, j | 0 <= i < j < |a + kids| ensures (a + kids)[i] != (a + kids)[j] {
      if i < |a| <= j {
        assert (a + kids)[i] in a && (a + kids)[j] in kids;
      }
    }
  }

  lemma WalkOn(parents: map<Pid, Pid>, children: map<Pid, seq<Pid>>, root: Pid, visited: seq<Pid>, stack: seq<Pid>)
    requires ChildrenOf(parents, children) && !OnCycle(parents, root)
    requires Walking(parents, root, visited, stack) && stack != []
    ensures Walking(parents, root, visited + [Last(stack)], Front(stack) + Kids(children, Last(stack)))
  {
    var c, kids := Last(stack), Kids(children, Last(stack));
    var visited', stack' := visited + [c], Front(stack) + kids;
    assert c in visited + stack;
    forall k | k in kids
      ensures k in parents && parents[k] == c && k !in visited + stack && k != root && Descends(parents, root, k)
    {
      KidIsNew(parents, root, visited, stack, k);
    }
    WalkDistinct(visited, stack, kids);
    assert stack == Front(stack) + [c];
    forall x | x in parents && parents[x] in visited' ensures x in visited' + stack' {
      if parents[x] == c {
        assert x in kids;
      }
    }
  }

  lemma WalkDistinct(visited: seq<Pid>, stack: seq<Pid>, kids: seq<Pid>)
    requires NoDuplicates(visited + stack) && stack != [] && NoDuplicates(kids)
    requires forall k :: k in kids ==> k !in visited + stack
    ensures NoDuplicates((visited + [Last(stack)]) + (Front(stack) + kids))
  {
    var c, f := Last(stack), Front(stack);
    var a := (visited + [c]) + f;
    var b := visited + stack;
    forall i, j | 0 <= i < j < |a| ensures a[i] != a[j] {
      var i' := if i < |visited| then i else if i == |visited| then |b| - 1 else i - 1;
      var j' := if j < |visited| then j else if j == |visited| then |b| - 1 else j - 1;
      assert a[i] == b[i'] && a[j] == b[j'] && i' != j';
      assert i' < j' ==> b[i'] != b[j'];
      assert j' < i' ==> b[j'] != b[i'];
    }
    forall x | x in a ensures x in b {
      var i :| 0 <= i < |a| && a[i] == x;
      assert b[if i < |visited| then i else if i == |visited| then |b| - 1 else i - 1] == x;
    }
    NewKidsDistinct(a, kids);
    assert (visited + [c]) + (f + kids) == a + kids;
  }

  /** `visited` holds `root` and every child of what it holds. */
  ghost predicate Closed(parents: map<Pid, Pid>, root: Pid, visited: seq<Pid>) {
    root in visited && forall x :: x in parents && parents[x] in visited ==> x in visited
  }

  lemma {:induction false} DescendantVisited(parents: map<Pid, Pid>, root: Pid, visited: seq<Pid>, p: Pid, n: nat)
    requires Closed(parents, root, visited) && Ancestor(parents, p, n) == Some(root)
    ensures p in visited
    decreases n
  {
    if n > 0 {
      FirstParent(parents, p, n);
      AncestorUp(parents, p, n - 1);
      DescendantVisited(parents, root, visited, parents[p], n - 1);
    }
  }

  lemma {:induction false} FirstParent(parents: map<Pid, Pid>, p: Pid, n: nat)
    requires n > 0 && Ancestor(parents, p, n).Some?
    ensures p in parents
  {
    if n > 1 {
      FirstParent(parents, p, n - 1);
    }
  }

  /** `order` lists the processes whose parent chain reaches `root`, each once. */
  ghost predicate Enumerates(parents: map<Pid, Pid>, root: Pid, order: seq<Pid>) {
    NoDuplicates(order) && forall p :: p in order <==> Descends(parents, root, p)
  }

  lemma WalkedAll(parents: map<Pid, Pid>, root: Pid, visited: seq<Pid>)
    requires Walking(parents, root, visited, [])
    ensures Enumerates(parents, root, visited)
  {
    assert visited + [] == visited;
    assert Closed(parents, root, visited);
    forall p | Descends(parents, root, p) ensures p in visited {
      var n: nat :| Ancestor(parents, p, n) == Some(root);
      DescendantVisited(parents, root, visited, p, n);
    }
  }

  lemma VisitedBounded(parents: map<Pid, Pid>, root: Pid, visited: seq<Pid>, stack: seq<Pid>)
    requires Walking(parents, root, visited, stack)
    ensures |visited| + |stack| <= |parents| + 1
  {
    DistinctCardinality(visited + stack);
    var all := set x | x in visited + stack;
    assert all <= parents.Keys + {root};
    Subset(all, parents.Keys + {root});
    assert |parents.Keys + {root}| <= |parents.Keys| + 1;
  }

  lemma WalkTurn(parents: map<Pid, Pid>, children: map<Pid, seq<Pid>>, ticks: map<Pid, int>, root: Pid,
    visited: seq<Pid>, stack: seq<Pid>)
    requires ChildrenOf(parents, children) && !OnCycle(parents, root)
    requires Walking(parents, root, visited, stack) && stack != []
    ensures Walking(parents, root, visited + [Last(stack)], Front(stack) + Kids(children, Last(stack)))
    ensures TickSum(ticks, visited + [Last(stack)]) == TickSum(ticks, visited) + Ticks(ticks, Last(stack))
    ensures |visited| < |parents| + 1
  {
    VisitedBounded(parents, root, visited, stack);
    WalkOn(parents, children, root, visited, stack);
  }

  /** The CPU ticks of `root` and everything below it, `None` when `root` is gone:
      each descendant is counted exactly once. */
  method TreeTicks(parents: map<Pid, Pid>, ticks: map<Pid, int>, root: Pid) returns (r: Option<int>)
    requires root in ticks ==> !OnCycle(parents, root)
    ensures r.None? <==> root !in ticks
    ensures r.Some? ==> exists order :: Enumerates(parents, root, order) && r.value == TickSum(ticks, order)
  {
    if root !in ticks {
      return None;
    }
    var children := ListChildren(parents);
    var total, stack := 0, [root];
    ghost var visited: seq<Pid> := [];
    StartWalking(parents, root);
    while stack != []
      invariant Walking(parents, root, visited, stack)
      invariant total == TickSum(ticks, visited)
      decreases |parents| + 1 - |visited|
    {
      WalkTurn(parents, children, ticks, root, visited, stack);
      var current := Last(stack);
      stack := Front(stack);
      total := total + Ticks(ticks, current);
      stack := stack + Kids(children, current);
      visited := visited + [current];
    }
    WalkedAll(parents, root, visited);
    return Some(total);
  }

  // ---------------------------------------------------------------- when it ends

  /** While the stack is not empty, as many processes have been counted as turns taken. */
  lemma {:induction false} WalkReaches(parents: map<Pid, Pid>, children: map<Pid, seq<Pid>>, root: Pid, n: nat)
    returns (visited: seq<Pid>)
    requires ChildrenOf(parents, children) && !OnCycle(parents, root)
    requires StackAfter(children, root, n) != []
    ensures |visited| == n && Walking(parents, root, visited, StackAfter(children, root, n))
  {
    if n == 0 {
      visited := [];
      StartWalking(parents, root);
    } else {
      var before := WalkReaches(parents, children, root, n - 1);
      var stack := StackAfter(children, root, n - 1);
      WalkOn(parents, children, root, before, stack);
      visited := before + [Last(stack)];
    }
  }

  lemma WalkEnds(parents: map<Pid, Pid>, children: map<Pid, seq<Pid>>, root: Pid)
    requires ChildrenOf(parents, children) && !OnCycle(parents, root)
    ensures StackAfter(children, root, |parents| + 1) == []
  {
    var n, stack := |parents| + 1, StackAfter(children, root, |parents| + 1);
    if stack != [] {
      var visited := WalkReaches(parents, children, root, n);
      VisitedBounded(parents, root, visited, stack);
    }
  }

  /** An ancestor of `root`, when `root` is its own ancestor. */
  ghost predicate Above(parents: map<Pid, Pid>, root: Pid, x: Pid) {
    exists m: nat :: m > 0 && Ancestor(parents, root, m) == Some(x)
  }

  lemma AboveHasKid(parents: map<Pid, Pid>, root: Pid, x: Pid) returns (y: Pid)
    requires OnCycle(parents, root) && Above(parents, root, x)
    ensures y in parents && parents[y] == x && Above(parents, root, y)
  {
    var m: nat :| m > 0 && Ancestor(parents, root, m) == Some(x);
    y := Ancestor(parents, root, m - 1).value;
    if m == 1 {
      var n: nat :| n > 0 && Ancestor(parents, root, n) == Some(root);
    }
  }

  lemma AboveStays(parents: map<Pid, Pid>, children: map<Pid, seq<Pid>>, root: Pid, s: seq<Pid>, x: Pid)
    returns (y: Pid)
    requires ChildrenOf(parents, children) && OnCycle(parents, root)
    requires x in s && Above(parents, root, x)
    ensures y in Front(s) + Kids(children, Last(s)) && Above(parents, root, y)
  {
    assert s == Front(s) + [Last(s)];
    if x in Front(s) {
      y := x;
    } else {
      y := AboveHasKid(parents, root, x);
    }
  }

  lemma {:induction false} StackNeverEmpty(parents: map<Pid, Pid>, children: map<Pid, seq<Pid>>, root: Pid, n: nat)
    returns (x: Pid)
    requires ChildrenOf(parents, children) && OnCycle(parents, root)
    ensures x in StackAfter(children, root, n) && Above(parents, root, x)
  {
    if n == 0 {
      x := root;
    } else {
      x := StackNeverEmpty(parents, children, root, n - 1);
      x := AboveStays(parents, children, root, StackAfter(children, root, n - 1), x);
    }
  }

  /** The walk ends exactly when `root` is not its own ancestor. */
  lemma WalkEndsIff(parents: map<Pid, Pid>, children: map<Pid, seq<Pid>>, root: Pid)
    requires ChildrenOf(parents, children)
    ensures (exists n :: StackAfter(children, root, n) == []) <==> !OnCycle(parents, root)
  {
    if OnCycle(parents, root) {
      forall n: nat ensures StackAfter(children, root, n) != [] {
        var x := StackNeverEmpty(parents, children, root, n);
      }
    } else {
      WalkEnds(parents, children, root);
    }
  }
}
