/** Python's `sorted`: a stable sort, as insertion from the right. */
module Sorting {
  import opened Sequences

  ghost predicate TotalPreorder<T(!new)>(le: (T, T) -> bool) {
    && (forall x, y :: le(x, y) || le(y, x))
    && (forall x, y, z :: le(x, y) && le(y, z) ==> le(x, z))
  }

  ghost predicate Ordered<T>(le: (T, T) -> bool, s: seq<T>) {
    forall i, j :: 0 <= i < j < |s| ==> le(s[i], s[j])
  }

  /** Places `x` after every element that is not above it. */
  function Insert<T>(le: (T, T) -> bool, s: seq<T>, x: T): seq<T> {
    if s == [] || le(Last(s), x) then s + [x]
    else Insert(le, Front(s), x) + [Last(s)]
  }

  function Sort<T>(le: (T, T) -> bool, s: seq<T>): seq<T> {
    if s == [] then [] else Insert(le, Sort(le, Front(s)), Last(s))
  }

  lemma {:induction false} InsertPermutes<T>(le: (T, T) -> bool, s: seq<T>, x: T)
    ensures multiset(Insert(le, s, x)) == multiset(s) + multiset{x}
  {
    if s != [] {
      assert s == Front(s) + [Last(s)];
      InsertPermutes(le, Front(s), x);
    }
  }

  /** Sorting neither loses, adds nor repeats an element. */
  lemma {:induction false} SortPermutes<T>(le: (T, T) -> bool, s: seq<T>)
    ensures multiset(Sort(le, s)) == multiset(s)
    ensures |Sort(le, s)| == |s|
  {
    if s != [] {
      SortPermutes(le, Front(s));
      assert s == Front(s) + [Last(s)];
      InsertPermutes(le, Sort(le, Front(s)), Last(s));
    }
    assert |multiset(Sort(le, s))| == |Sort(le, s)|;
  }

  lemma SortMembers<T>(le: (T, T) -> bool, s: seq<T>)
    ensures forall x :: x in Sort(le, s) ==> x in s
    ensures forall x :: x in s ==> x in Sort(le, s)
  {
    SortPermutes(le, s);
    assert forall x :: x in s ==> x in multiset(s);
    assert forall x :: x in Sort(le, s) ==> x in multiset(Sort(le, s));
  }

  lemma {:induction false} InsertOrdered<T(!new)>(le: (T, T) -> bool, s: seq<T>, x: T)
    requires TotalPreorder(le) && Ordered(le, s)
    ensures Ordered(le, Insert(le, s, x))
  {
    if s == [] || le(Last(s), x) {
      forall i | 0 <= i < |s| ensures le(s[i], x) {
        assert le(s[i], Last(s));
      }
    } else {
      InsertOrdered(le, Front(s), x);
      var r := Insert(le, Front(s), x);
      forall i | 0 <= i < |r| ensures le(r[i], Last(s)) {
        InsertPermutes(le, Front(s), x);
        assert r[i] in multiset(r);
        if r[i] != x {
          assert r[i] in Front(s);
        }
      }
    }
  }

  lemma {:induction false} SortOrdered<T(!new)>(le: (T, T) -> bool, s: seq<T>)
    requires TotalPreorder(le)
    ensures Ordered(le, Sort(le, s))
  {
    if s != [] {
      SortOrdered(le, Front(s));
      InsertOrdered(le, Sort(le, Front(s)), Last(s));
    }
  }

  lemma {:induction false} InsertFilters<T(!new)>(le: (T, T) -> bool, p: T -> bool, s: seq<T>, x: T)
    requires TotalPreorder(le) && Ordered(le, s)
    ensures Filter(p, Insert(le, s, x)) == if p(x) then Insert(le, Filter(p, s), x) else Filter(p, s)
  {
    if s == [] || le(Last(s), x) {
      assert Front(s + [x]) == s;
      var f := Filter(p, s);
      FilterMembers(p, s);
      if f != [] {
        assert Last(f) in f;
        var i :| 0 <= i < |s| && s[i] == Last(f);
        assert le(s[i], Last(s));
      }
    } else {
      var r := Insert(le, Front(s), x);
      assert Front(r + [Last(s)]) == r;
      InsertFilters(le, p, Front(s), x);
      var f := Filter(p, s);
      if p(Last(s)) {
        assert Front(f) == Filter(p, Front(s));
      } else if p(x) {
        assert f == Filter(p, Front(s));
      }
    }
  }

  /** Stability: sorting keeps every sub-selection in the order sorting that
      selection alone gives. */
  lemma {:induction false} SortFilters<T(!new)>(le: (T, T) -> bool, p: T -> bool, s: seq<T>)
    requires TotalPreorder(le)
    ensures Filter(p, Sort(le, s)) == Sort(le, Filter(p, s))
  {
    if s != [] {
      SortFilters(le, p, Front(s));
      SortOrdered(le, Front(s));
      InsertFilters(le, p, Sort(le, Front(s)), Last(s));
    }
  }

  lemma {:induction false} SortOfOrdered<T>(le: (T, T) -> bool, s: seq<T>)
    requires Ordered(le, s)
    ensures Sort(le, s) == s
  {
    if s != [] {
      SortOfOrdered(le, Front(s));
      assert |s| >= 2 ==> le(s[|s| - 2], s[|s| - 1]);
    }
  }

  lemma {:induction false} FilterOrdered<T>(le: (T, T) -> bool, p: T -> bool, s: seq<T>)
    requires Ordered(le, s)
    ensures Ordered(le, Filter(p, s))
  {
    if s != [] {
      FilterOrdered(le, p, Front(s));
      var f := Filter(p, Front(s));
      FilterMembers(p, Front(s));
      forall i | 0 <= i < |f| ensures le(f[i], Last(s)) {
        assert f[i] in f;
        var j :| 0 <= j < |s| - 1 && s[j] == f[i];
      }
    }
  }
}
