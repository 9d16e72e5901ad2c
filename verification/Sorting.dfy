/** `Array.sort` with a comparison: stable, since elements that compare equal keep their order. */
module Sorting {

  /** `less` compares like the order of some key. */
  ghost predicate WeakOrder<T(!new)>(less: (T, T) -> bool) {
    && (forall x, y :: less(x, y) ==> !less(y, x))
    && (forall x, y, z :: less(x, z) ==> less(x, y) || less(y, z))
  }

  ghost predicate Sorted<T(!new)>(s: seq<T>, less: (T, T) -> bool) {
    forall i, j :: 0 <= i < j < |s| ==> !less(s[j], s[i])
  }

  function Insert<T>(x: T, s: seq<T>, less: (T, T) -> bool): seq<T> {
    if s != [] && less(x, s[|s| - 1]) then Insert(x, s[..|s| - 1], less) + [s[|s| - 1]] else s + [x]
  }

  function Sort<T>(s: seq<T>, less: (T, T) -> bool): seq<T> {
    if s == [] then [] else Insert(s[|s| - 1], Sort(s[..|s| - 1], less), less)
  }

  lemma {:induction false} InsertAdds<T>(x: T, s: seq<T>, less: (T, T) -> bool)
    ensures multiset(Insert(x, s, less)) == multiset(s) + multiset{x}
  {
    if s != [] {
      assert s == s[..|s| - 1] + [s[|s| - 1]];
      InsertAdds(x, s[..|s| - 1], less);
    }
  }

  /** The sorted list holds each element as often as the unsorted one. */
  lemma {:induction false} SortPermutes<T>(s: seq<T>, less: (T, T) -> bool)
    ensures multiset(Sort(s, less)) == multiset(s)
  {
    if s != [] {
      assert s == s[..|s| - 1] + [s[|s| - 1]];
      SortPermutes(s[..|s| - 1], less);
      InsertAdds(s[|s| - 1], Sort(s[..|s| - 1], less), less);
    }
  }

  lemma {:induction false} InsertSorts<T(!new)>(x: T, s: seq<T>, less: (T, T) -> bool)
    requires WeakOrder(less) && Sorted(s, less)
    ensures Sorted(Insert(x, s, less), less)
  {
    if s != [] {
      var (front, last) := (s[..|s| - 1], s[|s| - 1]);
      if less(x, last) {
        InsertSorts(x, front, less);
        var r := Insert(x, front, less);
        InsertAdds(x, front, less);
        forall i | 0 <= i < |r| ensures !less(last, r[i]) {
          assert r[i] in multiset(r);
          assert r[i] == x || r[i] in multiset(front);
          if r[i] != x {
            assert r[i] in front;
          }
        }
      }
    }
  }

  lemma {:induction false} SortSorts<T(!new)>(s: seq<T>, less: (T, T) -> bool)
    requires WeakOrder(less)
    ensures Sorted(Sort(s, less), less)
  {
    if s != [] {
      SortSorts(s[..|s| - 1], less);
      InsertSorts(s[|s| - 1], Sort(s[..|s| - 1], less), less);
    }
  }

  /** The sorted list holds the same elements. */
  lemma SortKeeps<T>(s: seq<T>, less: (T, T) -> bool, x: T)
    ensures x in Sort(s, less) <==> x in s
  {
    SortPermutes(s, less);
    assert x in multiset(Sort(s, less)) <==> x in multiset(s);
  }

  /** The elements that compare equal to `x`, in the order of the list. */
  function Alike<T>(s: seq<T>, x: T, less: (T, T) -> bool): seq<T> {
    if s == [] then []
    else
      var last := s[|s| - 1];
      Alike(s[..|s| - 1], x, less) + if less(x, last) || less(last, x) then [] else [last]
  }

  lemma AlikeOfAppended<T>(s: seq<T>, last: T, x: T, less: (T, T) -> bool)
    ensures Alike(s + [last], x, less) == Alike(s, x, less) + if less(x, last) || less(last, x) then [] else [last]
  {
    assert (s + [last])[..|s|] == s;
  }

  lemma {:induction false} InsertIsStable<T(!new)>(y: T, s: seq<T>, x: T, less: (T, T) -> bool)
    requires WeakOrder(less)
    ensures Alike(Insert(y, s, less), x, less) ==
            Alike(s, x, less) + if less(x, y) || less(y, x) then [] else [y]
  {
    if s != [] && less(y, s[|s| - 1]) {
      var (front, last) := (s[..|s| - 1], s[|s| - 1]);
      InsertIsStable(y, front, x, less);
      AlikeOfAppended(Insert(y, front, less), last, x, less);
    } else {
      AlikeOfAppended(s, y, x, less);
    }
  }

  /** Elements that compare equal stay in the order they were in. */
  lemma {:induction false} SortIsStable<T(!new)>(s: seq<T>, x: T, less: (T, T) -> bool)
    requires WeakOrder(less)
    ensures Alike(Sort(s, less), x, less) == Alike(s, x, less)
  {
    if s != [] {
      SortIsStable(s[..|s| - 1], x, less);
      InsertIsStable(s[|s| - 1], Sort(s[..|s| - 1], less), x, less);
    }
  }

  lemma Appended<T>(a: seq<T>, front: seq<T>, last: T)
    ensures a + (front + [last]) == a + front + [last]
  {}

  lemma InsertBeforeLast<T>(x: T, front: seq<T>, last: T, less: (T, T) -> bool)
    requires less(x, last)
    ensures Insert(x, front + [last], less) == Insert(x, front, less) + [last]
  {
    assert (front + [last])[..|front|] == front;
  }

  lemma {:induction false} InsertBeforeLater<T>(x: T, a: seq<T>, b: seq<T>, less: (T, T) -> bool)
    requires forall i :: 0 <= i < |b| ==> less(x, b[i])
    ensures Insert(x, a + b, less) == Insert(x, a, less) + b
  {
    if b == [] {
      assert a + b == a;
    } else {
      var (front, last) := (b[..|b| - 1], b[|b| - 1]);
      InsertBeforeLater(x, a, front, less);
      InsertBeforeLast(x, a + front, last, less);
      assert b == front + [last];
      Appended(a, front, last);
      Appended(Insert(x, a, less), front, last);
    }
  }

  lemma {:induction false} InsertAfterEarlier<T>(x: T, a: seq<T>, b: seq<T>, less: (T, T) -> bool)
    requires forall i :: 0 <= i < |a| ==> !less(x, a[i])
    ensures Insert(x, a + b, less) == a + Insert(x, b, less)
  {
    if b == [] {
      assert a + b == a;
    } else {
      InsertAfterEarlier(x, a, b[..|b| - 1], less);
      assert (a + b)[..|a + b| - 1] == a + b[..|b| - 1];
    }
  }
}
