/** What the Go library's sort.Slice does to a list, for a given less function. */
module Sorting {

  /** A strict weak order: what sort.Slice demands of its less function. */
  ghost predicate StrictWeak<T(!new)>(less: (T, T) -> bool) {
    && (forall a, b :: less(a, b) ==> !less(b, a))
    && (forall a, b, c :: !less(b, a) && !less(c, b) ==> !less(c, a))
  }

  ghost predicate Sorted<T>(less: (T, T) -> bool, s: seq<T>) {
    forall i, j :: 0 <= i < j < |s| ==> !less(s[j], s[i])
  }

  /** Moves `x`, standing after the sorted list `s`, left past every larger element. */
  function Insert<T>(less: (T, T) -> bool, s: seq<T>, x: T): (r: seq<T>)
    ensures |r| == |s| + 1
  {
    if s == [] || !less(x, s[|s| - 1]) then s + [x]
    else Insert(less, s[..|s| - 1], x) + [s[|s| - 1]]
  }

  function InsertionSort<T>(less: (T, T) -> bool, s: seq<T>): (r: seq<T>)
    ensures |r| == |s|
  {
    if s == [] then [] else Insert(less, InsertionSort(less, s[..|s| - 1]), s[|s| - 1])
  }

  /**
   * `r` is a possible outcome of sorting `s`. Lists of at most 12 elements go
   * through insertion sort and a sorted list is left alone; for the rest only
   * order and contents are promised.
   */
  ghost predicate SliceSorted<T>(less: (T, T) -> bool, s: seq<T>, r: seq<T>) {
    && Sorted(less, r)
    && multiset(r) == multiset(s)
    && (|s| <= 12 ==> r == InsertionSort(less, s))
    && (Sorted(less, s) ==> r == s)
  }

  lemma {:induction false} InsertSorts<T(!new)>(less: (T, T) -> bool, s: seq<T>, x: T)
    requires StrictWeak(less) && Sorted(less, s)
    ensures Sorted(less, Insert(less, s, x))
    ensures multiset(Insert(less, s, x)) == multiset(s) + multiset{x}
  {
    if s == [] || !less(x, s[|s| - 1]) {
      NothingAfter(less, s, x);
      AppendSorts(less, s, x);
    } else {
      hide StrictWeak;
      var init, last := s[..|s| - 1], s[|s| - 1];
      assert s == init + [last];
      InsertSorts(less, init, x);
      NotBack(less, x, last);
      NoneAfter(less, init, x, Insert(less, init, x), last);
      AppendSorts(less, Insert(less, init, x), last);
    }
  }

  lemma NotBack<T(!new)>(less: (T, T) -> bool, a: T, b: T)
    requires StrictWeak(less) && less(a, b)
    ensures !less(b, a)
  {
  }

  lemma NothingAfter<T(!new)>(less: (T, T) -> bool, s: seq<T>, x: T)
    requires StrictWeak(less) && Sorted(less, s) && (s == [] || !less(x, s[|s| - 1]))
    ensures forall i :: 0 <= i < |s| ==> !less(x, s[i])
  {
    forall i | 0 <= i < |s| - 1 ensures !less(x, s[i]) {
      assert !less(s[|s| - 1], s[i]);
    }
  }

  lemma AppendSorts<T>(less: (T, T) -> bool, s: seq<T>, x: T)
    requires Sorted(less, s) && forall i :: 0 <= i < |s| ==> !less(x, s[i])
    ensures Sorted(less, s + [x])
  {
  }

  /** What is not before any element of `init` nor `x` is not before any element of both together. */
  lemma NoneAfter<T>(less: (T, T) -> bool, init: seq<T>, x: T, r: seq<T>, last: T)
    requires multiset(r) == multiset(init) + multiset{x}
    requires !less(last, x) && forall i :: 0 <= i < |init| ==> !less(last, init[i])
    ensures forall i :: 0 <= i < |r| ==> !less(last, r[i])
  {
    forall i | 0 <= i < |r| ensures !less(last, r[i]) {
      assert r[i] in multiset(r);
      if r[i] != x {
        assert r[i] in multiset(init);
      }
    }
  }

  lemma {:induction false} InsertionSortSorts<T(!new)>(less: (T, T) -> bool, s: seq<T>)
    requires StrictWeak(less)
    ensures Sorted(less, InsertionSort(less, s))
    ensures multiset(InsertionSort(less, s)) == multiset(s)
  {
    if s != [] {
      var init, last := s[..|s| - 1], s[|s| - 1];
      assert s == init + [last];
      InsertionSortSorts(less, init);
      InsertSorts(less, InsertionSort(less, init), last);
    }
  }

  lemma {:induction false} InsertionSortKeepsSorted<T(!new)>(less: (T, T) -> bool, s: seq<T>)
    requires Sorted(less, s)
    ensures InsertionSort(less, s) == s
  {
    if s != [] {
      InsertionSortKeepsSorted(less, s[..|s| - 1]);
      assert s == s[..|s| - 1] + [s[|s| - 1]];
    }
  }

  method SortSlice<T(!new)>(less: (T, T) -> bool, s: seq<T>) returns (r: seq<T>)
    requires StrictWeak(less)
    ensures SliceSorted(less, s, r)
  {
    r := InsertionSort(less, s);
    InsertionSortSorts(less, s);
    if Sorted(less, s) {
      InsertionSortKeepsSorted(less, s);
    }
  }

  function Filter<T>(keep: T -> bool, s: seq<T>): seq<T> {
    if s == [] then []
    else Filter(keep, s[..|s| - 1]) + if keep(s[|s| - 1]) then [s[|s| - 1]] else []
  }

  lemma {:induction false} InsertStable<T(!new)>(less: (T, T) -> bool, keep: T -> bool, s: seq<T>, x: T)
    requires forall a, b :: keep(a) && keep(b) ==> !less(a, b)
    ensures Filter(keep, Insert(less, s, x)) == Filter(keep, s) + if keep(x) then [x] else []
  {
    if s == [] || !less(x, s[|s| - 1]) {
      assert (s + [x])[..|s|] == s;
    } else {
      InsertStable(less, keep, s[..|s| - 1], x);
      var r := Insert(less, s[..|s| - 1], x);
      assert (r + [s[|s| - 1]])[..|r|] == r;
    }
  }

  /** Insertion sort never reorders elements that compare equal. */
  lemma {:induction false} InsertionSortStable<T(!new)>(less: (T, T) -> bool, keep: T -> bool, s: seq<T>)
    requires forall a, b :: keep(a) && keep(b) ==> !less(a, b)
    ensures Filter(keep, InsertionSort(less, s)) == Filter(keep, s)
  {
    if s != [] {
      InsertionSortStable(less, keep, s[..|s| - 1]);
      InsertStable(less, keep, InsertionSort(less, s[..|s| - 1]), s[|s| - 1]);
    }
  }
}
