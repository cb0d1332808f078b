// Sorting, in place of the sort functions of the Go library.
module Sorting {

  /** less never holds both ways round, and what is not above another is not above what that is not above. */
  ghost predicate WeakOrder<T(!new)>(less: (T, T) -> bool) {
    && (forall a, b :: less(a, b) ==> !less(b, a))
    && (forall a, b, c :: !less(b, a) && !less(c, b) ==> !less(c, a))
  }

  ghost predicate InOrder<T>(less: (T, T) -> bool, s: seq<T>) {
    forall i, j :: 0 <= i < j < |s| ==> !less(s[j], s[i])
  }

  ghost predicate NoDuplicates<T>(s: seq<T>) {
    forall i, j :: 0 <= i < j < |s| ==> s[i] != s[j]
  }

  function Insert<T(!new)>(less: (T, T) -> bool, x: T, s: seq<T>): (r: seq<T>)
    ensures |r| == |s| + 1
    ensures forall y :: y in r <==> y == x || y in s
  {
    if s == [] || less(x, s[0]) then [x] + s
    else
      assert s == [s[0]] + s[1..];
      [s[0]] + Insert(less, x, s[1..])
  }

  function Sort<T(!new)>(less: (T, T) -> bool, s: seq<T>): (r: seq<T>)
    ensures |r| == |s|
    ensures forall y :: y in r <==> y in s
  {
    if s == [] then []
    else
      assert s == [s[0]] + s[1..];
      Insert(less, s[0], Sort(less, s[1..]))
  }

  lemma {:induction false} InsertKeepsOrder<T(!new)>(less: (T, T) -> bool, x: T, s: seq<T>)
    requires WeakOrder(less) && InOrder(less, s)
    ensures InOrder(less, Insert(less, x, s))
  {
    if s != [] && !less(x, s[0]) {
      var rest := Insert(less, x, s[1..]);
      InsertKeepsOrder(less, x, s[1..]);
      forall j | 0 <= j < |rest| ensures !less(rest[j], s[0]) {
        assert rest[j] in rest;
      }
    }
  }

  lemma {:induction false} SortPutsInOrder<T(!new)>(less: (T, T) -> bool, s: seq<T>)
    requires WeakOrder(less)
    ensures InOrder(less, Sort(less, s))
  {
    if s != [] {
      SortPutsInOrder(less, s[1..]);
      InsertKeepsOrder(less, s[0], Sort(less, s[1..]));
    }
  }

  lemma {:induction false} InsertNoDuplicates<T(!new)>(less: (T, T) -> bool, x: T, s: seq<T>)
    requires NoDuplicates(s) && x !in s
    ensures NoDuplicates(Insert(less, x, s))
  {
    if s != [] && !less(x, s[0]) {
      var rest := Insert(less, x, s[1..]);
      InsertNoDuplicates(less, x, s[1..]);
      assert forall j :: 0 <= j < |rest| ==> rest[j] in rest;
    }
  }

  lemma {:induction false} SortNoDuplicates<T(!new)>(less: (T, T) -> bool, s: seq<T>)
    requires NoDuplicates(s)
    ensures NoDuplicates(Sort(less, s))
  {
    if s != [] {
      SortNoDuplicates(less, s[1..]);
      InsertNoDuplicates(less, s[0], Sort(less, s[1..]));
    }
  }
}
