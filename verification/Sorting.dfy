/** A stable sort by a comparison, as the `sorted` of the source language provides it. */
module Sorting {

  ghost predicate TotalOrder<T(!new)>(le: (T, T) -> bool) {
    && (forall a, b :: le(a, b) || le(b, a))
    && (forall a, b, c :: le(a, b) && le(b, c) ==> le(a, c))
  }

  predicate SortedBy<T>(s: seq<T>, le: (T, T) -> bool) {
    forall i, j :: 0 <= i < j < |s| ==> le(s[i], s[j])
  }

  /** Puts `x` before the first element it may precede. */
  function Insert<T>(x: T, s: seq<T>, le: (T, T) -> bool): seq<T> {
    if s == [] then [x]
    else if le(x, s[0]) then [x] + s
    else [s[0]] + Insert(x, s[1..], le)
  }

  function StableSort<T>(s: seq<T>, le: (T, T) -> bool): seq<T> {
    if s == [] then [] else Insert(s[0], StableSort(s[1..], le), le)
  }

  lemma {:induction false} InsertKeeps<T>(x: T, s: seq<T>, le: (T, T) -> bool)
    ensures multiset(Insert(x, s, le)) == multiset{x} + multiset(s)
  {
    if s != [] && !le(x, s[0]) {
      InsertKeeps(x, s[1..], le);
      assert s == [s[0]] + s[1..];
    }
  }

  lemma {:induction false} InsertSorts<T(!new)>(x: T, s: seq<T>, le: (T, T) -> bool)
    requires TotalOrder(le) && SortedBy(s, le)
    ensures SortedBy(Insert(x, s, le), le)
  {
    if s != [] {
      if le(x, s[0]) {
        forall y <- s ensures le(x, y) {
          var i :| 0 <= i < |s| && s[i] == y;
          assert le(s[0], y);
        }
      } else {
        InsertSorts(x, s[1..], le);
        InsertKeeps(x, s[1..], le);
        var rest := Insert(x, s[1..], le);
        forall y <- rest ensures le(s[0], y) {
          assert y in multiset(rest);
          if y != x {
            assert y in s[1..];
          }
        }
      }
    }
  }

  /** The result is sorted and holds the same elements as often. */
  lemma {:induction false} StableSortSorts<T(!new)>(s: seq<T>, le: (T, T) -> bool)
    requires TotalOrder(le)
    ensures SortedBy(StableSort(s, le), le)
    ensures multiset(StableSort(s, le)) == multiset(s)
  {
    if s != [] {
      StableSortSorts(s[1..], le);
      InsertSorts(s[0], StableSort(s[1..], le), le);
      InsertKeeps(s[0], StableSort(s[1..], le), le);
      assert s == [s[0]] + s[1..];
    }
  }

  /** So it has the same members and the same length. */
  lemma StableSortMembers<T(!new)>(s: seq<T>, le: (T, T) -> bool)
    requires TotalOrder(le)
    ensures |StableSort(s, le)| == |s|
    ensures forall x :: x in StableSort(s, le) <==> x in s
  {
    StableSortSorts(s, le);
    assert |multiset(StableSort(s, le))| == |multiset(s)|;
    forall x ensures x in StableSort(s, le) <==> x in s {
      assert x in multiset(StableSort(s, le)) <==> x in multiset(s);
    }
  }

  /** The elements that the comparison does not tell from `x`. */
  function Alike<T>(s: seq<T>, x: T, le: (T, T) -> bool): seq<T> {
    if s == [] then []
    else (if le(x, s[0]) && le(s[0], x) then [s[0]] else []) + Alike(s[1..], x, le)
  }

  lemma {:induction false} InsertIsStable<T(!new)>(y: T, s: seq<T>, x: T, le: (T, T) -> bool)
    requires TotalOrder(le)
    ensures Alike(Insert(y, s, le), x, le) == (if le(x, y) && le(y, x) then [y] else []) + Alike(s, x, le)
  {
    if s == [] {
      assert [y][1..] == [];
    } else if le(y, s[0]) {
      assert ([y] + s)[1..] == s;
    } else {
      var rest := Insert(y, s[1..], le);
      InsertIsStable(y, s[1..], x, le);
      assert ([s[0]] + rest)[1..] == rest;
    }
  }

  /** Elements that compare as equal keep their order. */
  lemma {:induction false} StableSortIsStable<T(!new)>(s: seq<T>, x: T, le: (T, T) -> bool)
    requires TotalOrder(le)
    ensures Alike(StableSort(s, le), x, le) == Alike(s, x, le)
  {
    if s != [] {
      StableSortIsStable(s[1..], x, le);
      InsertIsStable(s[0], StableSort(s[1..], le), x, le);
    }
  }
}
