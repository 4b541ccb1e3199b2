/** Stable sorting by an integer key, as the standard library's `sort_by_key` does it. */
module Sorting {

  function InsertBy<T>(x: T, xs: seq<T>, key: T -> int): seq<T> {
    if xs == [] || key(x) <= key(xs[0]) then [x] + xs else [xs[0]] + InsertBy(x, xs[1..], key)
  }

  function SortBy<T>(xs: seq<T>, key: T -> int): seq<T> {
    if xs == [] then [] else InsertBy(xs[0], SortBy(xs[1..], key), key)
  }

  ghost predicate SortedBy<T>(xs: seq<T>, key: T -> int) {
    xs == [] || ((forall y :: y in xs[1..] ==> key(xs[0]) <= key(y)) && SortedBy(xs[1..], key))
  }

  lemma {:induction false} InsertPermutes<T>(x: T, xs: seq<T>, key: T -> int)
    ensures multiset(InsertBy(x, xs, key)) == multiset{x} + multiset(xs)
  {
    if xs == [] || key(x) <= key(xs[0]) {
    } else {
      InsertPermutes(x, xs[1..], key);
      assert xs == [xs[0]] + xs[1..];
    }
  }

  lemma {:induction false} InsertSorts<T>(x: T, xs: seq<T>, key: T -> int)
    requires SortedBy(xs, key)
    ensures SortedBy(InsertBy(x, xs, key), key)
  {
    var r := InsertBy(x, xs, key);
    if xs == [] || key(x) <= key(xs[0]) {
      assert r[1..] == xs;
      forall y | y in xs ensures key(x) <= key(y) {
        assert y == xs[0] || y in xs[1..];
      }
    } else {
      InsertSorts(x, xs[1..], key);
      InsertPermutes(x, xs[1..], key);
      var rest := InsertBy(x, xs[1..], key);
      assert r[1..] == rest;
      forall y | y in rest ensures key(xs[0]) <= key(y) {
        assert y in multiset(rest);
        assert y == x || y in xs[1..];
      }
    }
  }

  /** Sorting orders the elements and neither loses, invents nor repeats one. */
  lemma {:induction false} SortIsSortedPermutation<T>(xs: seq<T>, key: T -> int)
    ensures SortedBy(SortBy(xs, key), key)
    ensures multiset(SortBy(xs, key)) == multiset(xs)
  {
    if xs != [] {
      SortIsSortedPermutation(xs[1..], key);
      InsertSorts(xs[0], SortBy(xs[1..], key), key);
      InsertPermutes(xs[0], SortBy(xs[1..], key), key);
      assert xs == [xs[0]] + xs[1..];
    }
  }

  lemma SameElements<T>(xs: seq<T>, ys: seq<T>)
    requires multiset(xs) == multiset(ys)
    ensures |xs| == |ys|
    ensures forall x :: x in xs <==> x in ys
  {
    assert |multiset(xs)| == |xs| && |multiset(ys)| == |ys|;
    forall x ensures x in xs <==> x in ys {
      assert x in xs <==> x in multiset(xs);
    }
  }

  ghost predicate StrictlySortedBy<T>(xs: seq<T>, key: T -> int) {
    xs == [] || ((forall y :: y in xs[1..] ==> key(xs[0]) < key(y)) && StrictlySortedBy(xs[1..], key))
  }

  /** A strictly sorted sequence is determined by its elements. */
  lemma {:induction false} StrictlySortedUnique<T>(xs: seq<T>, ys: seq<T>, key: T -> int)
    requires StrictlySortedBy(xs, key) && StrictlySortedBy(ys, key)
    requires multiset(xs) == multiset(ys)
    ensures xs == ys
  {
    SameElements(xs, ys);
    if xs != [] {
      SplitFirst(xs);
      SplitFirst(ys);
      assert xs[0] in ys && ys[0] in xs;
      StrictlySortedUnique(xs[1..], ys[1..], key);
    }
  }

  lemma SplitFirst<T>(xs: seq<T>)
    requires xs != []
    ensures forall x :: x in xs <==> x == xs[0] || x in xs[1..]
    ensures multiset(xs[1..]) == multiset(xs) - multiset{xs[0]}
    ensures xs == [xs[0]] + xs[1..]
  {
    assert xs == [xs[0]] + xs[1..];
  }
}
