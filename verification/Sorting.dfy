/** Array.prototype.sort under a strict order that tells the elements apart: insertion sort as a function. */
module Sorting {

  ghost predicate IsStrict<T(!new)>(less: (T, T) -> bool) {
    && (forall a :: !less(a, a))
    && (forall a, b, c :: less(a, b) && less(b, c) ==> less(a, c))
  }

  predicate Comparable<T>(xs: seq<T>, less: (T, T) -> bool) {
    forall i, k | 0 <= i < k < |xs| :: less(xs[i], xs[k]) || less(xs[k], xs[i])
  }

  predicate Increasing<T>(xs: seq<T>, less: (T, T) -> bool) {
    forall i, k | 0 <= i < k < |xs| :: less(xs[i], xs[k])
  }

  function Insert<T>(x: T, sorted: seq<T>, less: (T, T) -> bool): seq<T> {
    if sorted == [] || less(x, sorted[0]) then [x] + sorted
    else [sorted[0]] + Insert(x, sorted[1..], less)
  }

  function Sort<T>(xs: seq<T>, less: (T, T) -> bool): seq<T> {
    if xs == [] then [] else Insert(xs[0], Sort(xs[1..], less), less)
  }

  lemma {:induction false} InsertAdds<T>(x: T, sorted: seq<T>, less: (T, T) -> bool)
    ensures multiset(Insert(x, sorted, less)) == multiset(sorted) + multiset{x}
  {
    if sorted != [] && !less(x, sorted[0]) {
      InsertAdds(x, sorted[1..], less);
      assert sorted == [sorted[0]] + sorted[1..];
    }
  }

  lemma {:induction false} InsertInserts<T(!new)>(x: T, sorted: seq<T>, less: (T, T) -> bool)
    requires IsStrict(less) && Increasing(sorted, less)
    requires forall y | y in sorted :: less(x, y) || less(y, x)
    ensures Increasing(Insert(x, sorted, less), less)
  {
    if sorted == [] {
    } else if less(x, sorted[0]) {
      FrontIsLeast(x, sorted, less);
    } else {
      var rest := Insert(x, sorted[1..], less);
      InsertInserts(x, sorted[1..], less);
      InsertAdds(x, sorted[1..], less);
      forall y | y in rest ensures less(sorted[0], y) {
        assert y in multiset(rest);
        assert y == x || y in sorted[1..];
        assert sorted[0] in sorted;
      }
    }
  }

  lemma FrontIsLeast<T(!new)>(x: T, sorted: seq<T>, less: (T, T) -> bool)
    requires IsStrict(less) && Increasing(sorted, less) && sorted != [] && less(x, sorted[0])
    ensures Increasing([x] + sorted, less)
  {
  }

  lemma {:induction false} SortSorts<T(!new)>(xs: seq<T>, less: (T, T) -> bool)
    requires IsStrict(less) && Comparable(xs, less)
    ensures Increasing(Sort(xs, less), less)
    ensures multiset(Sort(xs, less)) == multiset(xs)
  {
    if xs != [] {
      SortSorts(xs[1..], less);
      assert xs == [xs[0]] + xs[1..];
      forall y | y in Sort(xs[1..], less) ensures less(xs[0], y) || less(y, xs[0]) {
        assert y in multiset(Sort(xs[1..], less));
        assert y in xs[1..];
      }
      InsertInserts(xs[0], Sort(xs[1..], less), less);
      InsertAdds(xs[0], Sort(xs[1..], less), less);
    }
  }

  /** A strictly increasing list is determined by its elements. */
  lemma {:induction false} IncreasingIsUnique<T(!new)>(xs: seq<T>, ys: seq<T>, less: (T, T) -> bool)
    requires IsStrict(less) && Increasing(xs, less) && Increasing(ys, less)
    requires forall x :: x in xs <==> x in ys
    ensures xs == ys
  {
    if xs == [] {
      if ys != [] {
        HeadsAgree(ys, xs, less);
      }
    } else {
      HeadsAgree(xs, ys, less);
      forall x ensures x in xs[1..] <==> x in ys[1..] {
        assert x in xs[1..] <==> x in xs && x != xs[0];
        assert x in ys[1..] <==> x in ys && x != ys[0];
      }
      IncreasingIsUnique(xs[1..], ys[1..], less);
      assert xs == [xs[0]] + xs[1..] && ys == [ys[0]] + ys[1..];
    }
  }

  lemma HeadsAgree<T(!new)>(xs: seq<T>, ys: seq<T>, less: (T, T) -> bool)
    requires IsStrict(less) && Increasing(xs, less) && Increasing(ys, less)
    requires xs != [] && forall x :: x in xs <==> x in ys
    ensures ys != [] && xs[0] == ys[0]
  {
    assert xs[0] in xs && xs[0] in ys;
    assert ys[0] in ys && ys[0] in xs;
  }

  lemma SameElements<T>(xs: seq<T>, ys: seq<T>)
    requires multiset(xs) == multiset(ys)
    ensures |xs| == |ys|
    ensures forall x :: x in xs <==> x in ys
  {
    assert |multiset(xs)| == |xs| && |multiset(ys)| == |ys|;
    assert forall x :: x in xs <==> x in multiset(xs);
    assert forall x :: x in ys <==> x in multiset(ys);
  }
}
