/** Sums over lists of rows. */
module Sums {

  function SumBy<T>(xs: seq<T>, f: T -> int): int {
    if xs == [] then 0 else f(xs[0]) + SumBy(xs[1..], f)
  }

  lemma {:induction false} SumAppend<T>(xs: seq<T>, ys: seq<T>, f: T -> int)
    ensures SumBy(xs + ys, f) == SumBy(xs, f) + SumBy(ys, f)
    decreases |xs|
  {
    if xs == [] {
      assert xs + ys == ys;
    } else {
      assert (xs + ys)[1..] == xs[1..] + ys;
      SumAppend(xs[1..], ys, f);
    }
  }

  lemma SumPush<T>(xs: seq<T>, x: T, f: T -> int)
    ensures SumBy(xs + [x], f) == SumBy(xs, f) + f(x)
  {
    SumAppend(xs, [x], f);
    assert SumBy([x], f) == f(x) + SumBy([x][1..], f);
  }

  lemma SumRemove<T>(xs: seq<T>, k: nat, f: T -> int)
    requires k < |xs|
    ensures SumBy(xs, f) == f(xs[k]) + SumBy(xs[..k] + xs[k + 1..], f)
  {
    assert xs == xs[..k] + xs[k..] && xs[k..] == [xs[k]] + xs[k + 1..];
    SumAppend(xs[..k], xs[k..], f);
    SumAppend(xs[..k], xs[k + 1..], f);
  }

  lemma HeadElsewhere<T>(xs: seq<T>, ys: seq<T>) returns (k: nat)
    requires multiset(xs) == multiset(ys) && xs != []
    ensures k < |ys| && ys[k] == xs[0] && multiset(xs[1..]) == multiset(ys[..k] + ys[k + 1..])
  {
    assert xs[0] in multiset(xs);
    assert xs[0] in ys;
    k :| 0 <= k < |ys| && ys[k] == xs[0];
    assert ys == ys[..k] + [ys[k]] + ys[k + 1..];
    assert xs == [xs[0]] + xs[1..];
    assert multiset(ys[..k] + [ys[k]] + ys[k + 1..]) == multiset(ys[..k]) + multiset{ys[k]} + multiset(ys[k + 1..]);
    assert multiset(ys[..k] + ys[k + 1..]) == multiset(ys) - multiset{ys[k]};
    assert multiset(xs[1..]) == multiset(xs) - multiset{xs[0]};
  }

  /** A sum does not depend on the order of the rows. */
  lemma {:induction false} SumPermute<T>(xs: seq<T>, ys: seq<T>, f: T -> int)
    requires multiset(xs) == multiset(ys)
    ensures SumBy(xs, f) == SumBy(ys, f)
    decreases |xs|
  {
    if xs == [] {
      assert |multiset(ys)| == 0;
    } else {
      var k := HeadElsewhere(xs, ys);
      SumPermute(xs[1..], ys[..k] + ys[k + 1..], f);
      SumRemove(ys, k, f);
    }
  }

  lemma {:induction false} SumSplit<T>(xs: seq<T>, f: T -> int, g: T -> int, h: T -> int)
    requires forall x | x in xs :: f(x) == g(x) + h(x)
    ensures SumBy(xs, f) == SumBy(xs, g) + SumBy(xs, h)
  {
    if xs != [] {
      SumSplit(xs[1..], f, g, h);
    }
  }

  lemma {:induction false} SumSame<T>(xs: seq<T>, f: T -> int, g: T -> int)
    requires forall x | x in xs :: f(x) == g(x)
    ensures SumBy(xs, f) == SumBy(xs, g)
  {
    if xs != [] {
      SumSame(xs[1..], f, g);
    }
  }

  lemma {:induction false} SumZero<T>(xs: seq<T>, f: T -> int)
    requires forall x | x in xs :: f(x) == 0
    ensures SumBy(xs, f) == 0
  {
    if xs != [] {
      SumZero(xs[1..], f);
    }
  }

  lemma {:induction false} SumMapped<T, U>(xs: seq<T>, ys: seq<U>, f: T -> int, g: U -> int)
    requires |xs| == |ys| && forall i | 0 <= i < |xs| :: f(xs[i]) == g(ys[i])
    ensures SumBy(xs, f) == SumBy(ys, g)
    decreases |xs|
  {
    if xs != [] {
      SumMapped(xs[1..], ys[1..], f, g);
    }
  }

  predicate Distinct<T(==)>(xs: seq<T>) {
    forall i, j | 0 <= i < j < |xs| :: xs[i] != xs[j]
  }

  lemma DistinctWithout<T>(xs: seq<T>, k: nat)
    requires k < |xs| && Distinct(xs)
    ensures Distinct(xs[..k] + xs[k + 1..])
    ensures forall x :: x in xs[..k] + xs[k + 1..] <==> x in xs && x != xs[k]
  {
  }

  /**
   Two lists of distinct rows have the same sum when an injection from the second into the first carries
   values over and hits everything that is not zero.
   */
  lemma {:induction false} SumAlong<A, B(!new)>(xs: seq<A>, ys: seq<B>, f: A -> int, g: B -> int, into: B -> A)
    requires Distinct(xs) && Distinct(ys)
    requires forall y, z | y in ys && z in ys && into(y) == into(z) :: y == z
    requires forall y | y in ys :: g(y) == if into(y) in xs then f(into(y)) else 0
    requires forall x | x in xs && f(x) != 0 :: exists y :: y in ys && into(y) == x
    ensures SumBy(xs, f) == SumBy(ys, g)
    decreases |ys|
  {
    if ys == [] {
      SumZero(xs, f);
    } else {
      var y := ys[0];
      assert y in ys && forall z | z in ys[1..] :: z in ys && z != y;
      if into(y) in xs {
        var k :| 0 <= k < |xs| && xs[k] == into(y);
        var rest := xs[..k] + xs[k + 1..];
        DistinctWithout(xs, k);
        SumRemove(xs, k, f);
        forall x | x in rest && f(x) != 0 ensures exists z :: z in ys[1..] && into(z) == x {
          var z :| z in ys && into(z) == x;
          assert z in ys[1..];
        }
        SumAlong(rest, ys[1..], f, g, into);
      } else {
        forall x | x in xs && f(x) != 0 ensures exists z :: z in ys[1..] && into(z) == x {
          var z :| z in ys && into(z) == x;
          assert z in ys[1..];
        }
        SumAlong(xs, ys[1..], f, g, into);
      }
    }
  }
}
