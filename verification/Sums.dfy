/** Finite sums of a weight over a list. */
module Sums {
  function Sum<T>(xs: seq<T>, w: T -> real): real {
    if xs == [] then 0.0 else Sum(xs[..|xs| - 1], w) + w(xs[|xs| - 1])
  }

  lemma {:induction false} SumAppend<T>(xs: seq<T>, ys: seq<T>, w: T -> real)
    ensures Sum(xs + ys, w) == Sum(xs, w) + Sum(ys, w)
  {
    if ys == [] {
      assert xs + ys == xs;
    } else {
      assert (xs + ys)[..|xs + ys| - 1] == xs + ys[..|ys| - 1];
      SumAppend(xs, ys[..|ys| - 1], w);
    }
  }

  lemma SumOne<T>(x: T, w: T -> real)
    ensures Sum([x], w) == w(x)
  {
    assert [x][..0] == [];
  }

  /** Matching elements weigh the same. */
  lemma {:induction false} SumMatches<T, U>(xs: seq<T>, w: T -> real, ys: seq<U>, v: U -> real)
    requires |xs| == |ys| && forall i :: 0 <= i < |xs| ==> w(xs[i]) == v(ys[i])
    ensures Sum(xs, w) == Sum(ys, v)
  {
    if xs != [] {
      SumMatches(xs[..|xs| - 1], w, ys[..|ys| - 1], v);
    }
  }

  /** A weight split in two sums in two. */
  lemma {:induction false} SumSplits<T>(xs: seq<T>, w: T -> real, u: T -> real, v: T -> real)
    requires forall i :: 0 <= i < |xs| ==> w(xs[i]) == u(xs[i]) + v(xs[i])
    ensures Sum(xs, w) == Sum(xs, u) + Sum(xs, v)
  {
    if xs != [] {
      SumSplits(xs[..|xs| - 1], w, u, v);
    }
  }

  lemma {:induction false} SumOrdered<T>(xs: seq<T>, w: T -> real, v: T -> real)
    requires forall i :: 0 <= i < |xs| ==> w(xs[i]) <= v(xs[i])
    ensures Sum(xs, w) <= Sum(xs, v)
  {
    if xs != [] {
      SumOrdered(xs[..|xs| - 1], w, v);
    }
  }
}
