/**
 * The numeric fold the pages use again and again:
 * `xs.reduce((acc, x) => acc + f(x), 0)`, which adds `f` over `xs` from the left.
 */
module Folds {

  /** The left fold of `+` over `f` applied to `xs`, starting from 0. */
  function SumOf<T>(xs: seq<T>, f: T -> int): (sum: int)
    ensures xs == [] ==> sum == 0
  {
    if xs == [] then 0 else SumOf(xs[..|xs| - 1], f) + f(xs[|xs| - 1])
  }

  /** Folding a concatenation is folding each part and adding the results. */
  lemma {:induction false} SumOfAppend<T>(xs: seq<T>, ys: seq<T>, f: T -> int)
    ensures SumOf(xs + ys, f) == SumOf(xs, f) + SumOf(ys, f)
    decreases |ys|
  {
    if ys == [] {
      assert xs + ys == xs;
    } else {
      var ys' := ys[..|ys| - 1];
      assert (xs + ys)[..|xs + ys| - 1] == xs + ys';
      SumOfAppend(xs, ys', f);
    }
  }

  /** The fold does not depend on the order of the elements. */
  lemma {:induction false} SumOfPermutation<T>(xs: seq<T>, ys: seq<T>, f: T -> int)
    requires multiset(xs) == multiset(ys)
    ensures SumOf(xs, f) == SumOf(ys, f)
    decreases |xs|
  {
    if xs == [] {
      assert |ys| == |multiset(ys)| == 0;
    } else {
      var x := xs[|xs| - 1];
      var xs' := xs[..|xs| - 1];
      assert xs == xs' + [x];
      assert x in multiset(ys);
      var k :| 0 <= k < |ys| && ys[k] == x;
      RemoveOne(xs', x, ys, k);
      SumOfPermutation(xs', ys[..k] + ys[k + 1..], f);
      SumOfRemove(ys, k, f);
    }
  }

  /** Taking the same element away from two equal multisets leaves equal multisets. */
  lemma RemoveOne<T>(xs: seq<T>, x: T, ys: seq<T>, k: nat)
    requires k < |ys| && ys[k] == x && multiset(xs + [x]) == multiset(ys)
    ensures multiset(xs) == multiset(ys[..k] + ys[k + 1..])
  {
    var before, after := ys[..k], ys[k + 1..];
    assert ys == before + [x] + after;
    calc {
      multiset(xs) + multiset{x};
      multiset(xs + [x]);
      multiset(ys);
      multiset(before) + multiset{x} + multiset(after);
    }
    assert multiset(xs) == multiset(xs) + multiset{x} - multiset{x};
    assert multiset(before + after) == multiset(before) + multiset{x} + multiset(after) - multiset{x};
  }

  /** One more element adds its value to the fold. */
  lemma SumOfSnoc<T>(xs: seq<T>, x: T, f: T -> int)
    ensures SumOf(xs + [x], f) == SumOf(xs, f) + f(x)
  {
    assert (xs + [x])[..|xs|] == xs;
  }

  /** A sequence is the part before index `k`, the element at `k` and the part after it. */
  lemma SplitAt<T>(ys: seq<T>, k: nat)
    requires k < |ys|
    ensures ys == (ys[..k] + [ys[k]]) + ys[k + 1..]
  {
  }

  /** The fold with one element taken out, plus that element, is the whole fold. */
  lemma SumOfRemove<T>(ys: seq<T>, k: nat, f: T -> int)
    requires k < |ys|
    ensures SumOf(ys, f) == SumOf(ys[..k] + ys[k + 1..], f) + f(ys[k])
  {
    var before, y, after := ys[..k], ys[k], ys[k + 1..];
    SplitAt(ys, k);
    SumOfAppend(before + [y], after, f);
    SumOfSnoc(before, y, f);
    SumOfAppend(before, after, f);
  }

  /** A fold of pointwise smaller values is smaller. */
  lemma {:induction false} SumOfMonotone<T>(xs: seq<T>, f: T -> int, g: T -> int)
    requires forall x :: x in xs ==> f(x) <= g(x)
    ensures SumOf(xs, f) <= SumOf(xs, g)
  {
    if xs != [] {
      SumOfMonotone(xs[..|xs| - 1], f, g);
    }
  }

  /** A fold of values between `lo` and `hi` lies between `|xs| * lo` and `|xs| * hi`. */
  lemma {:induction false} SumOfBounds<T>(xs: seq<T>, f: T -> int, lo: int, hi: int)
    requires forall x :: x in xs ==> lo <= f(x) <= hi
    ensures |xs| * lo <= SumOf(xs, f) <= |xs| * hi
  {
    if xs != [] {
      SumOfBounds(xs[..|xs| - 1], f, lo, hi);
      assert xs[|xs| - 1] in xs;
      assert |xs| * lo == (|xs| - 1) * lo + lo;
      assert |xs| * hi == (|xs| - 1) * hi + hi;
    }
  }
}
