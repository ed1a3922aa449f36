/** Order-preserving selection, sums and counts over sequences: the row-wise
    operations a data frame offers (boolean masks, `sum`, `count`). */
module Sequences {

  /** The elements of `xs` that satisfy `p`, in their original order
      (a boolean-mask selection). */
  function Select<T(!new)>(xs: seq<T>, p: T -> bool): (r: seq<T>)
    ensures |r| <= |xs|
    ensures forall x :: x in r <==> x in xs && p(x)
  {
    if |xs| == 0 then []
    else if p(xs[0]) then [xs[0]] + Select(xs[1..], p)
    else Select(xs[1..], p)
  }

  /** `a` can be obtained from `b` by deleting elements. */
  predicate IsSubsequence<T(==)>(a: seq<T>, b: seq<T>)
    decreases |b|
  {
    || |a| == 0
    || (&& |b| > 0
        && ((a[0] == b[0] && IsSubsequence(a[1..], b[1..])) || IsSubsequence(a, b[1..])))
  }

  lemma {:induction false} SelectIsSubsequence<T(!new)>(xs: seq<T>, p: T -> bool)
    ensures IsSubsequence(Select(xs, p), xs)
    decreases |xs|
  {
    if |xs| > 0 {
      SelectIsSubsequence(xs[1..], p);
      var r := Select(xs, p);
      if p(xs[0]) {
        assert r[0] == xs[0] && r[1..] == Select(xs[1..], p);
      } else {
        assert r == Select(xs[1..], p);
      }
    }
  }

  /** Selection only looks at the predicate on the elements present. */
  lemma {:induction false} SelectCongruent<T(!new)>(xs: seq<T>, p: T -> bool, q: T -> bool)
    requires forall x :: x in xs ==> p(x) == q(x)
    ensures Select(xs, p) == Select(xs, q)
    decreases |xs|
  {
    if |xs| > 0 {
      assert xs[0] in xs;
      assert forall x :: x in xs[1..] ==> x in xs;
      SelectCongruent(xs[1..], p, q);
    }
  }

  /** Two selections in a row are one selection by the conjunction. */
  lemma {:induction false} SelectSelect<T(!new)>(xs: seq<T>, p: T -> bool, q: T -> bool, pq: T -> bool)
    requires forall x :: x in xs ==> pq(x) == (p(x) && q(x))
    ensures Select(Select(xs, p), q) == Select(xs, pq)
    decreases |xs|
  {
    if |xs| > 0 {
      assert xs[0] in xs;
      assert forall x :: x in xs[1..] ==> x in xs;
      SelectSelect(xs[1..], p, q, pq);
      if p(xs[0]) {
        assert Select(xs, p) == [xs[0]] + Select(xs[1..], p);
        assert Select(xs, p)[1..] == Select(xs[1..], p);
      }
    }
  }

  /** Selecting with a predicate every element already satisfies keeps everything. */
  lemma {:induction false} SelectAll<T(!new)>(xs: seq<T>, p: T -> bool)
    requires forall x :: x in xs ==> p(x)
    ensures Select(xs, p) == xs
    decreases |xs|
  {
    if |xs| > 0 {
      assert xs[0] in xs;
      assert forall x :: x in xs[1..] ==> x in xs;
      SelectAll(xs[1..], p);
    }
  }

  /** Column sum: the sum of `f` over the rows. */
  function SumOf<T>(xs: seq<T>, f: T -> int): int
  {
    if |xs| == 0 then 0 else f(xs[0]) + SumOf(xs[1..], f)
  }

  /** Number of rows satisfying `p`. */
  function CountOf<T(!new)>(xs: seq<T>, p: T -> bool): (n: nat)
    ensures n <= |xs|
    ensures n == |Select(xs, p)|
  {
    if |xs| == 0 then 0 else (if p(xs[0]) then 1 else 0) + CountOf(xs[1..], p)
  }

  lemma {:induction false} SumOfAppend<T>(xs: seq<T>, ys: seq<T>, f: T -> int)
    ensures SumOf(xs + ys, f) == SumOf(xs, f) + SumOf(ys, f)
    decreases |xs|
  {
    if |xs| == 0 {
      assert xs + ys == ys;
    } else {
      assert (xs + ys)[1..] == xs[1..] + ys;
      SumOfAppend(xs[1..], ys, f);
    }
  }

  lemma {:induction false} CountOfAppend<T(!new)>(xs: seq<T>, ys: seq<T>, p: T -> bool)
    ensures CountOf(xs + ys, p) == CountOf(xs, p) + CountOf(ys, p)
    decreases |xs|
  {
    if |xs| == 0 {
      assert xs + ys == ys;
    } else {
      assert (xs + ys)[1..] == xs[1..] + ys;
      CountOfAppend(xs[1..], ys, p);
    }
  }

  /** A count is never smaller than the count of a stronger condition. */
  lemma {:induction false} CountOfMonotone<T(!new)>(xs: seq<T>, p: T -> bool, q: T -> bool)
    requires forall x :: x in xs && p(x) ==> q(x)
    ensures CountOf(xs, p) <= CountOf(xs, q)
    decreases |xs|
  {
    if |xs| > 0 {
      assert xs[0] in xs;
      assert forall x :: x in xs[1..] ==> x in xs;
      CountOfMonotone(xs[1..], p, q);
    }
  }

  /** The sequence read back to front (`[::-1]`). */
  function Reverse<T>(s: seq<T>): (r: seq<T>)
    ensures |r| == |s|
    ensures forall i :: 0 <= i < |s| ==> r[i] == s[|s| - 1 - i]
  {
    if |s| == 0 then [] else Reverse(s[1..]) + [s[0]]
  }

  /** The slice `[0:n]`: at most the first `n` elements. */
  function Take<T>(s: seq<T>, n: nat): (r: seq<T>)
    ensures |r| == if n <= |s| then n else |s|
    ensures forall i :: 0 <= i < |r| ==> r[i] == s[i]
  {
    if n <= |s| then s[..n] else s
  }
}
