/** Orders and sorted sets of keys: what pandas' `unique()` + `sort()`,
    `groupby(sort=True)`, `min` and `max` rely on. */
module Ordering {
  import opened Sequences

  /** `lt` is a strict total order: irreflexive, transitive, and any two
      distinct values are comparable. */
  ghost predicate StrictTotalOrder<T(!new)>(lt: (T, T) -> bool) {
    && (forall x :: !lt(x, x))
    && (forall x, y, z :: lt(x, y) && lt(y, z) ==> lt(x, z))
    && (forall x, y :: x != y ==> lt(x, y) || lt(y, x))
  }

  /** Strictly increasing, hence free of duplicates. */
  predicate StrictlySorted<T>(s: seq<T>, lt: (T, T) -> bool) {
    forall i, j :: 0 <= i < j < |s| ==> lt(s[i], s[j])
  }

  /** In a strictly sorted sequence the order of positions is the order of values. */
  lemma SortedPositions<T(!new)>(s: seq<T>, lt: (T, T) -> bool, i: int, j: int)
    requires StrictTotalOrder(lt)
    requires StrictlySorted(s, lt)
    requires 0 <= i < |s| && 0 <= j < |s|
    ensures lt(s[i], s[j]) <==> i < j
    ensures s[i] == s[j] <==> i == j
  {
    if j < i {
      assert lt(s[j], s[i]);
    }
  }

  /** Adds `x` to a strictly sorted sequence, keeping it strictly sorted. */
  function Insert<T(==,!new)>(s: seq<T>, x: T, lt: (T, T) -> bool): (r: seq<T>)
    requires StrictTotalOrder(lt)
    requires StrictlySorted(s, lt)
    ensures StrictlySorted(r, lt)
    ensures forall y :: y in r <==> y in s || y == x
  {
    if |s| == 0 then [x]
    else if x == s[0] then s
    else if lt(x, s[0]) then
      assert forall j :: 0 < j < |s| ==> lt(s[0], s[j]);
      [x] + s
    else
      var rest := Insert(s[1..], x, lt);
      assert forall y :: y in rest ==> lt(s[0], y) by {
        forall y | y in rest ensures lt(s[0], y) {
          if y != x {
            var j :| 1 <= j < |s| && s[j] == y;
          }
        }
      }
      [s[0]] + rest
  }

  /** The distinct values of `xs` in increasing order: `unique()` followed by `sort()`. */
  function SortedDistinct<T(==,!new)>(xs: seq<T>, lt: (T, T) -> bool): (r: seq<T>)
    requires StrictTotalOrder(lt)
    ensures StrictlySorted(r, lt)
    ensures forall y :: y in r <==> y in xs
  {
    if |xs| == 0 then []
    else Insert(SortedDistinct(xs[..|xs| - 1], lt), xs[|xs| - 1], lt)
  }

  /** The elements of a strictly sorted sequence are pairwise distinct, so
      there are exactly as many of them as positions. */
  lemma {:induction false} SortedCardinality<T(!new)>(s: seq<T>, lt: (T, T) -> bool)
    requires StrictTotalOrder(lt)
    requires StrictlySorted(s, lt)
    ensures |set x | x in s| == |s|
    decreases |s|
  {
    if |s| > 0 {
      SortedCardinality(s[1..], lt);
      var tail := set x | x in s[1..];
      assert s[0] !in tail;
      assert (set x | x in s) == {s[0]} + tail;
    }
  }

  /** Python's `min`: a value of `xs` nothing in `xs` is below. */
  function Minimum<T(!new)>(xs: seq<T>, lt: (T, T) -> bool): (m: T)
    requires |xs| > 0
    requires StrictTotalOrder(lt)
    ensures m in xs
    ensures forall x :: x in xs ==> !lt(x, m)
  {
    if |xs| == 1 then xs[0]
    else
      var rest := Minimum(xs[1..], lt);
      assert forall x :: x in xs ==> x == xs[0] || x in xs[1..];
      if lt(xs[0], rest) then xs[0] else rest
  }

  /** Python's `max`: a value of `xs` nothing in `xs` is above. */
  function Maximum<T(!new)>(xs: seq<T>, lt: (T, T) -> bool): (m: T)
    requires |xs| > 0
    requires StrictTotalOrder(lt)
    ensures m in xs
    ensures forall x :: x in xs ==> !lt(m, x)
  {
    if |xs| == 1 then xs[0]
    else
      var rest := Maximum(xs[1..], lt);
      assert forall x :: x in xs ==> x == xs[0] || x in xs[1..];
      if lt(rest, xs[0]) then xs[0] else rest
  }

  /** Python's ordering of `str`: lexicographic by code point, a proper
      prefix sorting first. */
  predicate StrLt(a: string, b: string)
  {
    if |a| == 0 then |b| > 0
    else if |b| == 0 then false
    else if a[0] != b[0] then a[0] < b[0]
    else StrLt(a[1..], b[1..])
  }

  lemma {:induction false} StrLtIrreflexive(a: string)
    ensures !StrLt(a, a)
    decreases |a|
  {
    if |a| > 0 {
      StrLtIrreflexive(a[1..]);
    }
  }

  lemma {:induction false} StrLtTransitive(a: string, b: string, c: string)
    requires StrLt(a, b) && StrLt(b, c)
    ensures StrLt(a, c)
    decreases |a|
  {
    if |a| > 0 && a[0] == b[0] && b[0] == c[0] {
      StrLtTransitive(a[1..], b[1..], c[1..]);
    }
  }

  lemma {:induction false} StrLtConnected(a: string, b: string)
    requires a != b
    ensures StrLt(a, b) || StrLt(b, a)
    decreases |a|
  {
    if |a| > 0 && |b| > 0 && a[0] == b[0] {
      assert a == [a[0]] + a[1..] && b == [b[0]] + b[1..];
      StrLtConnected(a[1..], b[1..]);
    }
  }

  lemma StrLtIsStrictTotalOrder()
    ensures StrictTotalOrder(StrLt)
  {
    forall a | true ensures !StrLt(a, a) {
      StrLtIrreflexive(a);
    }
    forall a, b, c | StrLt(a, b) && StrLt(b, c) ensures StrLt(a, c) {
      StrLtTransitive(a, b, c);
    }
    forall a, b | a != b ensures StrLt(a, b) || StrLt(b, a) {
      StrLtConnected(a, b);
    }
  }

  /** The `w` greatest elements of a strictly sorted `ds`, read greatest
      first (`ds[::-1][0:w]`), are its last `min(|ds|, w)` positions; their
      minimum is the first of those and their maximum is the last element. */
  lemma TopWindow<T(!new)>(ds: seq<T>, lt: (T, T) -> bool, w: nat)
    requires StrictTotalOrder(lt) && StrictlySorted(ds, lt)
    requires |ds| > 0 && w > 0
    ensures var top := Take(Reverse(ds), w);
            var k := |top|;
            && 0 < k <= |ds|
            && k == (if |ds| <= w then |ds| else w)
            && (forall i :: 0 <= i < |ds| ==> (ds[i] in top <==> |ds| - k <= i))
            && Minimum(top, lt) == ds[|ds| - k]
            && Maximum(top, lt) == ds[|ds| - 1]
  {
    var n := |ds|;
    var top := Take(Reverse(ds), w);
    var k := |top|;
    assert forall i :: 0 <= i < k ==> top[i] == ds[n - 1 - i];
    forall i | 0 <= i < n ensures ds[i] in top <==> n - k <= i {
      if ds[i] in top {
        var t :| 0 <= t < k && top[t] == ds[i];
        SortedPositions(ds, lt, i, n - 1 - t);
      }
      if n - k <= i {
        assert top[n - 1 - i] == ds[i];
      }
    }
    var lo := Minimum(top, lt);
    var hi := Maximum(top, lt);
    assert top[k - 1] == ds[n - k] && top[0] == ds[n - 1];
    var tl :| 0 <= tl < k && top[tl] == lo;
    SortedPositions(ds, lt, n - k, n - 1 - tl);
    var th :| 0 <= th < k && top[th] == hi;
    SortedPositions(ds, lt, n - 1 - th, n - 1);
  }

  /** In a strictly sorted sequence the values above `ds[i]` are exactly the
      positions after `i`. */
  lemma GreaterCount<T(!new)>(ds: seq<T>, lt: (T, T) -> bool, i: int, above: set<T>)
    requires StrictTotalOrder(lt) && StrictlySorted(ds, lt)
    requires 0 <= i < |ds|
    requires forall y :: y in above <==> y in ds && lt(ds[i], y)
    ensures |above| == |ds| - 1 - i
  {
    var later := ds[i + 1..];
    assert above == set y | y in later by {
      forall y | y in above ensures y in later {
        var j :| 0 <= j < |ds| && ds[j] == y;
        SortedPositions(ds, lt, i, j);
        assert later[j - i - 1] == y;
      }
      forall y | y in later ensures y in above {
        var j :| 0 <= j < |later| && later[j] == y;
        assert ds[i + 1 + j] == y;
      }
    }
    assert StrictlySorted(later, lt);
    SortedCardinality(later, lt);
  }

  /** One element against the window of the `w` greatest: it lies between
      the window's minimum and maximum iff it is in the window, iff fewer
      than `w` elements are above it. */
  lemma TopWindowElement<T(!new)>(ds: seq<T>, lt: (T, T) -> bool, w: nat, i: int, above: set<T>)
    requires StrictTotalOrder(lt) && StrictlySorted(ds, lt)
    requires w > 0 && 0 <= i < |ds|
    requires forall y :: y in above <==> y in ds && lt(ds[i], y)
    ensures var top := Take(Reverse(ds), w);
            && |top| > 0
            && (ds[i] in top <==> !lt(ds[i], Minimum(top, lt)) && !lt(Maximum(top, lt), ds[i]))
            && (ds[i] in top <==> |above| < w)
  {
    var n := |ds|;
    TopWindow(ds, lt, w);
    var k := |Take(Reverse(ds), w)|;
    SortedPositions(ds, lt, i, n - k);
    SortedPositions(ds, lt, n - 1, i);
    GreaterCount(ds, lt, i, above);
  }
}
