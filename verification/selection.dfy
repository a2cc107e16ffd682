/** Python list comprehensions over `enumerate(xs)` with a condition, the shape every
    list the loader builds has: `[n for n, x in enumerate(xs) if keep(x)]` (IndicesWhere)
    and `[x for x in xs if keep(x)]` (Filter), together with `[xs[n] for n in idx]`
    (Select). */
module Selection {

  /** Strictly ascending, hence also free of duplicates. */
  predicate Increasing(s: seq<nat>) {
    forall a, b :: 0 <= a < b < |s| ==> s[a] < s[b]
  }

  /** The indices of `xs` whose element satisfies `keep`, in ascending order. */
  function IndicesWhere<T>(xs: seq<T>, keep: T -> bool): (r: seq<nat>)
    ensures Increasing(r)
    ensures |r| <= |xs|
    ensures forall k :: 0 <= k < |r| ==> r[k] < |xs| && keep(xs[r[k]])
    ensures forall i :: 0 <= i < |xs| && keep(xs[i]) ==> i in r
    decreases |xs|
  {
    if |xs| == 0 then []
    else
      var n := |xs| - 1;
      IndicesWhere(xs[..n], keep) + (if keep(xs[n]) then [n] else [])
  }

  /** An ascending list is determined by its members; so the contract of IndicesWhere
      pins its result down completely. */
  lemma {:induction false} IncreasingUnique(r: seq<nat>, s: seq<nat>)
    requires Increasing(r) && Increasing(s)
    requires forall x :: x in r <==> x in s
    ensures r == s
    decreases |r|
  {
    assert |r| > 0 ==> r[0] in s;
    assert |s| > 0 ==> s[0] in r;
    if |r| > 0 && |s| > 0 {
      var kr :| 0 <= kr < |r| && r[kr] == s[0];
      var ks :| 0 <= ks < |s| && s[ks] == r[0];
      assert r[0] <= r[kr];
      assert s[0] <= s[ks];
      assert r[0] == s[0];
      forall x
        ensures x in r[1..] <==> x in s[1..]
      {
        if x in r[1..] {
          var k :| 1 <= k < |r| && r[k] == x;
          assert r[0] < r[k];
          assert x in s && x != s[0];
        }
        if x in s[1..] {
          var k :| 1 <= k < |s| && s[k] == x;
          assert s[0] < s[k];
          assert x in r && x != r[0];
        }
      }
      IncreasingUnique(r[1..], s[1..]);
      assert r == [r[0]] + r[1..];
      assert s == [s[0]] + s[1..];
    }
  }

  /** The elements of `xs` at the positions `idx`, in the order of `idx`. */
  function Select<T>(xs: seq<T>, idx: seq<nat>): (r: seq<T>)
    requires forall k :: 0 <= k < |idx| ==> idx[k] < |xs|
    ensures |r| == |idx|
  {
    seq(|idx|, k requires 0 <= k < |idx| => xs[idx[k]])
  }

  /** The elements of `xs` that satisfy `keep`, in their original order. */
  function Filter<T>(xs: seq<T>, keep: T -> bool): (r: seq<T>)
    decreases |xs|
  {
    if |xs| == 0 then []
    else
      var n := |xs| - 1;
      Filter(xs[..n], keep) + (if keep(xs[n]) then [xs[n]] else [])
  }

  /** Filtering is selecting exactly the positions that satisfy `keep`, in ascending
      order: the result is the order-preserving subsequence of the kept elements. */
  lemma {:induction false} FilterIsSelection<T>(xs: seq<T>, keep: T -> bool)
    ensures Filter(xs, keep) == Select(xs, IndicesWhere(xs, keep))
    decreases |xs|
  {
    if |xs| > 0 {
      var n := |xs| - 1;
      var front := xs[..n];
      FilterIsSelection(front, keep);
      var idx := IndicesWhere(front, keep);
      var tail := if keep(xs[n]) then [n] else [];
      assert IndicesWhere(xs, keep) == idx + tail;
      forall k | 0 <= k < |idx|
        ensures Select(xs, idx + tail)[k] == Select(front, idx)[k]
      {
        assert (idx + tail)[k] == idx[k];
      }
    }
  }

  /** Every element the filter keeps satisfies `keep`, every element of `xs` that
      satisfies it is kept, and the filter never lengthens its input. */
  lemma FilterExact<T>(xs: seq<T>, keep: T -> bool)
    ensures |Filter(xs, keep)| <= |xs|
    ensures forall k :: 0 <= k < |Filter(xs, keep)| ==> keep(Filter(xs, keep)[k])
    ensures forall i :: 0 <= i < |xs| && keep(xs[i]) ==>
              exists k :: 0 <= k < |Filter(xs, keep)| && Filter(xs, keep)[k] == xs[i]
  {
    FilterIsSelection(xs, keep);
    var idx := IndicesWhere(xs, keep);
    forall i | 0 <= i < |xs| && keep(xs[i])
      ensures exists k :: 0 <= k < |Filter(xs, keep)| && Filter(xs, keep)[k] == xs[i]
    {
      var k :| 0 <= k < |idx| && idx[k] == i;
      assert Filter(xs, keep)[k] == xs[i];
    }
  }

  /** The first kept element is the element at the least position that satisfies
      `keep`; the filter is empty exactly when no element satisfies it. */
  lemma FilterHead<T>(xs: seq<T>, keep: T -> bool)
    ensures |Filter(xs, keep)| == 0 <==> forall i :: 0 <= i < |xs| ==> !keep(xs[i])
    ensures |Filter(xs, keep)| > 0 ==>
              exists i :: 0 <= i < |xs| && keep(xs[i]) && Filter(xs, keep)[0] == xs[i] &&
                          forall j :: 0 <= j < i ==> !keep(xs[j])
  {
    FilterIsSelection(xs, keep);
    var idx := IndicesWhere(xs, keep);
    if |idx| > 0 {
      forall j | 0 <= j < |xs| && keep(xs[j])
        ensures idx[0] <= j
      {
        var k :| 0 <= k < |idx| && idx[k] == j;
        assert k == 0 || idx[0] < idx[k];
      }
    }
  }

  /** Two complementary conditions split the positions of `xs` between them: the two
      index lists are together exactly as long as `xs`. */
  lemma {:induction false} ComplementCount<T>(xs: seq<T>, p: T -> bool, q: T -> bool)
    requires forall x :: q(x) == !p(x)
    ensures |IndicesWhere(xs, p)| + |IndicesWhere(xs, q)| == |xs|
    decreases |xs|
  {
    if |xs| > 0 {
      var n := |xs| - 1;
      var front := xs[..n];
      ComplementCount(front, p, q);
      assert IndicesWhere(xs, p) == IndicesWhere(front, p) + (if p(xs[n]) then [n] else []);
      assert IndicesWhere(xs, q) == IndicesWhere(front, q) + (if q(xs[n]) then [n] else []);
      assert q(xs[n]) == !p(xs[n]);
    }
  }
}
