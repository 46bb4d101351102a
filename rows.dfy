/**
 * Row selection as pandas does it: a boolean mask picks rows (`df[mask]`,
 * `dropna`), positions pick rows in a given order (`take` after `nlargest`),
 * and `unique()` lists distinct values by first appearance.
 */
module Rows {

  ghost predicate Increasing(idx: seq<nat>)
  {
    forall i, j :: 0 <= i < j < |idx| ==> idx[i] < idx[j]
  }

  ghost predicate Distinct<T>(xs: seq<T>)
  {
    forall i, j :: 0 <= i < j < |xs| ==> xs[i] != xs[j]
  }

  ghost predicate InRange(idx: seq<nat>, n: nat)
  {
    forall i :: 0 <= i < |idx| ==> idx[i] < n
  }

  /** Element-wise conjunction of two masks, as `mask &= other`. */
  function And(a: seq<bool>, b: seq<bool>): (r: seq<bool>)
    requires |a| == |b|
    ensures |r| == |a|
    ensures forall i :: 0 <= i < |r| ==> (r[i] <==> a[i] && b[i])
  {
    seq(|a|, i requires 0 <= i < |a| => a[i] && b[i])
  }

  /** The positions where the mask is true, in ascending order. */
  function TrueIndices(mask: seq<bool>): (idx: seq<nat>)
    ensures Increasing(idx) && InRange(idx, |mask|)
    ensures forall p :: 0 <= p < |mask| ==> (mask[p] <==> p in idx)
    ensures |idx| <= |mask|
  {
    if |mask| == 0 then []
    else
      var prefix := mask[..|mask| - 1];
      var r := TrueIndices(prefix);
      assert forall p :: 0 <= p < |prefix| ==> mask[p] == prefix[p];
      if mask[|mask| - 1] then r + [|mask| - 1] else r
  }

  /** The elements at the given positions, in the order of the positions. */
  function Pick<T>(xs: seq<T>, idx: seq<nat>): (r: seq<T>)
    requires InRange(idx, |xs|)
    ensures |r| == |idx|
    ensures forall i :: 0 <= i < |idx| ==> r[i] == xs[idx[i]]
  {
    seq(|idx|, i requires 0 <= i < |idx| => xs[idx[i]])
  }

  /** `xs[mask]`: the elements where the mask is true, in their original order. */
  function Select<T>(xs: seq<T>, mask: seq<bool>): seq<T>
    requires |mask| == |xs|
  {
    Pick(xs, TrueIndices(mask))
  }

  /** Selecting keeps exactly the elements whose mask bit is set, and keeps their order. */
  lemma SelectExact<T>(xs: seq<T>, mask: seq<bool>)
    requires |mask| == |xs|
    ensures var idx := TrueIndices(mask);
      && |Select(xs, mask)| == |idx| <= |xs|
      && (forall i :: 0 <= i < |idx| ==> Select(xs, mask)[i] == xs[idx[i]] && mask[idx[i]])
      && (forall i, j :: 0 <= i < j < |idx| ==> idx[i] < idx[j])
      && (forall p :: 0 <= p < |xs| && mask[p] ==> p in idx)
  {
  }

  /** A mask that is everywhere true selects everything. */
  lemma {:induction false} SelectAll<T>(xs: seq<T>, mask: seq<bool>)
    requires |mask| == |xs|
    requires forall p :: 0 <= p < |mask| ==> mask[p]
    ensures Select(xs, mask) == xs
  {
    var idx := TrueIndices(mask);
    IncreasingCover(idx, |xs|);
  }

  lemma {:induction false} IncreasingCover(idx: seq<nat>, n: nat)
    requires Increasing(idx) && InRange(idx, n)
    requires forall p :: 0 <= p < n ==> p in idx
    ensures idx == seq(n, p => p)
    decreases n
  {
    if n > 0 {
      assert n - 1 in idx;
      var last :| 0 <= last < |idx| && idx[last] == n - 1;
      IncreasingTail(idx, n);
      var prefix := idx[..|idx| - 1];
      forall p | 0 <= p < n - 1 ensures p in prefix {
        assert p in idx;
        var k :| 0 <= k < |idx| && idx[k] == p;
        assert k < |idx| - 1;
      }
      IncreasingCover(prefix, n - 1);
      assert idx == prefix + [n - 1];
    } else {
      IncreasingTail(idx, n);
    }
  }

  /** Increasing positions below `n` leave room only for what follows them. */
  lemma {:induction false} IncreasingTail(idx: seq<nat>, n: nat)
    requires Increasing(idx) && InRange(idx, n)
    ensures |idx| <= n
    ensures forall i :: 0 <= i < |idx| ==> idx[i] + |idx| - i <= n
  {
    if |idx| > 0 {
      var prefix := idx[..|idx| - 1];
      var m := idx[|idx| - 1];
      IncreasingTail(prefix, m);
    }
  }

  /** Picking at increasing positions from distinct elements gives distinct elements. */
  lemma PickDistinct<T>(xs: seq<T>, idx: seq<nat>)
    requires InRange(idx, |xs|) && Increasing(idx) && Distinct(xs)
    ensures Distinct(Pick(xs, idx))
  {
  }

  /** `pd.unique`: the distinct values, each at its first appearance. */
  function Unique<T(==)>(xs: seq<T>): (r: seq<T>)
    ensures Distinct(r)
    ensures forall i :: 0 <= i < |r| ==> r[i] in xs
    ensures forall i :: 0 <= i < |xs| ==> xs[i] in r
  {
    if |xs| == 0 then []
    else
      var prefix := xs[..|xs| - 1];
      var u := Unique(prefix);
      var last := xs[|xs| - 1];
      assert forall i :: 0 <= i < |xs| - 1 ==> xs[i] == prefix[i];
      if last in u then u else u + [last]
  }

  /** Position of the first occurrence of `x`. */
  function FirstIndex<T(==)>(xs: seq<T>, x: T): (k: nat)
    requires x in xs
    ensures k < |xs| && xs[k] == x && x !in xs[..k]
  {
    if xs[0] == x then 0 else 1 + FirstIndex(xs[1..], x)
  }

  lemma {:induction false} FirstIndexPrefix<T>(xs: seq<T>, n: nat, x: T)
    requires n <= |xs| && x in xs[..n]
    ensures FirstIndex(xs[..n], x) == FirstIndex(xs, x)
  {
    var k := FirstIndex(xs[..n], x);
    var k' := FirstIndex(xs, x);
    assert xs[..n][..k] == xs[..k];
  }

  /** `unique()` lists values in the order of their first appearance. */
  lemma {:induction false} UniqueOrder<T>(xs: seq<T>)
    ensures forall i, j :: 0 <= i < j < |Unique(xs)| ==>
      FirstIndex(xs, Unique(xs)[i]) < FirstIndex(xs, Unique(xs)[j])
  {
    if |xs| > 0 {
      var prefix := xs[..|xs| - 1];
      UniqueOrder(prefix);
      var u := Unique(prefix);
      forall i | 0 <= i < |u| ensures FirstIndex(xs, u[i]) == FirstIndex(prefix, u[i]) {
        assert prefix == xs[..|xs| - 1];
        FirstIndexPrefix(xs, |xs| - 1, u[i]);
      }
      var last := xs[|xs| - 1];
      if last !in u {
        assert last !in prefix;
        assert FirstIndex(xs, last) == |xs| - 1;
      }
    }
  }
}
