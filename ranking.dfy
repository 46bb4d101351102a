/**
 * `nlargest(n, column)` (app.py:74, 135, 210; visualiseringer.py:33, 226) with
 * pandas' default `keep="first"`: the rows with a key are ordered by key,
 * largest first, equal keys in their original order, and the first n are kept;
 * when fewer than n rows have a key, the rows with a null key follow in row
 * order until there are n rows. Rows are named by their positions.
 */
module Ranking {
  import opened Wrappers
  import opened Rows

  /** Position a comes before position b in the ranking: larger key, or same key and earlier. */
  predicate Before(keys: seq<Option<real>>, a: nat, b: nat)
    requires a < |keys| && b < |keys| && keys[a].Some? && keys[b].Some?
  {
    keys[a].value > keys[b].value || (keys[a].value == keys[b].value && a < b)
  }

  ghost predicate Present(keys: seq<Option<real>>, idx: seq<nat>)
  {
    forall i :: 0 <= i < |idx| ==> idx[i] < |keys| && keys[idx[i]].Some?
  }

  ghost predicate Ranked(keys: seq<Option<real>>, idx: seq<nat>)
  {
    Present(keys, idx) && forall i, j :: 0 <= i < j < |idx| ==> Before(keys, idx[i], idx[j])
  }

  /** Insert position j into a ranking. */
  function Insert(keys: seq<Option<real>>, r: seq<nat>, j: nat): (s: seq<nat>)
    requires Present(keys, r) && j < |keys| && keys[j].Some?
    ensures |s| == |r| + 1
    ensures forall x :: x in s <==> x in r || x == j
    ensures Present(keys, s)
  {
    if |r| == 0 then [j]
    else if Before(keys, r[0], j) then [r[0]] + Insert(keys, r[1..], j)
    else [j] + r
  }

  lemma {:induction false} InsertRanked(keys: seq<Option<real>>, r: seq<nat>, j: nat)
    requires Ranked(keys, r) && j < |keys| && keys[j].Some? && j !in r
    ensures Ranked(keys, Insert(keys, r, j))
  {
    if |r| > 0 && Before(keys, r[0], j) {
      InsertRanked(keys, r[1..], j);
      var s := Insert(keys, r, j);
      forall k | 1 <= k < |s| ensures Before(keys, r[0], s[k]) {
        assert s[k] in r[1..] || s[k] == j;
      }
    }
  }

  /** The positions below m with a non-null key, ranked. */
  function RankAll(keys: seq<Option<real>>, m: nat): (r: seq<nat>)
    requires m <= |keys|
    ensures Ranked(keys, r)
    ensures forall p: nat :: p in r <==> p < m && keys[p].Some?
  {
    if m == 0 then []
    else
      var r := RankAll(keys, m - 1);
      if keys[m - 1].Some? then
        InsertRanked(keys, r, m - 1);
        Insert(keys, r, m - 1)
      else r
  }

  /** Number of non-null keys. */
  function CountPresent(keys: seq<Option<real>>): nat
  {
    if |keys| == 0 then 0 else CountPresent(keys[..|keys| - 1]) + (if keys[|keys| - 1].Some? then 1 else 0)
  }

  lemma {:induction false} RankAllSize(keys: seq<Option<real>>, m: nat)
    requires m <= |keys|
    ensures |RankAll(keys, m)| == CountPresent(keys[..m])
  {
    if m > 0 {
      RankAllSize(keys, m - 1);
      assert keys[..m][..m - 1] == keys[..m - 1];
    }
  }

  function Min(a: nat, b: nat): nat
  {
    if a < b then a else b
  }

  /**
   * The positions of the `n` largest keys, the ranked part of `nlargest(n)`
   * with `keep="first"`; rows with a null key are not ranked.
   */
  function TopN(keys: seq<Option<real>>, n: nat): (t: seq<nat>)
    ensures |t| == Min(n, CountPresent(keys))
    // only rows with a key, each at most once
    ensures forall i :: 0 <= i < |t| ==> t[i] < |keys| && keys[t[i]].Some?
    ensures Distinct(t)
    // largest first; equal keys keep their original order
    ensures forall i, j :: 0 <= i < j < |t| ==> keys[t[i]].value >= keys[t[j]].value
    ensures forall i, j :: 0 <= i < j < |t| && keys[t[i]].value == keys[t[j]].value ==> t[i] < t[j]
    // nothing left out beats anything kept; among equal keys the earlier rows are kept
    ensures forall i, p :: 0 <= i < |t| && 0 <= p < |keys| && keys[p].Some? && p !in t ==>
      keys[p].value <= keys[t[i]].value && (keys[p].value == keys[t[i]].value ==> t[i] < p)
    // fewer than n rows come back only when every row with a key did
    ensures |t| < n ==> forall p :: 0 <= p < |keys| && keys[p].Some? ==> p in t
  {
    var r := RankAll(keys, |keys|);
    RankAllSize(keys, |keys|);
    assert keys[..|keys|] == keys;
    PrefixBeatsRest(keys, r, Min(n, |r|));
    r[..Min(n, |r|)]
  }

  /** A prefix of the full ranking: no keyed position outside it beats one inside it. */
  lemma PrefixBeatsRest(keys: seq<Option<real>>, r: seq<nat>, m: nat)
    requires Ranked(keys, r) && m <= |r|
    requires forall p: nat :: p in r <==> p < |keys| && keys[p].Some?
    ensures forall i, p :: 0 <= i < m && 0 <= p < |keys| && keys[p].Some? && p !in r[..m] ==>
      keys[p].value <= keys[r[i]].value && (keys[p].value == keys[r[i]].value ==> r[i] < p)
  {
    var t := r[..m];
    forall i, p | 0 <= i < m && 0 <= p < |keys| && keys[p].Some? && p !in t
      ensures keys[p].value <= keys[r[i]].value && (keys[p].value == keys[r[i]].value ==> r[i] < p)
    {
      assert p in r;
      var k :| 0 <= k < |r| && r[k] == p;
      assert k >= m;
      assert Before(keys, r[i], r[k]);
    }
  }

  /** The positions below m with a null key, in increasing order. */
  function NullsBelow(keys: seq<Option<real>>, m: nat): (z: seq<nat>)
    requires m <= |keys|
    ensures |z| == m - CountPresent(keys[..m])
    ensures Increasing(z)
    ensures forall i :: 0 <= i < |z| ==> z[i] < m && keys[z[i]].None?
    ensures forall p :: 0 <= p < m && keys[p].None? ==> p in z
  {
    if m == 0 then []
    else
      var z := NullsBelow(keys, m - 1);
      assert keys[..m][..m - 1] == keys[..m - 1];
      if keys[m - 1].None? then z + [m - 1] else z
  }

  /**
   * The positions `nlargest(n)` returns from a column that may hold nulls: the
   * ranked positions of `TopN`, then the first null positions in row order
   * until there are n.
   */
  function NLargestPositions(keys: seq<Option<real>>, n: nat): (t: seq<nat>)
    ensures |t| == Min(n, |keys|)
    ensures InRange(t, |keys|) && Distinct(t)
    // the rows with a key come first, ranked as TopN ranks them
    ensures var k := Min(n, CountPresent(keys));
      k <= |t| && t[..k] == TopN(keys, n)
    // then rows with a null key, the earliest ones, in row order
    ensures var k := Min(n, CountPresent(keys));
      && (forall i :: k <= i < |t| ==> keys[t[i]].None?)
      && (forall i, j :: k <= i < j < |t| ==> t[i] < t[j])
      && (forall i, p :: k <= i < |t| && 0 <= p < |keys| && keys[p].None? && p !in t ==> t[i] < p)
  {
    var top := TopN(keys, n);
    var z := NullsBelow(keys, |keys|);
    assert keys[..|keys|] == keys;
    var m := Min(n - |top|, |z|);
    KeyedThenNull(keys, top, z[..m]);
    EarliestNulls(keys, top, z, m);
    top + z[..m]
  }

  /** Keyed positions followed by null positions repeat none of them. */
  lemma KeyedThenNull(keys: seq<Option<real>>, top: seq<nat>, tail: seq<nat>)
    requires forall i :: 0 <= i < |top| ==> top[i] < |keys| && keys[top[i]].Some?
    requires forall i :: 0 <= i < |tail| ==> tail[i] < |keys| && keys[tail[i]].None?
    requires Distinct(top) && Increasing(tail)
    ensures InRange(top + tail, |keys|) && Distinct(top + tail)
  {
    var t := top + tail;
    forall i, j | 0 <= i < j < |t| ensures t[i] != t[j] {
      if i < |top| && j >= |top| {
        assert keys[t[i]].Some? && keys[t[j]].None?;
      }
    }
  }

  /** A prefix of the null positions, after the keyed ones: every null position left out comes later. */
  lemma EarliestNulls(keys: seq<Option<real>>, top: seq<nat>, z: seq<nat>, m: nat)
    requires m <= |z| && Increasing(z)
    requires forall p :: 0 <= p < |keys| && keys[p].None? ==> p in z
    ensures forall i, p :: |top| <= i < |top| + m && 0 <= p < |keys| && keys[p].None? && p !in top + z[..m] ==>
      (top + z[..m])[i] < p
  {
    var t := top + z[..m];
    forall i, p | |top| <= i < |t| && 0 <= p < |keys| && keys[p].None? && p !in t
      ensures t[i] < p
    {
      var q :| 0 <= q < |z| && z[q] == p;
      assert t[i] == z[i - |top|];
    }
  }

  /** In `nlargest`'s positions, the keys are present exactly in the first Min(n, CountPresent) and are non-increasing there. */
  lemma NLargestKeyed(keys: seq<Option<real>>, n: nat)
    ensures var t := NLargestPositions(keys, n);
      var k := Min(n, CountPresent(keys));
      && k <= |t| && InRange(t, |keys|)
      && (forall i :: 0 <= i < |t| ==> (keys[t[i]].Some? <==> i < k))
      && (forall i, j :: 0 <= i < j < k ==> keys[t[i]].value >= keys[t[j]].value)
  {
    var t := NLargestPositions(keys, n);
    var k := Min(n, CountPresent(keys));
    var top := TopN(keys, n);
    assert t[..k] == top;
    forall i | 0 <= i < k ensures t[i] == top[i] {
      assert t[i] == t[..k][i];
    }
  }

  /** With a key in every row, `nlargest` returns the ranked positions alone. */
  lemma NoNullsNoTail(keys: seq<Option<real>>, n: nat)
    requires forall p :: 0 <= p < |keys| ==> keys[p].Some?
    ensures CountPresent(keys) == |keys|
    ensures NLargestPositions(keys, n) == TopN(keys, n)
  {
    AllPresent(keys, |keys|);
    assert keys[..|keys|] == keys;
    var t := NLargestPositions(keys, n);
    assert t == t[..|t|];
  }

  lemma {:induction false} AllPresent(keys: seq<Option<real>>, m: nat)
    requires m <= |keys| && forall p :: 0 <= p < m ==> keys[p].Some?
    ensures CountPresent(keys[..m]) == m
  {
    if m > 0 {
      AllPresent(keys, m - 1);
      assert keys[..m][..m - 1] == keys[..m - 1];
    }
  }

  /** Sum of `vals` at the given positions. */
  function SumAt(vals: seq<real>, idx: seq<nat>): real
    requires InRange(idx, |vals|)
  {
    if |idx| == 0 then 0.0 else vals[idx[0]] + SumAt(vals, idx[1..])
  }

  function Sum(vals: seq<real>): real
  {
    if |vals| == 0 then 0.0 else Sum(vals[..|vals| - 1]) + vals[|vals| - 1]
  }

  lemma {:induction false} SumAtInsert(keys: seq<Option<real>>, vals: seq<real>, r: seq<nat>, j: nat)
    requires Present(keys, r) && j < |keys| && keys[j].Some? && |vals| == |keys|
    ensures SumAt(vals, Insert(keys, r, j)) == SumAt(vals, r) + vals[j]
  {
    if |r| > 0 && Before(keys, r[0], j) {
      SumAtInsert(keys, vals, r[1..], j);
    }
  }

  /**
   * When every key is present, ranking all rows only reorders them: the
   * ranked values sum to the same total.
   */
  lemma {:induction false} RankAllSum(keys: seq<Option<real>>, vals: seq<real>, m: nat)
    requires m <= |keys| == |vals|
    requires forall p :: 0 <= p < |keys| ==> keys[p].Some?
    ensures SumAt(vals, RankAll(keys, m)) == Sum(vals[..m])
  {
    if m > 0 {
      var r := RankAll(keys, m - 1);
      RankAllSum(keys, vals, m - 1);
      SumAtInsert(keys, vals, r, m - 1);
      RankAllStep(keys, m);
      SumStep(vals, m);
    }
  }

  lemma RankAllStep(keys: seq<Option<real>>, m: nat)
    requires 0 < m <= |keys| && keys[m - 1].Some?
    ensures RankAll(keys, m) == Insert(keys, RankAll(keys, m - 1), m - 1)
  {
  }

  lemma SumStep(vals: seq<real>, m: nat)
    requires 0 < m <= |vals|
    ensures Sum(vals[..m]) == Sum(vals[..m - 1]) + vals[m - 1]
  {
    assert vals[..m][..m - 1] == vals[..m - 1];
  }

  lemma {:induction false} SumCons(a: real, s: seq<real>)
    ensures Sum([a] + s) == a + Sum(s)
  {
    if |s| > 0 {
      SumCons(a, s[..|s| - 1]);
      assert ([a] + s)[..|s|] == [a] + s[..|s| - 1];
    }
  }
}
