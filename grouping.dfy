/**
 * group sums and value counts (app.py:74, 143-151, 172,
 * 181-189, 231, 244; gebyr-visualisering.py:25-26, 94, 116-118;
 * visualiseringer.py:61-62, 129, 154-156). Rows whose key is null are left out by
 * the caller, as `groupby` drops them; the groups come out sorted by key, one per
 * distinct key, each holding the sum of its rows' values.
 */
module Grouping {
  import opened Wrappers
  import opened Rows
  import Ranking
  import Text

  datatype Group<K> = Group(key: K, total: real)

  /** `lt` orders keys strictly and totally, as Python's `<` does on years and names. */
  ghost predicate StrictTotalOrder<K(!new)>(lt: (K, K) -> bool)
  {
    && (forall a :: !lt(a, a))
    && (forall a, b, c :: lt(a, b) && lt(b, c) ==> lt(a, c))
    && (forall a, b :: a != b ==> lt(a, b) || lt(b, a))
  }

  function IntLess(a: int, b: int): bool
  {
    a < b
  }

  /** (year, organizer) pairs in the order grouping by both sorts them. */
  function PairLess(a: (int, string), b: (int, string)): bool
  {
    a.0 < b.0 || (a.0 == b.0 && Text.StrLess(a.1, b.1))
  }

  lemma IntLessIsOrder()
    ensures StrictTotalOrder(IntLess)
  {
  }

  lemma StrLessIsOrder()
    ensures StrictTotalOrder(Text.StrLess)
  {
    forall a ensures !Text.StrLess(a, a) {
      Text.StrLessIrreflexive(a);
    }
    forall a, b, c | Text.StrLess(a, b) && Text.StrLess(b, c) ensures Text.StrLess(a, c) {
      Text.StrLessTransitive(a, b, c);
    }
    forall a, b | a != b ensures Text.StrLess(a, b) || Text.StrLess(b, a) {
      Text.StrLessTotal(a, b);
    }
  }

  lemma PairLessIsOrder()
    ensures StrictTotalOrder(PairLess)
  {
    StrLessIsOrder();
  }

  ghost predicate Ascending<K>(g: seq<Group<K>>, lt: (K, K) -> bool)
  {
    forall i, j :: 0 <= i < j < |g| ==> lt(g[i].key, g[j].key)
  }

  function Keys<K>(g: seq<Group<K>>): (ks: seq<K>)
    ensures |ks| == |g| && forall i :: 0 <= i < |g| ==> ks[i] == g[i].key
  {
    seq(|g|, i requires 0 <= i < |g| => g[i].key)
  }

  function Firsts<K, V>(pairs: seq<(K, V)>): (ks: seq<K>)
    ensures |ks| == |pairs| && forall i :: 0 <= i < |pairs| ==> ks[i] == pairs[i].0
  {
    seq(|pairs|, i requires 0 <= i < |pairs| => pairs[i].0)
  }

  /** The total recorded for key x (the first group with that key), 0 when there is none. */
  function TotalFor<K(==)>(g: seq<Group<K>>, x: K): real
  {
    if |g| == 0 then 0.0 else if g[0].key == x then g[0].total else TotalFor(g[1..], x)
  }

  /** Sum of the values paired with key x. */
  function SumFor<K(==)>(pairs: seq<(K, real)>, x: K): real
  {
    if |pairs| == 0 then 0.0
    else SumFor(pairs[..|pairs| - 1], x) + (if pairs[|pairs| - 1].0 == x then pairs[|pairs| - 1].1 else 0.0)
  }

  function GrandTotal<K>(g: seq<Group<K>>): real
  {
    if |g| == 0 then 0.0 else g[0].total + GrandTotal(g[1..])
  }

  function Seconds<K>(pairs: seq<(K, real)>): (vs: seq<real>)
    ensures |vs| == |pairs| && forall i :: 0 <= i < |pairs| ==> vs[i] == pairs[i].1
  {
    seq(|pairs|, i requires 0 <= i < |pairs| => pairs[i].1)
  }

  /** Add value v to the group of key k, creating the group in key order when absent. */
  function AddTo<K(==)>(g: seq<Group<K>>, k: K, v: real, lt: (K, K) -> bool): seq<Group<K>>
  {
    if |g| == 0 then [Group(k, v)]
    else if g[0].key == k then [Group(k, g[0].total + v)] + g[1..]
    else if lt(g[0].key, k) then [g[0]] + AddTo(g[1..], k, v, lt)
    else [Group(k, v)] + g
  }

  lemma {:induction false} TotalForAbsent<K>(g: seq<Group<K>>, x: K)
    requires x !in Keys(g)
    ensures TotalFor(g, x) == 0.0
  {
    if |g| > 0 {
      assert Keys(g[1..]) == Keys(g)[1..];
      TotalForAbsent(g[1..], x);
    }
  }

  lemma {:induction false} AddToKeys<K>(g: seq<Group<K>>, k: K, v: real, lt: (K, K) -> bool)
    ensures var r := AddTo(g, k, v, lt);
      forall x :: x in Keys(r) <==> x == k || x in Keys(g)
  {
    var r := AddTo(g, k, v, lt);
    if |g| == 0 {
      assert Keys(r) == [k];
    } else if g[0].key == k {
      assert Keys(r) == Keys(g);
    } else if lt(g[0].key, k) {
      var rest := AddTo(g[1..], k, v, lt);
      assert r == [g[0]] + rest;
      AddToKeys(g[1..], k, v, lt);
      assert forall x :: x in Keys(AddTo(g[1..], k, v, lt)) <==> x == k || x in Keys(g[1..]);
      KeysCons(g[0], g[1..]);
      KeysCons(g[0], rest);
      assert g == [g[0]] + g[1..];
      assert Keys(g) == [g[0].key] + Keys(g[1..]);
      assert Keys(r) == [g[0].key] + Keys(rest);
      forall x ensures x in Keys(r) <==> x == k || x in Keys(g) {
        assert x in Keys(rest) <==> x == k || x in Keys(g[1..]);
      }
    } else {
      assert r == [Group(k, v)] + g;
      KeysCons(Group(k, v), g);
    }
  }

  lemma KeysCons<K>(x: Group<K>, g: seq<Group<K>>)
    ensures Keys([x] + g) == [x.key] + Keys(g)
  {
  }

  lemma {:induction false} AddToAscending<K(!new)>(g: seq<Group<K>>, k: K, v: real, lt: (K, K) -> bool)
    requires StrictTotalOrder(lt) && Ascending(g, lt)
    ensures Ascending(AddTo(g, k, v, lt), lt)
  {
    var r := AddTo(g, k, v, lt);
    if |g| == 0 {
    } else if g[0].key == k {
      assert r[1..] == g[1..];
    } else if lt(g[0].key, k) {
      var rest := AddTo(g[1..], k, v, lt);
      AddToAscending(g[1..], k, v, lt);
      AddToKeys(g[1..], k, v, lt);
      assert r[1..] == rest;
      forall j | 0 < j < |r| ensures lt(r[0].key, r[j].key) {
        assert r[j].key in Keys(rest);
        if r[j].key != k {
          assert r[j].key in Keys(g[1..]);
          var i :| 0 <= i < |g[1..]| && Keys(g[1..])[i] == r[j].key;
          assert lt(g[0].key, g[i + 1].key);
        }
      }
    } else {
      assert lt(k, g[0].key);
      forall j | 0 < j < |r| ensures lt(r[0].key, r[j].key) {
        assert r[j] == g[j - 1];
        if j > 1 {
          assert lt(g[0].key, g[j - 1].key);
        }
      }
    }
  }

  lemma {:induction false} AddToTotals<K(!new)>(g: seq<Group<K>>, k: K, v: real, lt: (K, K) -> bool)
    requires StrictTotalOrder(lt) && Ascending(g, lt)
    ensures var r := AddTo(g, k, v, lt);
      && (forall x :: TotalFor(r, x) == TotalFor(g, x) + (if x == k then v else 0.0))
      && GrandTotal(r) == GrandTotal(g) + v
  {
    var r := AddTo(g, k, v, lt);
    if |g| == 0 {
    } else if g[0].key == k {
      assert r[1..] == g[1..];
    } else if lt(g[0].key, k) {
      AddToTotals(g[1..], k, v, lt);
      assert r[1..] == AddTo(g[1..], k, v, lt);
    } else {
      forall j | 0 <= j < |g| ensures lt(k, g[j].key) {
        if j > 0 {
          assert lt(g[0].key, g[j].key);
        }
      }
      assert k !in Keys(g);
      TotalForAbsent(g, k);
      assert r[1..] == g;
    }
  }

  /**
   * Group sums over (key, value) pairs: one group per distinct
   * key, in ascending key order, each holding the sum of its values, and the
   * group totals add up to the sum of all values.
   */
  function GroupSum<K(==, !new)>(pairs: seq<(K, real)>, lt: (K, K) -> bool): (r: seq<Group<K>>)
    requires StrictTotalOrder(lt)
    ensures Ascending(r, lt)
    ensures forall x :: x in Keys(r) <==> x in Firsts(pairs)
    ensures forall x :: TotalFor(r, x) == SumFor(pairs, x)
    ensures GrandTotal(r) == Ranking.Sum(Seconds(pairs))
  {
    if |pairs| == 0 then []
    else
      var prefix := pairs[..|pairs| - 1];
      var last := pairs[|pairs| - 1];
      var g := GroupSum(prefix, lt);
      AddToKeys(g, last.0, last.1, lt);
      AddToAscending(g, last.0, last.1, lt);
      AddToTotals(g, last.0, last.1, lt);
      assert Firsts(pairs) == Firsts(prefix) + [last.0];
      assert Seconds(pairs)[..|pairs| - 1] == Seconds(prefix);
      AddTo(g, last.0, last.1, lt)
  }

  /** In key-ascending groups each key appears once, so a group's total is the total for its key. */
  lemma {:induction false} AscendingTotals<K(!new)>(g: seq<Group<K>>, lt: (K, K) -> bool)
    requires StrictTotalOrder(lt) && Ascending(g, lt)
    ensures forall i :: 0 <= i < |g| ==> g[i].total == TotalFor(g, g[i].key)
    ensures Distinct(Keys(g))
  {
    if |g| > 0 {
      AscendingTotals(g[1..], lt);
      forall i | 0 < i < |g| ensures g[i].total == TotalFor(g, g[i].key) {
        assert lt(g[0].key, g[i].key);
        assert g[i] == g[1..][i - 1];
      }
    }
  }

  /** Every group sum holds exactly the sum of its key's values. */
  lemma GroupTotals<K(!new)>(pairs: seq<(K, real)>, lt: (K, K) -> bool)
    requires StrictTotalOrder(lt)
    ensures var r := GroupSum(pairs, lt);
      forall i :: 0 <= i < |r| ==> r[i].total == SumFor(pairs, r[i].key)
  {
    AscendingTotals(GroupSum(pairs, lt), lt);
  }

  /** Number of times x occurs in xs. */
  function Occurrences<K(==)>(xs: seq<K>, x: K): nat
  {
    if |xs| == 0 then 0 else Occurrences(xs[..|xs| - 1], x) + (if xs[|xs| - 1] == x then 1 else 0)
  }

  lemma {:induction false} OccurrencesPositive<K>(xs: seq<K>, x: K)
    ensures Occurrences(xs, x) > 0 <==> x in xs
  {
    if |xs| > 0 {
      OccurrencesPositive(xs[..|xs| - 1], x);
      assert xs == xs[..|xs| - 1] + [xs[|xs| - 1]];
    }
  }

  /** Each value paired with 1, so that summing counts. */
  function Ones<K>(xs: seq<K>): (pairs: seq<(K, real)>)
    ensures |pairs| == |xs|
    ensures forall i :: 0 <= i < |xs| ==> pairs[i] == (xs[i], 1.0)
  {
    seq(|xs|, i requires 0 <= i < |xs| => (xs[i], 1.0))
  }

  lemma {:induction false} SumForOnes<K>(xs: seq<K>, x: K)
    ensures SumFor(Ones(xs), x) == Occurrences(xs, x) as real
  {
    if |xs| > 0 {
      SumForOnes(xs[..|xs| - 1], x);
      assert Ones(xs)[..|xs| - 1] == Ones(xs[..|xs| - 1]);
    }
  }

  lemma {:induction false} SumOnes<K>(xs: seq<K>)
    ensures Ranking.Sum(Seconds(Ones(xs))) == |xs| as real
  {
    if |xs| > 0 {
      SumOnes(xs[..|xs| - 1]);
      assert Seconds(Ones(xs))[..|xs| - 1] == Seconds(Ones(xs[..|xs| - 1]));
    }
  }

  function Totals<K>(g: seq<Group<K>>): (vs: seq<real>)
    ensures |vs| == |g| && forall i :: 0 <= i < |g| ==> vs[i] == g[i].total
  {
    seq(|g|, i requires 0 <= i < |g| => g[i].total)
  }

  lemma {:induction false} GrandTotalIsSum<K>(g: seq<Group<K>>)
    ensures GrandTotal(g) == Ranking.Sum(Totals(g))
  {
    if |g| > 0 {
      GrandTotalIsSum(g[1..]);
      assert Totals(g) == [g[0].total] + Totals(g[1..]);
      Ranking.SumCons(g[0].total, Totals(g[1..]));
    }
  }

  datatype Count<K> = Count(key: K, n: nat)

  /** The keys of a `value_counts` result, in its order (`Keys` is the same projection for group sums). */
  function CountKeys<K>(r: seq<Count<K>>): (ks: seq<K>)
    ensures |ks| == |r| && forall i :: 0 <= i < |r| ==> ks[i] == r[i].key
  {
    seq(|r|, i requires 0 <= i < |r| => r[i].key)
  }

  function CountTotal<K>(r: seq<Count<K>>): nat
  {
    if |r| == 0 then 0 else r[0].n + CountTotal(r[1..])
  }

  /** The counts of the keys at positions `t` of `ks`, in that order. */
  function CountsAt<K(==)>(xs: seq<K>, ks: seq<K>, t: seq<nat>): (r: seq<Count<K>>)
    requires InRange(t, |ks|)
    ensures |r| == |t|
    ensures forall i :: 0 <= i < |t| ==> r[i] == Count(ks[t[i]], Occurrences(xs, ks[t[i]]))
  {
    if |t| == 0 then [] else [Count(ks[t[0]], Occurrences(xs, ks[t[0]]))] + CountsAt(xs, ks, t[1..])
  }

  lemma {:induction false} CountsAtTotal<K>(xs: seq<K>, ks: seq<K>, t: seq<nat>, vals: seq<real>)
    requires InRange(t, |ks|) && |vals| == |ks|
    requires forall i :: 0 <= i < |ks| ==> vals[i] == Occurrences(xs, ks[i]) as real
    ensures CountTotal(CountsAt(xs, ks, t)) as real == Ranking.SumAt(vals, t)
  {
    if |t| > 0 {
      CountsAtTotal(xs, ks, t[1..], vals);
      assert CountsAt(xs, ks, t)[1..] == CountsAt(xs, ks, t[1..]);
    }
  }

  /** The distinct values, in key order, as `groupby` finds them. */
  function DistinctKeys<K(==, !new)>(xs: seq<K>, lt: (K, K) -> bool): (ks: seq<K>)
    requires StrictTotalOrder(lt)
    ensures Distinct(ks)
    ensures forall x :: x in xs <==> x in ks
    ensures Ranking.Sum(Occurrence(xs, ks)) == |xs| as real
  {
    var g := GroupSum(Ones(xs), lt);
    AscendingTotals(g, lt);
    assert Firsts(Ones(xs)) == xs;
    forall i | 0 <= i < |g| ensures Occurrence(xs, Keys(g))[i] == g[i].total {
      SumForOnes(xs, g[i].key);
    }
    assert Occurrence(xs, Keys(g)) == Totals(g);
    GrandTotalIsSum(g);
    SumOnes(xs);
    Keys(g)
  }

  /** The distinct values come out in ascending order. */
  lemma DistinctKeysSorted<K(!new)>(xs: seq<K>, lt: (K, K) -> bool)
    requires StrictTotalOrder(lt)
    ensures var ks := DistinctKeys(xs, lt);
      forall i, j :: 0 <= i < j < |ks| ==> lt(ks[i], ks[j])
  {
    assert Ascending(GroupSum(Ones(xs), lt), lt);
  }

  /** How often each of `ks` occurs in xs. */
  function Occurrence<K(==)>(xs: seq<K>, ks: seq<K>): (vals: seq<real>)
    ensures |vals| == |ks| && forall i :: 0 <= i < |ks| ==> vals[i] == Occurrences(xs, ks[i]) as real
  {
    seq(|ks|, i requires 0 <= i < |ks| => Occurrences(xs, ks[i]) as real)
  }

  function Present(vals: seq<real>): (keys: seq<Option<real>>)
    ensures |keys| == |vals| && forall i :: 0 <= i < |vals| ==> keys[i] == Some(vals[i])
  {
    seq(|vals|, i requires 0 <= i < |vals| => Some(vals[i]))
  }

  lemma CountsAtKeys<K>(xs: seq<K>, ks: seq<K>, t: seq<nat>)
    requires Distinct(ks) && Distinct(t) && InRange(t, |ks|)
    requires forall k: nat :: k in t <==> k < |ks|
    ensures forall x :: x in ks <==> x in CountKeys(CountsAt(xs, ks, t))
    ensures Distinct(CountKeys(CountsAt(xs, ks, t)))
  {
    var r := CountsAt(xs, ks, t);
    forall x | x in ks ensures x in CountKeys(r) {
      var k :| 0 <= k < |ks| && ks[k] == x;
      assert k in t;
      var i :| 0 <= i < |t| && t[i] == k;
      assert CountKeys(r)[i] == x;
    }
  }

  lemma RankedDistinct(keys: seq<Option<real>>, t: seq<nat>)
    requires Ranking.Ranked(keys, t)
    ensures Distinct(t)
  {
    forall i, j | 0 <= i < j < |t| ensures t[i] != t[j] {
      assert Ranking.Before(keys, t[i], t[j]);
    }
  }

  /**
   * Value counts: one entry per distinct value, with the number of times it
   * occurs, largest count first; the counts add up to the number of values.
   * The order among equal counts is not fixed here (pandas does not document it).
   */
  function ValueCounts<K(==, !new)>(xs: seq<K>, lt: (K, K) -> bool): (r: seq<Count<K>>)
    requires StrictTotalOrder(lt)
    ensures forall i :: 0 <= i < |r| ==> r[i].n == Occurrences(xs, r[i].key) && r[i].n > 0
    ensures forall x :: x in xs <==> x in CountKeys(r)
    ensures Distinct(CountKeys(r))
    ensures forall i, j :: 0 <= i < j < |r| ==> r[i].n >= r[j].n
    ensures CountTotal(r) == |xs|
  {
    var ks := DistinctKeys(xs, lt);
    var t := Ranking.RankAll(Present(Occurrence(xs, ks)), |ks|);
    RankedCounts(xs, ks, t);
    CountsAt(xs, ks, t)
  }

  /** Counting the distinct values in ranked order gives the value counts. */
  lemma RankedCounts<K>(xs: seq<K>, ks: seq<K>, t: seq<nat>)
    requires Distinct(ks) && (forall x :: x in xs <==> x in ks)
    requires Ranking.Sum(Occurrence(xs, ks)) == |xs| as real
    requires t == Ranking.RankAll(Present(Occurrence(xs, ks)), |ks|)
    ensures InRange(t, |ks|)
    ensures var r := CountsAt(xs, ks, t);
      && (forall i :: 0 <= i < |r| ==> r[i].n > 0)
      && (forall x :: x in xs <==> x in CountKeys(r))
      && Distinct(CountKeys(r))
      && (forall i, j :: 0 <= i < j < |r| ==> r[i].n >= r[j].n)
      && CountTotal(r) == |xs|
  {
    var keys := Present(Occurrence(xs, ks));
    assert Ranking.Ranked(keys, t);
    RankedDistinct(keys, t);
    CountsAtKeys(xs, ks, t);
    RankedCountsPositive(xs, ks, t);
    RankedCountsOrder(xs, ks, t);
    RankedCountsTotal(xs, ks, t);
  }

  lemma RankedCountsPositive<K>(xs: seq<K>, ks: seq<K>, t: seq<nat>)
    requires (forall x :: x in xs <==> x in ks) && InRange(t, |ks|)
    ensures forall i :: 0 <= i < |t| ==> CountsAt(xs, ks, t)[i].n > 0
  {
    forall i | 0 <= i < |t| ensures Occurrences(xs, ks[t[i]]) > 0 {
      OccurrencesPositive(xs, ks[t[i]]);
    }
  }

  lemma RankedCountsOrder<K>(xs: seq<K>, ks: seq<K>, t: seq<nat>)
    requires Ranking.Ranked(Present(Occurrence(xs, ks)), t) && InRange(t, |ks|)
    ensures var r := CountsAt(xs, ks, t);
      forall i, j :: 0 <= i < j < |r| ==> r[i].n >= r[j].n
  {
    var keys := Present(Occurrence(xs, ks));
    var r := CountsAt(xs, ks, t);
    forall i, j | 0 <= i < j < |r| ensures r[i].n >= r[j].n {
      assert Ranking.Before(keys, t[i], t[j]);
    }
  }

  lemma RankedCountsTotal<K>(xs: seq<K>, ks: seq<K>, t: seq<nat>)
    requires Ranking.Sum(Occurrence(xs, ks)) == |xs| as real
    requires t == Ranking.RankAll(Present(Occurrence(xs, ks)), |ks|)
    requires InRange(t, |ks|)
    ensures CountTotal(CountsAt(xs, ks, t)) == |xs|
  {
    var vals := Occurrence(xs, ks);
    Ranking.RankAllSum(Present(vals), vals, |ks|);
    assert vals[..|ks|] == vals;
    CountsAtTotal(xs, ks, t, vals);
  }

  /** The names of the rows whose key is k, in row order. */
  function NamesFor<K(==)>(keys: seq<K>, names: seq<string>, k: K): (r: seq<string>)
    requires |keys| == |names|
    ensures |r| == Occurrences(keys, k)
  {
    if |keys| == 0 then []
    else
      var rest := NamesFor(keys[..|keys| - 1], names[..|names| - 1], k);
      if keys[|keys| - 1] == k then rest + [names[|names| - 1]] else rest
  }

  lemma {:induction false} NamesForAre<K>(keys: seq<K>, names: seq<string>, k: K)
    requires |keys| == |names|
    ensures forall n :: n in NamesFor(keys, names, k) ==> exists p :: 0 <= p < |keys| && keys[p] == k && names[p] == n
  {
    if |keys| > 0 {
      NamesForAre(keys[..|keys| - 1], names[..|names| - 1], k);
    }
  }

  /**
   * The keys of the n groups with the largest totals (`nlargest(n)` on a
   * grouped sum): largest first, none left out with a larger total, and among
   * equal totals the smaller key, which comes first in the groups.
   */
  function TopKeys<K(!new)>(g: seq<Group<K>>, n: nat, lt: (K, K) -> bool): (top: seq<K>)
    requires StrictTotalOrder(lt) && Ascending(g, lt)
    ensures |top| <= n && Distinct(top)
    ensures forall k :: k in top ==> k in Keys(g)
    ensures |top| < n ==> forall k :: k in Keys(g) ==> k in top
    ensures forall i, j :: 0 <= i < j < |top| ==> TotalFor(g, top[i]) >= TotalFor(g, top[j])
    ensures forall i, k :: 0 <= i < |top| && k in Keys(g) && k !in top ==>
      && TotalFor(g, k) <= TotalFor(g, top[i])
      && (TotalFor(g, k) == TotalFor(g, top[i]) ==> lt(top[i], k))
  {
    var keys := Present(Totals(g));
    var t := Ranking.TopN(keys, n);
    var top := seq(|t|, i requires 0 <= i < |t| => g[t[i]].key);
    TopKeysFacts(g, n, lt, t, top);
    top
  }

  lemma TopKeysFacts<K(!new)>(g: seq<Group<K>>, n: nat, lt: (K, K) -> bool, t: seq<nat>, top: seq<K>)
    requires StrictTotalOrder(lt) && Ascending(g, lt)
    requires t == Ranking.TopN(Present(Totals(g)), n)
    requires |top| == |t| && forall i :: 0 <= i < |t| ==> top[i] == g[t[i]].key
    ensures |top| <= n && Distinct(top)
    ensures forall k :: k in top ==> k in Keys(g)
    ensures |top| < n ==> forall k :: k in Keys(g) ==> k in top
    ensures forall i, j :: 0 <= i < j < |top| ==> TotalFor(g, top[i]) >= TotalFor(g, top[j])
    ensures forall i, k :: 0 <= i < |top| && k in Keys(g) && k !in top ==>
      && TotalFor(g, k) <= TotalFor(g, top[i])
      && (TotalFor(g, k) == TotalFor(g, top[i]) ==> lt(top[i], k))
  {
    TopKeysMembers(g, n, lt, t, top);
    TopKeysOrder(g, n, lt, t, top);
  }

  lemma TopKeysMembers<K(!new)>(g: seq<Group<K>>, n: nat, lt: (K, K) -> bool, t: seq<nat>, top: seq<K>)
    requires StrictTotalOrder(lt) && Ascending(g, lt)
    requires t == Ranking.TopN(Present(Totals(g)), n)
    requires |top| == |t| && forall i :: 0 <= i < |t| ==> top[i] == g[t[i]].key
    ensures |top| <= n && Distinct(top)
    ensures forall k :: k in top ==> k in Keys(g)
    ensures |top| < n ==> forall k :: k in Keys(g) ==> k in top
  {
    AscendingTotals(g, lt);
    forall i, j | 0 <= i < j < |top| ensures top[i] != top[j] {
      assert t[i] != t[j];
      assert Keys(g)[t[i]] == top[i] && Keys(g)[t[j]] == top[j];
    }
    forall k | k in top ensures k in Keys(g) {
      var i :| 0 <= i < |top| && top[i] == k;
      assert Keys(g)[t[i]] == k;
    }
    if |top| < n {
      forall k | k in Keys(g) ensures k in top {
        var p :| 0 <= p < |g| && Keys(g)[p] == k;
        assert Present(Totals(g))[p].Some?;
        assert p in t;
        var i :| 0 <= i < |t| && t[i] == p;
        assert top[i] == k;
      }
    }
  }

  lemma TopKeysOrder<K(!new)>(g: seq<Group<K>>, n: nat, lt: (K, K) -> bool, t: seq<nat>, top: seq<K>)
    requires StrictTotalOrder(lt) && Ascending(g, lt)
    requires t == Ranking.TopN(Present(Totals(g)), n)
    requires |top| == |t| && forall i :: 0 <= i < |t| ==> top[i] == g[t[i]].key
    ensures forall i, j :: 0 <= i < j < |top| ==> TotalFor(g, top[i]) >= TotalFor(g, top[j])
    ensures forall i, k :: 0 <= i < |top| && k in Keys(g) && k !in top ==>
      && TotalFor(g, k) <= TotalFor(g, top[i])
      && (TotalFor(g, k) == TotalFor(g, top[i]) ==> lt(top[i], k))
  {
    var keys := Present(Totals(g));
    AscendingTotals(g, lt);
    forall i | 0 <= i < |top| ensures TotalFor(g, top[i]) == keys[t[i]].value {
    }
    TopKeysLeftOut(g, lt, t, top);
    forall i, k | 0 <= i < |top| && k in Keys(g) && k !in top
      ensures TotalFor(g, k) <= TotalFor(g, top[i])
      ensures TotalFor(g, k) == TotalFor(g, top[i]) ==> lt(top[i], k)
    {
      var p :| 0 <= p < |g| && g[p].key == k && p !in t;
      assert TotalFor(g, k) == keys[p].value;
      if TotalFor(g, k) == TotalFor(g, top[i]) {
        assert t[i] < p;
      }
    }
  }

  lemma TopKeysLeftOut<K(!new)>(g: seq<Group<K>>, lt: (K, K) -> bool, t: seq<nat>, top: seq<K>)
    requires StrictTotalOrder(lt) && Ascending(g, lt)
    requires InRange(t, |g|) && |top| == |t| && forall i :: 0 <= i < |t| ==> top[i] == g[t[i]].key
    ensures forall k :: k in Keys(g) && k !in top ==> exists p :: 0 <= p < |g| && g[p].key == k && p !in t
  {
    forall k | k in Keys(g) && k !in top
      ensures exists p :: 0 <= p < |g| && g[p].key == k && p !in t
    {
      var p :| 0 <= p < |g| && Keys(g)[p] == k;
    }
  }
}
