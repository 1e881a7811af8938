/** Nearest-rank percentiles, in the two versions the gateway has. */
module Percentile {
  import opened Domain
  import opened Ordering

  function Ceil(x: real): (c: int)
    ensures (c - 1) as real < x <= c as real
  {
    -((-x).Floor)
  }

  function Rank(quantile: real, n: nat): int {
    Max(0, Ceil(quantile * n as real) - 1)
  }

  /** `count` is at least this fraction of n. */
  predicate Covers(count: int, quantile: real, n: nat) { count as real >= quantile * n as real }

  lemma RankInRange(quantile: real, n: nat)
    requires 0.0 < quantile <= 1.0 && n > 0
    ensures 0 <= Rank(quantile, n) < n
    ensures forall count: int :: Covers(count, quantile, n) <==> count > Rank(quantile, n)
  {
    ProductBounds(quantile, n as real);
  }

  lemma ProductBounds(q: real, n: real)
    requires 0.0 < q <= 1.0 && n > 0.0
    ensures 0.0 < q * n <= n
  {}

  /** The version of the evidence store, which is given sorted values. */
  function OfSorted(sorted: seq<real>, quantile: real): Option<real>
    requires 0.0 < quantile <= 1.0
  {
    if sorted == [] then None
    else
      RankInRange(quantile, |sorted|);
      Some(sorted[Rank(quantile, |sorted|)])
  }

  lemma SortSortsReals(values: seq<real>)
    ensures Sorted(RealLeq, Sort(RealLeq, values))
    ensures multiset(Sort(RealLeq, values)) == multiset(values)
    ensures |Sort(RealLeq, values)| == |values|
  {
    SortSorts(RealLeq, values);
  }

  /** The version of the evaluation runner, which sorts for itself. */
  function OfUnsorted(values: seq<real>, quantile: real): real
    requires 0.0 < quantile <= 1.0 && values != []
  {
    SortSortsReals(values);
    RankInRange(quantile, |values|);
    Sort(RealLeq, values)[Rank(quantile, |values|)]
  }

  function AtMost(v: real): real -> Option<real> {
    x => if x <= v then Some(x) else None
  }

  function CountAtMost(values: seq<real>, v: real): nat { |Collect(AtMost(v), values)| }

  lemma {:induction false} CountBounds(s: seq<real>, v: real, m: nat)
    requires m <= |s|
    ensures (forall i :: 0 <= i < m ==> s[i] <= v) ==> CountAtMost(s, v) >= m
    ensures (forall i :: m <= i < |s| ==> s[i] > v) ==> CountAtMost(s, v) <= m
    ensures CountAtMost(s, v) <= |s|
  {
    if s != [] {
      var before := s[..|s| - 1];
      if m < |s| {
        CountBounds(before, v, m);
      } else {
        CountBounds(before, v, m - 1);
      }
    }
  }

  lemma CountForgetsOrder(a: seq<real>, b: seq<real>, v: real)
    requires multiset(a) == multiset(b)
    ensures CountAtMost(a, v) == CountAtMost(b, v)
  {
    CollectForgetsOrder(AtMost(v), a, b);
    assert |multiset(Collect(AtMost(v), a))| == |multiset(Collect(AtMost(v), b))|;
  }

  lemma SortedCovers(s: seq<real>, k: nat, v: real)
    requires Sorted(RealLeq, s) && k < |s|
    ensures if s[k] <= v then CountAtMost(s, v) >= k + 1 else CountAtMost(s, v) <= k
  {
    assert forall i :: 0 <= i < k ==> RealLeq(s[i], s[k]);
    assert forall i :: k < i < |s| ==> RealLeq(s[k], s[i]);
    CountBounds(s, v, if s[k] <= v then k + 1 else k);
  }

  /**
    What the percentile means: it is at most v exactly when at least the given
    fraction of the values is. So it is the least value with that property.
   */
  lemma PercentileIsLeastCovering(values: seq<real>, quantile: real, v: real)
    requires 0.0 < quantile <= 1.0 && values != []
    ensures OfUnsorted(values, quantile) in values
    ensures OfUnsorted(values, quantile) <= v <==> Covers(CountAtMost(values, v), quantile, |values|)
  {
    hide Covers;
    hide Rank;
    var s, k := Sort(RealLeq, values), Rank(quantile, |values|);
    SortSortsReals(values);
    RankInRange(quantile, |values|);
    assert s[k] in multiset(values);
    CountForgetsOrder(s, values, v);
    SortedCovers(s, k, v);
    hide CountAtMost;
  }

  /** Both versions agree, and neither depends on the order of the values. */
  lemma PercentilesAgree(a: seq<real>, b: seq<real>, quantile: real)
    requires 0.0 < quantile <= 1.0 && a != [] && multiset(a) == multiset(b)
    ensures b != []
    ensures OfSorted(Sort(RealLeq, a), quantile) == Some(OfUnsorted(b, quantile))
  {
    assert |multiset(a)| == |multiset(b)|;
    SortSortsReals(a);
    SortForgetsOrder(RealLeq, a, b);
  }

  /** Below a hundred values the 99th percentile is the maximum. */
  lemma P99OfFewIsMaximum(values: seq<real>)
    requires 0 < |values| < 100
    ensures forall x :: x in values ==> x <= OfUnsorted(values, 0.99)
  {
    var s := Sort(RealLeq, values);
    SortSortsReals(values);
    assert Rank(0.99, |values|) == |values| - 1;
    forall x | x in values ensures x <= s[|s| - 1] {
      assert x in multiset(s);
      var i :| 0 <= i < |s| && s[i] == x;
      assert i == |s| - 1 || RealLeq(s[i], s[|s| - 1]);
    }
  }
}
