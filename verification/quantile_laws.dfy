/** The weighted quantile, characterised without its algorithm. */
module QuantileLaws {
  import opened Ordering
  import opened OffPolicy

  predicate Observed(pairs: seq<Weighted>, v: real) {
    exists i :: 0 <= i < |pairs| && pairs[i].0 > 0.0 && pairs[i].1 == v
  }

  function Mass(pairs: seq<Weighted>): real {
    Sum(pairs, PositiveTerm())
  }

  function MassAtMost(pairs: seq<Weighted>, v: real): real {
    Sum(pairs, AtMostTerm(v))
  }

  function MassBelow(pairs: seq<Weighted>, v: real): real {
    Sum(pairs, BelowTerm(v))
  }

  /** An observed value: at it the mass first reaches the share `p` of the total. */
  predicate IsQuantile(pairs: seq<Weighted>, p: real, v: real) {
    Observed(pairs, v) && MassBelow(pairs, v) < Times(p, Mass(pairs)) <= MassAtMost(pairs, v)
  }

  // ----- the positive pairs, sorted -----

  predicate AscendingPairs(s: seq<Weighted>) {
    forall i, j :: 0 <= i < j < |s| ==> PairAtMost(s[i], s[j])
  }

  predicate AllPositive(s: seq<Weighted>) {
    forall i :: 0 <= i < |s| ==> s[i].0 > 0.0
  }

  lemma {:induction false} InsertPairKeepsOrder(x: Weighted, s: seq<Weighted>)
    requires AscendingPairs(s)
    ensures AscendingPairs(InsertPair(x, s))
  {
    if s == [] || PairAtMost(x, s[0]) {
    } else {
      InsertPairKeepsOrder(x, s[1..]);
      var r := InsertPair(x, s[1..]);
      forall i | 0 <= i < |r| ensures PairAtMost(s[0], r[i]) {
        assert r[i] in multiset(r);
        assert r[i] in multiset(s[1..]) + multiset{x};
        if r[i] != x {
          assert r[i] in s[1..];
        }
      }
    }
  }

  lemma {:induction false} PositiveIsSorted(pairs: seq<Weighted>)
    ensures AscendingPairs(Positive(pairs)) && AllPositive(Positive(pairs))
    ensures forall x: Weighted :: x in Positive(pairs) <==> x in pairs && x.0 > 0.0
  {
    if pairs == [] {
    } else {
      var rest := Positive(pairs[1..]);
      PositiveIsSorted(pairs[1..]);
      InsertPairKeepsOrder(pairs[0], rest);
      assert pairs == [pairs[0]] + pairs[1..];
      if pairs[0].0 > 0.0 {
        var r := InsertPair(pairs[0], rest);
        forall x: Weighted ensures x in r <==> x in rest || x == pairs[0] {
          assert x in r <==> x in multiset(r);
        }
      }
    }
  }

  lemma {:induction false} InsertPairSum(x: Weighted, s: seq<Weighted>, f: Weighted -> real)
    ensures Sum(InsertPair(x, s), f) == f(x) + Sum(s, f)
  {
    if s == [] {
      assert Sum([x], f) == f(x) + Sum([], f);
    } else if PairAtMost(x, s[0]) {
      assert ([x] + s)[1..] == s;
    } else {
      InsertPairSum(x, s[1..], f);
      var r := InsertPair(x, s[1..]);
      assert ([s[0]] + r)[1..] == r;
    }
  }

  /** Summing over the positive pairs is summing, over all of them, what the positive ones give. */
  lemma {:induction false} PositiveSum(pairs: seq<Weighted>, f: Weighted -> real, g: Weighted -> real)
    requires forall x: Weighted :: g(x) == if x.0 > 0.0 then f(x) else 0.0
    ensures Sum(Positive(pairs), f) == Sum(pairs, g)
  {
    if pairs == [] {
    } else {
      PositiveSum(pairs[1..], f, g);
      if pairs[0].0 > 0.0 {
        InsertPairSum(pairs[0], Positive(pairs[1..]), f);
      }
    }
  }

  // ----- the walk -----

  lemma {:induction false} NothingBelow(s: seq<Weighted>, v: real)
    requires AllPositive(s) && forall i :: 0 <= i < |s| ==> v <= s[i].1
    ensures MassBelow(s, v) == 0.0
  {
    if s == [] {
    } else {
      NothingBelow(s[1..], v);
    }
  }

  lemma {:induction false} MassesNonNegative(s: seq<Weighted>, v: real)
    ensures 0.0 <= MassBelow(s, v) <= MassAtMost(s, v) <= Mass(s)
  {
    if s == [] {
    } else {
      MassesNonNegative(s[1..], v);
    }
  }

  lemma {:induction false} WalkStopsAtThreshold(s: seq<Weighted>, c: real, threshold: real)
    requires s != [] && AscendingPairs(s) && AllPositive(s)
    requires c < threshold <= c + Sum(s, WeightTerm())
    ensures
      var v := Walk(s, c, threshold);
      Observed(s, v) && c + MassBelow(s, v) < threshold <= c + MassAtMost(s, v)
    decreases |s|
  {
    var v := Walk(s, c, threshold);
    if c + s[0].0 >= threshold {
      assert s[0].0 > 0.0 && s[0].1 == v;
      NothingBelow(s, v);
      MassesNonNegative(s[1..], v);
    } else {
      assert Sum(s, WeightTerm()) == s[0].0 + Sum(s[1..], WeightTerm());
      WalkStopsAtThreshold(s[1..], c + s[0].0, threshold);
      var i :| 0 <= i < |s[1..]| && s[1..][i].0 > 0.0 && s[1..][i].1 == v;
      assert s[i + 1].0 > 0.0 && PairAtMost(s[0], s[i + 1]);
    }
  }

  // ----- characterisation -----

  lemma {:induction false} MassMonotone(s: seq<Weighted>, v: real, u: real)
    requires v < u
    ensures MassAtMost(s, v) <= MassBelow(s, u)
  {
    if s == [] {
    } else {
      MassMonotone(s[1..], v, u);
    }
  }

  lemma QuantileUnique(pairs: seq<Weighted>, p: real, v: real, u: real)
    requires IsQuantile(pairs, p, v) && IsQuantile(pairs, p, u)
    ensures v == u
  {
    if v < u {
      MassMonotone(pairs, v, u);
    } else if u < v {
      MassMonotone(pairs, u, v);
    }
  }

  lemma ShareOfMass(p: real, t: real)
    requires 0.0 < p <= 1.0 && t > 0.0
    ensures 0.0 < Times(p, t) <= t
  {
    assert (1.0 - p) * t >= 0.0;
  }

  lemma {:induction false} SomeMass(pairs: seq<Weighted>)
    ensures Mass(pairs) >= 0.0
    ensures Mass(pairs) > 0.0 <==> exists i :: 0 <= i < |pairs| && pairs[i].0 > 0.0
  {
    if pairs == [] {
    } else {
      SomeMass(pairs[1..]);
      if k :| 0 <= k < |pairs[1..]| && pairs[1..][k].0 > 0.0 {
        assert pairs[k + 1].0 > 0.0;
      }
      if k :| 0 <= k < |pairs| && pairs[k].0 > 0.0 {
        if k > 0 {
          assert pairs[1..][k - 1].0 > 0.0;
        }
      }
    }
  }

  /** The answer is the value at which the mass first reaches the share `p`, and no other value is.
      Refused exactly outside (0, 1] or without positive mass. */
  lemma WeightedQuantileExact(pairs: seq<Weighted>, p: real)
    ensures WeightedQuantile(pairs, p).Refused? <==> !(0.0 < p <= 1.0) || Mass(pairs) == 0.0
    ensures forall v :: 0.0 < p <= 1.0 ==> (WeightedQuantile(pairs, p) == Ok(v) <==> IsQuantile(pairs, p, v))
  {
    PositiveIsSorted(pairs);
    SomeMass(pairs);
    var s := Positive(pairs);
    PositiveSum(pairs, WeightTerm(), PositiveTerm());
    if s != [] {
      assert s[0] in pairs;
      var k :| 0 <= k < |pairs| && pairs[k] == s[0];
    }
    if k :| 0 <= k < |pairs| && pairs[k].0 > 0.0 {
      assert pairs[k] in s;
    }
    if 0.0 < p <= 1.0 && s != [] {
      ShareOfMass(p, Mass(pairs));
      WalkStopsAtThreshold(s, 0.0, Times(p, Mass(pairs)));
      var v := Walk(s, 0.0, Times(p, Mass(pairs)));
      PositiveSum(pairs, AtMostTerm(v), AtMostTerm(v));
      PositiveSum(pairs, BelowTerm(v), BelowTerm(v));
      var i :| 0 <= i < |s| && s[i].0 > 0.0 && s[i].1 == v;
      assert s[i] in pairs;
      assert IsQuantile(pairs, p, v);
      forall u | IsQuantile(pairs, p, u) ensures u == v {
        QuantileUnique(pairs, p, u, v);
      }
    }
  }

  // ----- what does not matter -----

  lemma {:induction false} SumRemove<T>(s: seq<T>, k: nat, f: T -> real)
    requires k < |s|
    ensures Sum(s, f) == f(s[k]) + Sum(s[..k] + s[k + 1..], f)
  {
    if k == 0 {
      assert s[..0] + s[1..] == s[1..];
    } else {
      SumRemove(s[1..], k - 1, f);
      var r := s[..k] + s[k + 1..];
      assert r[0] == s[0] && r[1..] == s[1..][..k - 1] + s[1..][k..];
    }
  }

  lemma {:induction false} SumDependsOnlyOnContents<T>(s: seq<T>, t: seq<T>, f: T -> real)
    requires multiset(s) == multiset(t)
    ensures Sum(s, f) == Sum(t, f)
  {
    if s == [] {
      assert |multiset(t)| == 0;
    } else {
      var k := MatchHead(s, t);
      SumRemove(t, k, f);
      SumDependsOnlyOnContents(s[1..], t[..k] + t[k + 1..], f);
    }
  }

  /** Permuting the samples never changes the answer. */
  lemma WeightedQuantilePermutation(pairs: seq<Weighted>, shuffled: seq<Weighted>, p: real)
    requires multiset(pairs) == multiset(shuffled)
    ensures WeightedQuantile(shuffled, p) == WeightedQuantile(pairs, p)
  {
    WeightedQuantileExact(pairs, p);
    WeightedQuantileExact(shuffled, p);
    SumDependsOnlyOnContents(pairs, shuffled, PositiveTerm());
    var q := WeightedQuantile(pairs, p);
    if q.Ok? {
      var v := q.value;
      SumDependsOnlyOnContents(pairs, shuffled, AtMostTerm(v));
      SumDependsOnlyOnContents(pairs, shuffled, BelowTerm(v));
      var i :| 0 <= i < |pairs| && pairs[i].0 > 0.0 && pairs[i].1 == v;
      assert pairs[i] in multiset(shuffled);
      var j :| 0 <= j < |shuffled| && shuffled[j] == pairs[i];
      assert IsQuantile(shuffled, p, v);
    }
  }

  function Scaled(pairs: seq<Weighted>, c: real): seq<Weighted> {
    seq(|pairs|, i requires 0 <= i < |pairs| => (Times(c, pairs[i].0), pairs[i].1))
  }

  lemma ScaleSign(c: real, w: real)
    requires c > 0.0
    ensures Times(c, w) > 0.0 <==> w > 0.0
  {
    if w > 0.0 {
      assert c * w > 0.0;
    } else {
      assert c * (-w) >= 0.0;
    }
  }

  lemma ScaleSum(c: real, w: real, s: real)
    ensures Times(c, w + s) == Times(c, w) + Times(c, s)
    ensures Times(c, 0.0) == 0.0
  {
  }

  lemma {:induction false} ScaledMasses(pairs: seq<Weighted>, c: real, v: real)
    requires c > 0.0
    ensures Mass(Scaled(pairs, c)) == Times(c, Mass(pairs))
    ensures MassAtMost(Scaled(pairs, c), v) == Times(c, MassAtMost(pairs, v))
    ensures MassBelow(Scaled(pairs, c), v) == Times(c, MassBelow(pairs, v))
  {
    ScaleSum(c, 0.0, 0.0);
    if pairs != [] {
      ScaledMasses(pairs[1..], c, v);
      assert Scaled(pairs, c)[1..] == Scaled(pairs[1..], c);
      ScaleSign(c, pairs[0].0);
      ScaleSum(c, PositiveTerm()(pairs[0]), Mass(pairs[1..]));
      ScaleSum(c, AtMostTerm(v)(pairs[0]), MassAtMost(pairs[1..], v));
      ScaleSum(c, BelowTerm(v)(pairs[0]), MassBelow(pairs[1..], v));
    }
  }

  lemma ScaleOrder(c: real, p: real, t: real, below: real, atMost: real)
    requires c > 0.0 && below < Times(p, t) <= atMost
    ensures Times(c, below) < Times(p, Times(c, t)) <= Times(c, atMost)
  {
    assert p * (c * t) == c * (p * t);
    assert c * (p * t - below) > 0.0;
    assert c * (atMost - p * t) >= 0.0;
  }

  /** Scaling every weight by the same positive factor never changes the answer. */
  lemma WeightedQuantileScaling(pairs: seq<Weighted>, c: real, p: real)
    requires c > 0.0
    ensures WeightedQuantile(Scaled(pairs, c), p) == WeightedQuantile(pairs, p)
  {
    WeightedQuantileExact(pairs, p);
    WeightedQuantileExact(Scaled(pairs, c), p);
    ScaledMasses(pairs, c, 0.0);
    ScaleSign(c, Mass(pairs));
    SomeMass(pairs);
    SomeMass(Scaled(pairs, c));
    var q := WeightedQuantile(pairs, p);
    if q.Ok? {
      var v := q.value;
      ScaledMasses(pairs, c, v);
      ScaleOrder(c, p, Mass(pairs), MassBelow(pairs, v), MassAtMost(pairs, v));
      var i :| 0 <= i < |pairs| && pairs[i].0 > 0.0 && pairs[i].1 == v;
      ScaleSign(c, pairs[i].0);
      assert Scaled(pairs, c)[i].1 == v;
      assert IsQuantile(Scaled(pairs, c), p, v);
    }
  }

  // ----- equal weights -----

  function Even(values: seq<real>, w: real): seq<Weighted> {
    seq(|values|, i requires 0 <= i < |values| => (w, values[i]))
  }

  lemma {:induction false} EvenMasses(values: seq<real>, v: real)
    ensures Mass(Even(values, 1.0)) == |values| as real
    ensures MassAtMost(Even(values, 1.0), v) == CountAtMost(values, v) as real
    ensures MassBelow(Even(values, 1.0), v) == CountBelow(values, v) as real
  {
    if values == [] {
    } else {
      EvenMasses(values[1..], v);
      assert Even(values, 1.0)[1..] == Even(values[1..], 1.0);
    }
  }

  lemma RankIsCeiling(n: nat, p: real)
    requires n > 0 && 0.0 < p <= 1.0
    ensures 1 <= Rank(n, p) <= n
    ensures Rank(n, p) as real - 1.0 < Times(p, n as real) <= Rank(n, p) as real
  {
    ShareOfMass(p, n as real);
  }

  /** With equal positive weights the weighted quantile is the nearest-rank one. */
  lemma EqualWeightsGiveNearestRank(values: seq<real>, w: real, p: real)
    requires values != [] && w > 0.0 && 0.0 < p <= 1.0
    ensures WeightedQuantile(Even(values, w), p) == Quantile(values, p)
  {
    var k := Rank(|values|, p) - 1;
    RankIsCeiling(|values|, p);
    var sorted := Sort(values);
    var v := sorted[k];
    SortAscending(values);
    RankIffCount(sorted, k, v);
    RankBoundsBelow(sorted, k);
    SortCount(values, v);
    SortCountBelow(values, v);
    EvenMasses(values, v);
    assert v in multiset(sorted);
    var i :| 0 <= i < |values| && values[i] == v;
    var even := Even(values, 1.0);
    assert even[i].1 == v;
    assert IsQuantile(even, p, v);
    WeightedQuantileExact(even, p);
    WeightedQuantileScaling(even, w, p);
    assert Scaled(even, w) == Even(values, w);
  }

  /** The nearest-rank quantile, by counting: its rank is the first that covers the share `p` of the sample,
      within the sample whatever `p` is; at that rank counting finds the same value. */
  lemma QuantileByCounting(values: seq<real>, p: real)
    ensures Quantile(values, p).Refused? <==> values == []
    ensures values != [] ==>
      var n, r := |values|, Rank(|values|, p);
      && 1 <= r <= n
      && (r > 1 ==> r as real - 1.0 < Times(p, n as real)) && (r < n ==> Times(p, n as real) <= r as real)
      && IsRank(values, r - 1, Quantile(values, p).value)
  {
    if values != [] {
      RankByCounting(values, Rank(|values|, p) - 1, Quantile(values, p).value);
    }
  }
}
