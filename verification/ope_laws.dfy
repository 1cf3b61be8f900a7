/** What the off-policy estimators promise: unbiasedness, bounds, and exact quantiles. */
module OffPolicyLaws {
  import opened Options
  import opened OffPolicy

  // ----- eligibility -----

  /** Each state, by the conditions that lead to it: what could never be seen comes before what has
      not been seen yet, and support is judged last, by the target action alone. */
  lemma ClassifyExact(c: Case, target: nat, floor: real)
    requires target < |c.propensity|
    ensures
      var seen, complete := c.outcome.Observed?, c.outcome.Observed? && c.outcome.hasSuccess && c.outcome.hasViolations;
      var e := Classify(c, target, floor);
      && (e == Unobservable <==> !seen)
      && (e == CensoredImmature <==> seen && !c.mature)
      && (e == IncompleteOutcome <==> seen && c.mature && !complete)
      && (e == OutOfSupport <==> complete && c.mature && c.propensity[target] < floor)
      && (e == Eligible <==> complete && c.mature && c.propensity[target] >= floor)
  {
  }

  // ----- IPS is unbiased -----

  /** The logging policy gives every action a positive propensity, and they sum to one. */
  ghost predicate Overlap(c: Case) {
    && |c.reward| == |c.propensity|
    && (forall a :: 0 <= a < |c.propensity| ==> c.propensity[a] > 0.0)
    && Sum(c.propensity, Identity()) == 1.0
  }

  ghost predicate WellPosed(cases: seq<Case>, targets: seq<nat>) {
    && |targets| == |cases|
    && forall i :: 0 <= i < |cases| ==> Overlap(cases[i]) && targets[i] < |cases[i].propensity|
  }

  ghost predicate Assignment(cases: seq<Case>, logged: seq<nat>) {
    |logged| <= |cases| && forall i :: 0 <= i < |logged| ==> logged[i] < |cases[i].propensity|
  }

  predicate EligibleAt(cases: seq<Case>, targets: seq<nat>, floor: real, i: nat)
    requires WellPosed(cases, targets) && i < |cases|
  {
    Classify(cases[i], targets[i], floor) == Eligible
  }

  /** How many of the first `n` cases are eligible. */
  function EligibleCount(cases: seq<Case>, targets: seq<nat>, floor: real, n: nat): nat
    requires WellPosed(cases, targets) && n <= |cases|
  {
    if n == 0 then 0
    else EligibleCount(cases, targets, floor, n - 1) + if EligibleAt(cases, targets, floor, n - 1) then 1 else 0
  }

  /** The `(weight, outcome)` pairs the estimator sees when these actions were logged. */
  function Pairs(cases: seq<Case>, targets: seq<nat>, floor: real, logged: seq<nat>): seq<Weighted>
    requires WellPosed(cases, targets) && Assignment(cases, logged)
  {
    if logged == [] then []
    else
      var i := |logged| - 1;
      var before := Pairs(cases, targets, floor, logged[..i]);
      if EligibleAt(cases, targets, floor, i)
      then before + [(Weight(cases[i], logged[i], targets[i]), cases[i].reward[logged[i]])]
      else before
  }

  /** The probability that the logging policy chose exactly these actions. */
  function Likelihood(cases: seq<Case>, logged: seq<nat>): real
    requires Assignment(cases, logged)
  {
    if logged == [] then 1.0
    else
      var i := |logged| - 1;
      Times(Likelihood(cases, logged[..i]), cases[i].propensity[logged[i]])
  }

  /** Sum over every way of completing the assignment: its likelihood times the estimate it gives. */
  ghost function Expectation(cases: seq<Case>, targets: seq<nat>, floor: real, logged: seq<nat>): real
    requires WellPosed(cases, targets) && Assignment(cases, logged)
    requires EligibleCount(cases, targets, floor, |cases|) > 0
    decreases |cases| - |logged|, 1, 0
  {
    if |logged| == |cases| then
      PairsCount(cases, targets, floor, logged);
      Times(Likelihood(cases, logged), Ips(Pairs(cases, targets, floor, logged)))
    else
      ExpectationFrom(cases, targets, floor, logged, 0)
  }

  ghost function ExpectationFrom(cases: seq<Case>, targets: seq<nat>, floor: real, logged: seq<nat>, a: nat): real
    requires WellPosed(cases, targets) && Assignment(cases, logged) && |logged| < |cases|
    requires EligibleCount(cases, targets, floor, |cases|) > 0
    requires a <= |cases[|logged|].propensity|
    decreases |cases| - |logged|, 0, |cases[|logged|].propensity| - a
  {
    if a == |cases[|logged|].propensity| then 0.0
    else Expectation(cases, targets, floor, logged + [a]) + ExpectationFrom(cases, targets, floor, logged, a + 1)
  }

  /** Sum of what the target actions would have earned on the eligible cases from `i` on. */
  function TargetSum(cases: seq<Case>, targets: seq<nat>, floor: real, i: nat): real
    requires WellPosed(cases, targets) && i <= |cases|
    decreases |cases| - i
  {
    if i == |cases| then 0.0
    else
      var here := if EligibleAt(cases, targets, floor, i) then cases[i].reward[targets[i]] else 0.0;
      here + TargetSum(cases, targets, floor, i + 1)
  }

  lemma {:induction false} PairsCount(cases: seq<Case>, targets: seq<nat>, floor: real, logged: seq<nat>)
    requires WellPosed(cases, targets) && Assignment(cases, logged)
    ensures |Pairs(cases, targets, floor, logged)| == EligibleCount(cases, targets, floor, |logged|)
    decreases |logged|
  {
    if logged == [] {
    } else {
      PairsCount(cases, targets, floor, logged[..|logged| - 1]);
    }
  }

  lemma {:induction false} SumAppend<T>(s: seq<T>, x: T, f: T -> real)
    ensures Sum(s + [x], f) == Sum(s, f) + f(x)
  {
    if s == [] {
      assert [x][1..] == [];
      assert s + [x] == [x];
    } else {
      assert (s + [x])[1..] == s[1..] + [x];
      SumAppend(s[1..], x, f);
    }
  }

  lemma LikelihoodOfOneMore(cases: seq<Case>, logged: seq<nat>, a: nat)
    requires Assignment(cases, logged) && |logged| < |cases| && a < |cases[|logged|].propensity|
    ensures Assignment(cases, logged + [a])
    ensures Likelihood(cases, logged + [a]) == Times(Likelihood(cases, logged), cases[|logged|].propensity[a])
  {
    assert (logged + [a])[..|logged|] == logged;
  }

  /** What logging action `a` adds to the sum of products. The weight undoes the propensity: only
      the target action's outcome is left. */
  lemma ProductsOfOneMore(cases: seq<Case>, targets: seq<nat>, floor: real, logged: seq<nat>, a: nat) returns (w: real)
    requires WellPosed(cases, targets) && Assignment(cases, logged) && |logged| < |cases|
    requires a < |cases[|logged|].propensity| && Assignment(cases, logged + [a])
    ensures Products(cases, targets, floor, logged + [a]) == Products(cases, targets, floor, logged) + w
    ensures Times(cases[|logged|].propensity[a], w)
         == Remaining(cases, targets, floor, |logged|, a) - Remaining(cases, targets, floor, |logged|, a + 1)
  {
    var i := |logged|;
    assert (logged + [a])[..i] == logged;
    w := 0.0;
    if EligibleAt(cases, targets, floor, i) {
      var pair := (Weight(cases[i], a, targets[i]), cases[i].reward[a]);
      assert Pairs(cases, targets, floor, logged + [a]) == Pairs(cases, targets, floor, logged) + [pair];
      SumAppend(Pairs(cases, targets, floor, logged), pair, ProductTerm());
      w := Times(pair.0, pair.1);
      assert Overlap(cases[i]);
      Cancel(cases[i].propensity[a], cases[i].reward[a]);
    }
  }

  lemma Cancel(p: real, r: real)
    requires p > 0.0
    ensures Times(p, Times(1.0 / p, r)) == r && Times(0.0, r) == 0.0 && Times(p, 0.0) == 0.0
  {
    assert p * (1.0 / p) == 1.0;
    assert p * ((1.0 / p) * r) == (p * (1.0 / p)) * r;
  }

  lemma Collect(m: real, l: real, p: real, base: real, w: real, rest: real, r: real, r0: real, first: real, later: real)
    requires Times(m, first) == Times(Times(l, p), base + w)
    requires Times(m, later) == Times(l, Times(base, rest) + r)
    requires Times(p, w) == r0 - r
    ensures Times(m, first + later) == Times(l, Times(base, p + rest) + r0)
  {
    assert m * (first + later) == m * first + m * later;
    assert (l * p) * (base + w) == l * (base * p + p * w);
    assert base * (p + rest) == base * p + base * rest;
  }

  function Products(cases: seq<Case>, targets: seq<nat>, floor: real, logged: seq<nat>): real
    requires WellPosed(cases, targets) && Assignment(cases, logged)
  {
    Sum(Pairs(cases, targets, floor, logged), ProductTerm())
  }

  /** What the target still brings in at case `i` among the actions `a` and after. */
  function Remaining(cases: seq<Case>, targets: seq<nat>, floor: real, i: nat, a: nat): real
    requires WellPosed(cases, targets) && i < |cases|
  {
    if EligibleAt(cases, targets, floor, i) && a <= targets[i] then cases[i].reward[targets[i]] else 0.0
  }

  /** Weighted by the propensities, the unknown action averages out and only the target remains. */
  lemma {:induction false} ActionsAverageOut(
    cases: seq<Case>, targets: seq<nat>, floor: real, logged: seq<nat>, a: nat, m: real, base: real)
    requires WellPosed(cases, targets) && Assignment(cases, logged) && |logged| < |cases|
    requires EligibleCount(cases, targets, floor, |cases|) > 0
    requires m == EligibleCount(cases, targets, floor, |cases|) as real
    requires a <= |cases[|logged|].propensity|
    requires base == Products(cases, targets, floor, logged) + TargetSum(cases, targets, floor, |logged| + 1)
    ensures Times(m, ExpectationFrom(cases, targets, floor, logged, a))
         == Times(Likelihood(cases, logged),
                  Times(base, Sum(cases[|logged|].propensity[a..], Identity()))
                  + Remaining(cases, targets, floor, |logged|, a))
    decreases |cases| - |logged|, 0, |cases[|logged|].propensity| - a
  {
    var i := |logged|;
    var p := cases[i].propensity;
    if a < |p| {
      LikelihoodOfOneMore(cases, logged, a);
      var w := ProductsOfOneMore(cases, targets, floor, logged, a);
      ExpectationIs(cases, targets, floor, logged + [a], m);
      ActionsAverageOut(cases, targets, floor, logged, a + 1, m, base);
      assert p[a..][0] == p[a] && p[a..][1..] == p[a + 1..];
      var next := Products(cases, targets, floor, logged + [a]) + TargetSum(cases, targets, floor, |logged + [a]|);
      assert next == base + w;
      Collect(m, Likelihood(cases, logged), p[a], base, w, Sum(p[a + 1..], Identity()),
              Remaining(cases, targets, floor, i, a + 1), Remaining(cases, targets, floor, i, a),
              Expectation(cases, targets, floor, logged + [a]), ExpectationFrom(cases, targets, floor, logged, a + 1));
    } else {
      assert p[a..] == [];
      assert Times(m, 0.0) == 0.0 && Times(base, 0.0) == 0.0 && Times(Likelihood(cases, logged), 0.0) == 0.0;
    }
  }

  lemma {:induction false} ExpectationIs(cases: seq<Case>, targets: seq<nat>, floor: real, logged: seq<nat>, m: real)
    requires WellPosed(cases, targets) && Assignment(cases, logged)
    requires EligibleCount(cases, targets, floor, |cases|) > 0
    requires m == EligibleCount(cases, targets, floor, |cases|) as real
    ensures Times(m, Expectation(cases, targets, floor, logged))
         == Times(Likelihood(cases, logged),
                  Products(cases, targets, floor, logged) + TargetSum(cases, targets, floor, |logged|))
    decreases |cases| - |logged|, 1, 0
  {
    var total := Products(cases, targets, floor, logged);
    if |logged| == |cases| {
      PairsCount(cases, targets, floor, logged);
      MultiplyOut(m, Likelihood(cases, logged), total);
    } else {
      var base := total + TargetSum(cases, targets, floor, |logged| + 1);
      ActionsAverageOut(cases, targets, floor, logged, 0, m, base);
      var p := cases[|logged|].propensity;
      assert Overlap(cases[|logged|]) && p[0..] == p;
      assert Times(base, 1.0) == base;
    }
  }

  lemma MultiplyOut(m: real, l: real, total: real)
    requires m > 0.0
    ensures Times(m, Times(l, total / m)) == Times(l, total)
  {
    assert m * (total / m) == total;
    assert m * (l * (total / m)) == l * (m * (total / m));
  }

  /** Over all the actions the logging policy might have taken, the average estimate is exactly
      the mean outcome of the target actions on the eligible cases. */
  lemma IpsIsUnbiased(cases: seq<Case>, targets: seq<nat>, floor: real)
    requires WellPosed(cases, targets)
    requires EligibleCount(cases, targets, floor, |cases|) > 0
    ensures Expectation(cases, targets, floor, [])
         == TargetSum(cases, targets, floor, 0) / EligibleCount(cases, targets, floor, |cases|) as real
  {
    var m := EligibleCount(cases, targets, floor, |cases|) as real;
    ExpectationIs(cases, targets, floor, [], m);
    DivideOut(m, Expectation(cases, targets, floor, []), TargetSum(cases, targets, floor, 0));
  }

  lemma DivideOut(m: real, x: real, total: real)
    requires m > 0.0 && Times(m, x) == Times(1.0, 0.0 + total)
    ensures x == total / m
  {
  }

  // ----- effective sample size -----

  predicate NonNegative(ws: seq<real>) {
    forall i :: 0 <= i < |ws| ==> ws[i] >= 0.0
  }

  lemma {:induction false} SumsNonNegative(ws: seq<real>)
    requires NonNegative(ws)
    ensures Sum(ws, Identity()) >= 0.0 && Sum(ws, Square()) >= 0.0
    ensures Sum(ws, Square()) > 0.0 <==> NonZero(ws) > 0
  {
    if ws == [] {
    } else {
      SumsNonNegative(ws[1..]);
      SquareSign(ws[0]);
    }
  }

  lemma ProductPositive(x: real, y: real)
    requires x > 0.0 && y > 0.0
    ensures Times(x, y) > 0.0
  {
  }

  lemma SquareSign(x: real)
    ensures Times(x, x) >= 0.0
    ensures x != 0.0 ==> Times(x, x) > 0.0
    ensures x == 0.0 ==> Times(x, x) == 0.0
  {
    if x > 0.0 {
      ProductPositive(x, x);
    } else if x < 0.0 {
      ProductPositive(-x, -x);
      assert Times(x, x) == Times(-x, -x);
    }
  }

  /** The squared distances of the non-zero weights from `w` sum to something non-negative. */
  lemma {:induction false} SpreadNonNegative(ws: seq<real>, w: real)
    requires NonNegative(ws)
    ensures Spread(Sum(ws, Identity()), Sum(ws, Square()), NonZero(ws) as real, w) >= 0.0
  {
    if ws == [] {
      assert Times(w, 0.0) == 0.0 && Times(0.0, Times(w, w)) == 0.0;
    } else {
      SpreadNonNegative(ws[1..], w);
      SpreadStep(ws[0], Sum(ws[1..], Identity()), Sum(ws[1..], Square()), NonZero(ws[1..]) as real, w);
    }
  }

  function Spread(s: real, q: real, n: real, w: real): real {
    q - 2.0 * Times(w, s) + Times(n, Times(w, w))
  }

  lemma SpreadStep(x: real, s: real, q: real, n: real, w: real)
    ensures Spread(x + s, Times(x, x) + q, 1.0 + n, w) >= Spread(s, q, n, w)
    ensures Spread(0.0 + s, Times(0.0, 0.0) + q, 0.0 + n, w) == Spread(s, q, n, w)
  {
    SquareSign(x - w);
    assert w * (x + s) == w * x + w * s;
    assert (x - w) * (x - w) == x * x - 2.0 * (w * x) + w * w;
    assert (1.0 + n) * (w * w) == w * w + n * (w * w);
  }

  lemma {:induction false} CauchySchwarz(ws: seq<real>)
    requires NonNegative(ws)
    ensures
      var s, q := Sum(ws, Identity()), Sum(ws, Square());
      q <= Times(s, s) <= Times(NonZero(ws) as real, q)
  {
    if ws == [] {
      assert Times(0.0, 0.0) == 0.0;
    } else {
      CauchySchwarz(ws[1..]);
      SumsNonNegative(ws[1..]);
      SpreadNonNegative(ws[1..], ws[0]);
      SquareOfSum(ws[0], Sum(ws[1..], Identity()), Sum(ws[1..], Square()), NonZero(ws[1..]) as real);
    }
  }

  lemma SquareOfSum(w: real, s: real, q: real, n: real)
    requires w >= 0.0 && s >= 0.0 && q <= Times(s, s) <= Times(n, q) && Spread(s, q, n, w) >= 0.0
    ensures Times(w, w) + q <= Times(w + s, w + s) <= Times(1.0 + n, Times(w, w) + q)
    ensures w == 0.0 ==> Times(w + s, w + s) <= Times(0.0 + n, Times(w, w) + q)
  {
    assert w * s >= 0.0;
    assert (w + s) * (w + s) == w * w + 2.0 * (w * s) + s * s;
    assert (1.0 + n) * (w * w + q) == w * w + q + n * (w * w) + n * q;
  }

  /** With some positive weight, the effective sample size lies between one and the number of
      non-zero weights; with none it is zero. */
  lemma EssIsBetween(ws: seq<real>)
    requires NonNegative(ws)
    ensures NonZero(ws) > 0 ==> 1.0 <= Ess(ws) <= NonZero(ws) as real
    ensures NonZero(ws) == 0 ==> Ess(ws) == 0.0
  {
    SumsNonNegative(ws);
    CauchySchwarz(ws);
    if NonZero(ws) > 0 {
      var s, q := Sum(ws, Identity()), Sum(ws, Square());
      QuotientBetween(Times(s, s), q, 1.0, NonZero(ws) as real);
    }
  }

  lemma QuotientBetween(x: real, q: real, lo: real, hi: real)
    requires q > 0.0 && Times(lo, q) <= x <= Times(hi, q)
    ensures Times(x / q, q) == x && lo <= x / q <= hi
  {
    var r := x / q;
    if r < lo {
      ScaleLess(r, lo, q);
      assert false;
    }
    if hi < r {
      ScaleLess(hi, r, q);
      assert false;
    }
  }

  lemma ScaleLess(x: real, y: real, q: real)
    requires x < y && q > 0.0
    ensures x * q < y * q
  {
    assert (y - x) * q > 0.0;
  }

  /** Each weight as its share of the whole. */
  function Shares(ws: seq<real>, s: real): (r: seq<real>)
    requires s > 0.0
    ensures |r| == |ws|
  {
    seq(|ws|, i requires 0 <= i < |ws| => ws[i] / s)
  }

  lemma ShareSquared(w: real, s: real)
    requires s > 0.0
    ensures Times(s, s) > 0.0 && Times(w / s, w / s) == Times(w, w) / Times(s, s)
  {
    var x := w / s;
    assert x * s == w;
    assert (x * x) * (s * s) == (x * s) * (x * s);
    ProductPositive(s, s);
    DividedBy(Times(x, x), Times(s, s), Times(w, w));
  }

  lemma DividedBy(x: real, q: real, y: real)
    requires q > 0.0 && x * q == y
    ensures x == y / q
  {
  }

  lemma DivideSum(a: real, b: real, q: real)
    requires q > 0.0
    ensures a / q + b / q == (a + b) / q
  {
  }

  lemma {:induction false} SharesSquared(ws: seq<real>, s: real)
    requires s > 0.0
    ensures Times(s, s) > 0.0 && Sum(Shares(ws, s), Square()) == Sum(ws, Square()) / Times(s, s)
  {
    ProductPositive(s, s);
    if ws == [] {
    } else {
      SharesSquared(ws[1..], s);
      assert Shares(ws, s)[1..] == Shares(ws[1..], s);
      ShareSquared(ws[0], s);
      DivideSum(Times(ws[0], ws[0]), Sum(ws[1..], Square()), Times(s, s));
    }
  }

  lemma Inverse(x: real, y: real)
    requires x > 0.0 && y > 0.0
    ensures Times(x / y, y / x) == 1.0
  {
    var b := y / x;
    assert b * x == y;
    assert x / y == 1.0 / b by {
      assert (1.0 / b) * y == (1.0 / b) * (b * x);
      DividedBy(1.0 / b, y, x);
    }
  }

  /** The effective sample size is the inverse of how concentrated the weights are: of the sum of their
      squared shares. */
  lemma EssIsInverseConcentration(ws: seq<real>)
    requires NonNegative(ws) && NonZero(ws) > 0
    ensures Sum(ws, Identity()) > 0.0
    ensures Times(Ess(ws), Sum(Shares(ws, Sum(ws, Identity())), Square())) == 1.0
  {
    SumsNonNegative(ws);
    CauchySchwarz(ws);
    var s, q := Sum(ws, Identity()), Sum(ws, Square());
    assert s != 0.0 by {
      assert Times(0.0, 0.0) == 0.0;
    }
    SharesSquared(ws, s);
    Inverse(Times(s, s), q);
  }

  // ----- SNIPS -----

  predicate NonNegativeWeights(pairs: seq<Weighted>) {
    forall i :: 0 <= i < |pairs| ==> pairs[i].0 >= 0.0
  }

  lemma {:induction false} ProductsBetween(pairs: seq<Weighted>, lo: real, hi: real)
    requires NonNegativeWeights(pairs)
    requires forall i :: 0 <= i < |pairs| && pairs[i].0 > 0.0 ==> lo <= pairs[i].1 <= hi
    ensures Times(lo, Sum(pairs, WeightTerm())) <= Sum(pairs, ProductTerm()) <= Times(hi, Sum(pairs, WeightTerm()))
  {
    if pairs == [] {
      assert Times(lo, 0.0) == 0.0 == Times(hi, 0.0);
    } else {
      ProductsBetween(pairs[1..], lo, hi);
      TermBetween(pairs[0].0, pairs[0].1, lo, hi, Sum(pairs[1..], WeightTerm()));
    }
  }

  lemma TermBetween(w: real, y: real, lo: real, hi: real, s: real)
    requires w == 0.0 || (w > 0.0 && lo <= y <= hi)
    ensures Times(lo, w + s) <= Times(w, y) + Times(lo, s)
    ensures Times(w, y) + Times(hi, s) <= Times(hi, w + s)
  {
    assert lo * (w + s) == lo * w + lo * s && hi * (w + s) == hi * w + hi * s;
    if w > 0.0 {
      assert (y - lo) * w >= 0.0 && (hi - y) * w >= 0.0;
    }
  }

  lemma {:induction false} PositiveMass(pairs: seq<Weighted>)
    requires NonNegativeWeights(pairs)
    ensures Sum(pairs, WeightTerm()) >= 0.0
    ensures Sum(pairs, WeightTerm()) > 0.0 <==> exists i :: 0 <= i < |pairs| && pairs[i].0 > 0.0
  {
    if pairs == [] {
    } else {
      PositiveMass(pairs[1..]);
      if k :| 0 <= k < |pairs[1..]| && pairs[1..][k].0 > 0.0 {
        assert pairs[k + 1].0 > 0.0;
      }
      if k :| 0 <= k < |pairs| && pairs[k].0 > 0.0 {
        if k > 0 {
          assert pairs[1..][k - 1].0 > 0.0;
        }
      }
    }
  }

  /** SNIPS exists iff some weight is positive; it then lies within any bounds on the outcomes that
      carry weight, and IPS is SNIPS times the weight sum over the case count. */
  lemma SnipsIsBetween(pairs: seq<Weighted>, lo: real, hi: real)
    requires pairs != [] && NonNegativeWeights(pairs)
    requires forall i :: 0 <= i < |pairs| && pairs[i].0 > 0.0 ==> lo <= pairs[i].1 <= hi
    ensures
      var e := EstimateChannel(pairs);
      && e.Ok? && e.value.count == |pairs|
      && (e.value.snips.Some? <==> exists i :: 0 <= i < |pairs| && pairs[i].0 > 0.0)
      && (e.value.snips.Some? ==>
        && lo <= e.value.snips.value <= hi
        && e.value.ips == Times(e.value.snips.value, Sum(pairs, WeightTerm())) / |pairs| as real)
      && (e.value.snips.None? ==> e.value.ips == 0.0)
  {
    PositiveMass(pairs);
    ProductsBetween(pairs, lo, hi);
    var w, total := Sum(pairs, WeightTerm()), Sum(pairs, ProductTerm());
    if w > 0.0 {
      QuotientBetween(total, w, lo, hi);
    } else {
      assert w == 0.0 && Times(lo, w) == 0.0 && Times(hi, w) == 0.0;
    }
  }

  function DeviationTerm(v: real): Weighted -> real { (x: Weighted) => Times(x.0, x.1 - v) }

  lemma {:induction false} DeviationsAre(pairs: seq<Weighted>, v: real)
    ensures Sum(pairs, DeviationTerm(v)) == Sum(pairs, ProductTerm()) - Times(v, Sum(pairs, WeightTerm()))
  {
    if pairs == [] {
      assert Times(v, 0.0) == 0.0;
    } else {
      DeviationsAre(pairs[1..], v);
      var w, y, rest := pairs[0].0, pairs[0].1, Sum(pairs[1..], WeightTerm());
      assert w * (y - v) == w * y - v * w && v * (w + rest) == v * w + v * rest;
    }
  }

  /** SNIPS is where the weighted outcomes balance, and no other value is; IPS spreads the weighted
      outcomes evenly over all cases, and is refused exactly for none. */
  lemma EstimateBalances(pairs: seq<Weighted>, v: real)
    requires NonNegativeWeights(pairs)
    ensures EstimateChannel(pairs).Refused? <==> pairs == []
    ensures EstimateChannel(pairs).Ok? ==>
      var e := EstimateChannel(pairs).value;
      && e.count == |pairs| && Times(e.ips, |pairs| as real) == Sum(pairs, ProductTerm())
      && (e.snips == Some(v) ==> Sum(pairs, DeviationTerm(v)) == 0.0)
      && (e.snips.Some? && Sum(pairs, DeviationTerm(v)) == 0.0 ==> e.snips == Some(v))
  {
    PositiveMass(pairs);
    DeviationsAre(pairs, v);
    var total, w := Sum(pairs, ProductTerm()), Sum(pairs, WeightTerm());
    if pairs != [] {
      QuotientTimes(total, |pairs| as real, v);
      if w > 0.0 {
        QuotientTimes(total, w, v);
      }
    }
  }

  lemma QuotientTimes(x: real, q: real, v: real)
    requires q > 0.0
    ensures Times(x / q, q) == x && (x - Times(v, q) == 0.0 <==> v == x / q)
  {
    if x - v * q == 0.0 {
      DividedBy(v, q, x);
    }
  }

  // ----- counting the records -----

  /** The places before `n` whose records are in the given state. */
  function Places(records: seq<Record>, e: Eligibility, n: nat): set<nat>
    requires n <= |records|
  {
    set i: nat | i < n && records[i].eligibility == e
  }

  lemma {:induction false} CountsJoin(a: seq<Record>, b: seq<Record>, e: Eligibility)
    ensures CountOf(a + b, e) == CountOf(a, e) + CountOf(b, e)
  {
    if a == [] {
      assert a + b == b;
    } else {
      assert (a + b)[1..] == a[1..] + b;
      CountsJoin(a[1..], b, e);
    }
  }

  lemma {:induction false} WeightsJoin(a: seq<Record>, b: seq<Record>)
    ensures EligibleWeights(a + b) == EligibleWeights(a) + EligibleWeights(b)
  {
    if a == [] {
      assert a + b == b;
    } else {
      assert (a + b)[1..] == a[1..] + b;
      WeightsJoin(a[1..], b);
    }
  }

  lemma {:induction false} CountIsPlaces(records: seq<Record>, e: Eligibility, n: nat)
    requires n <= |records|
    ensures CountOf(records[..n], e) == |Places(records, e, n)|
  {
    if n == 0 {
    } else {
      CountIsPlaces(records, e, n - 1);
      assert records[..n] == records[..n - 1] + [records[n - 1]];
      CountsJoin(records[..n - 1], [records[n - 1]], e);
      var here: set<nat> := if records[n - 1].eligibility == e then {n - 1} else {};
      assert Places(records, e, n) == Places(records, e, n - 1) + here;
    }
  }

  /** Every state's count is the number of its records, and the weights collected are those of the
      eligible ones, all of them and in order. */
  lemma CountsAreExact(records: seq<Record>, e: Eligibility)
    ensures CountOf(records, e) == |Places(records, e, |records|)|
    ensures |EligibleWeights(records)| == |Places(records, Eligible, |records|)|
    ensures forall k :: 0 <= k < |records| && records[k].eligibility == Eligible ==>
      && |Places(records, Eligible, k)| < |EligibleWeights(records)|
      && EligibleWeights(records)[|Places(records, Eligible, k)|] == records[k].weight
  {
    CountIsPlaces(records, e, |records|);
    CountIsPlaces(records, Eligible, |records|);
    StatesPartition(records);
    assert records[..|records|] == records;
    forall k | 0 <= k < |records| && records[k].eligibility == Eligible
      ensures |Places(records, Eligible, k)| < |EligibleWeights(records)|
      ensures EligibleWeights(records)[|Places(records, Eligible, k)|] == records[k].weight
    {
      WeightPlaced(records, k);
    }
  }

  lemma WeightPlaced(records: seq<Record>, k: nat)
    requires k < |records| && records[k].eligibility == Eligible
    ensures |Places(records, Eligible, k)| < |EligibleWeights(records)|
    ensures EligibleWeights(records)[|Places(records, Eligible, k)|] == records[k].weight
  {
    CountIsPlaces(records, Eligible, k);
    StatesPartition(records[..k]);
    assert records == records[..k] + records[k..];
    WeightsJoin(records[..k], records[k..]);
    assert EligibleWeights(records[k..])[0] == records[k].weight;
  }

  lemma {:induction false} NonZeroIsCount(ws: seq<real>)
    ensures NonZero(ws) == |set i: nat | i < |ws| && ws[i] > 0.0|
  {
    if ws == [] {
    } else {
      var front, n := ws[..|ws| - 1], |ws| - 1;
      NonZeroIsCount(front);
      NonZeroJoin(front, ws[n]);
      assert front + [ws[n]] == ws;
      var here: set<nat> := if ws[n] > 0.0 then {n} else {};
      assert (set i: nat | i < |ws| && ws[i] > 0.0) == (set i: nat | i < |front| && front[i] > 0.0) + here;
    }
  }

  lemma {:induction false} NonZeroJoin(ws: seq<real>, w: real)
    ensures NonZero(ws + [w]) == NonZero(ws) + if w > 0.0 then 1 else 0
  {
    if ws == [] {
      assert ws + [w] == [w];
    } else {
      assert (ws + [w])[1..] == ws[1..] + [w];
      NonZeroJoin(ws[1..], w);
    }
  }
}
