/** Off-policy evaluation over exact reals: eligibility, weights, estimates, quantiles. */
module OffPolicy {
  import opened Options
  import opened Ordering

  // ----- cases -----

  /** What is known of a case's outcome; `Observed` may still miss a field it needs. */
  datatype Outcome = Never | Observed(hasSuccess: bool, hasViolations: bool)

  /** One logged decision: the logging policy's propensity of every action, and the reward
      each action would have been observed with. */
  datatype Case = Case(outcome: Outcome, mature: bool, propensity: seq<real>, reward: seq<real>)

  datatype Eligibility = Eligible | Unobservable | CensoredImmature | IncompleteOutcome | OutOfSupport

  function Classify(c: Case, target: nat, floor: real): Eligibility
    requires target < |c.propensity|
  {
    if c.outcome.Never? then Unobservable
    else if !c.mature then CensoredImmature
    else if !c.outcome.hasSuccess || !c.outcome.hasViolations then IncompleteOutcome
    else if c.propensity[target] < floor then OutOfSupport
    else Eligible
  }

  /** A product under a name, so that proofs can treat it as one term. */
  function Times(x: real, y: real): real {
    x * y
  }

  /** The importance weight of an eligible record whose logged action was `logged`. */
  function Weight(c: Case, logged: nat, target: nat): real
    requires logged < |c.propensity| && c.propensity[logged] > 0.0
  {
    if logged == target then 1.0 / c.propensity[logged] else 0.0
  }

  // ----- sums -----

  function Sum<T>(s: seq<T>, f: T -> real): real {
    if s == [] then 0.0 else f(s[0]) + Sum(s[1..], f)
  }

  type Weighted = (real, real)  // weight, observed value

  function WeightTerm(): Weighted -> real { (x: Weighted) => x.0 }

  function ProductTerm(): Weighted -> real { (x: Weighted) => Times(x.0, x.1) }

  function AtMostTerm(v: real): Weighted -> real {
    (x: Weighted) => if x.0 > 0.0 && x.1 <= v then x.0 else 0.0
  }

  function BelowTerm(v: real): Weighted -> real {
    (x: Weighted) => if x.0 > 0.0 && x.1 < v then x.0 else 0.0
  }

  function PositiveTerm(): Weighted -> real {
    (x: Weighted) => if x.0 > 0.0 then x.0 else 0.0
  }

  // ----- estimates -----

  datatype Result<+T> = Ok(value: T) | Refused

  datatype Estimate = Estimate(count: nat, ips: real, snips: Option<real>)

  function Ips(pairs: seq<Weighted>): real
    requires pairs != []
  {
    Sum(pairs, ProductTerm()) / |pairs| as real
  }

  function EstimateChannel(pairs: seq<Weighted>): Result<Estimate> {
    if pairs == [] then Refused
    else
      var total := Sum(pairs, WeightTerm());
      Ok(Estimate(|pairs|, Ips(pairs),
                  if total > 0.0 then Some(Sum(pairs, ProductTerm()) / total) else None))
  }

  // ----- quantiles -----

  function Ceiling(x: real): int {
    -((-x).Floor)
  }

  function Rank(n: nat, p: real): nat
    requires n > 0
  {
    var r := Ceiling(Times(p, n as real));
    if r < 1 then 1 else if r > n then n else r
  }

  /** Nearest rank over an ascending copy. */
  function Quantile(values: seq<real>, p: real): Result<real> {
    if values == [] then Refused else Ok(Sort(values)[Rank(|values|, p) - 1])
  }

  /** Ascending by value, then by weight: the order of sorted `(value, weight)` pairs. */
  predicate PairAtMost(x: Weighted, y: Weighted) {
    x.1 < y.1 || (x.1 == y.1 && x.0 <= y.0)
  }

  function InsertPair(x: Weighted, s: seq<Weighted>): (r: seq<Weighted>)
    ensures multiset(r) == multiset(s) + multiset{x}
  {
    if s == [] then [x]
    else if PairAtMost(x, s[0]) then [x] + s
    else
      assert s == [s[0]] + s[1..];
      [s[0]] + InsertPair(x, s[1..])
  }

  /** The positively weighted pairs, sorted. */
  function Positive(s: seq<Weighted>): seq<Weighted> {
    if s == [] then []
    else if s[0].0 > 0.0 then InsertPair(s[0], Positive(s[1..]))
    else Positive(s[1..])
  }

  /** The first value at which the running mass reaches the threshold, else the last one. */
  function Walk(sorted: seq<Weighted>, cumulative: real, threshold: real): real
    requires sorted != []
    decreases |sorted|
  {
    var c := cumulative + sorted[0].0;
    if c >= threshold || |sorted| == 1 then sorted[0].1 else Walk(sorted[1..], c, threshold)
  }

  function WeightedQuantile(pairs: seq<Weighted>, p: real): Result<real> {
    if !(0.0 < p <= 1.0) then Refused
    else
      var positive := Positive(pairs);
      if positive == [] then Refused else Ok(Walk(positive, 0.0, Times(p, Sum(positive, WeightTerm()))))
  }

  method ComputeWeightedQuantile(pairs: seq<Weighted>, p: real) returns (result: Result<real>)
    ensures result == WeightedQuantile(pairs, p)
  {
    if !(0.0 < p <= 1.0) {
      return Refused;
    }
    var positive := Positive(pairs);
    if positive == [] {
      return Refused;
    }
    var threshold := Times(p, Sum(positive, WeightTerm()));
    var cumulative, rest := 0.0, positive;
    while rest != []
      invariant rest != [] ==> Walk(rest, cumulative, threshold) == Walk(positive, 0.0, threshold)
      invariant rest == [] ==> Walk(positive, 0.0, threshold) == positive[|positive| - 1].1
      invariant rest == positive[|positive| - |rest|..] && |rest| <= |positive|
      decreases |rest|
    {
      ghost var answer := Walk(rest, cumulative, threshold);
      cumulative := cumulative + rest[0].0;
      if cumulative >= threshold {
        assert answer == rest[0].1 && answer == Walk(positive, 0.0, threshold);
        assert WeightedQuantile(pairs, p) == Ok(Walk(positive, 0.0, threshold));
        return Ok(rest[0].1);
      }
      rest := rest[1..];
    }
    result := Ok(positive[|positive| - 1].1);
  }

  // ----- support diagnostics -----

  datatype Record = Record(eligibility: Eligibility, weight: real)

  datatype Support = Support(
    total: nat, eligible: nat, unobservable: nat, censored: nat, incomplete: nat, outOfSupport: nat,
    rate: real, nonzero: nat, weightSum: real, weightMax: real, p50: real, p90: real, p99: real, ess: real)

  function CountOf(records: seq<Record>, e: Eligibility): nat {
    if records == [] then 0 else (if records[0].eligibility == e then 1 else 0) + CountOf(records[1..], e)
  }

  function EligibleWeights(records: seq<Record>): seq<real> {
    if records == [] then []
    else (if records[0].eligibility == Eligible then [records[0].weight] else []) + EligibleWeights(records[1..])
  }

  function Largest(ws: seq<real>): (r: real)
    requires ws != []
    ensures r in ws && forall w :: w in ws ==> w <= r
  {
    if |ws| == 1 then ws[0]
    else
      assert ws == [ws[0]] + ws[1..];
      var rest := Largest(ws[1..]);
      if rest < ws[0] then ws[0] else rest
  }

  function Identity(): real -> real { (x: real) => x }

  function Square(): real -> real { (x: real) => Times(x, x) }

  function NonZero(ws: seq<real>): (n: nat)
    ensures n <= |ws|
  {
    if ws == [] then 0 else (if ws[0] > 0.0 then 1 else 0) + NonZero(ws[1..])
  }

  function Ess(ws: seq<real>): real {
    var s, q := Sum(ws, Identity()), Sum(ws, Square());
    if q > 0.0 then Times(s, s) / q else 0.0
  }

  lemma {:induction false} StatesPartition(records: seq<Record>)
    ensures CountOf(records, Eligible) + CountOf(records, Unobservable) + CountOf(records, CensoredImmature)
          + CountOf(records, IncompleteOutcome) + CountOf(records, OutOfSupport) == |records|
    ensures CountOf(records, Eligible) == |EligibleWeights(records)|
  {
    if records == [] {
    } else {
      StatesPartition(records[1..]);
    }
  }

  /** One pass over the records, counting states and collecting the eligible weights. */
  method CountStates(records: seq<Record>) returns (counts: map<Eligibility, nat>, ws: seq<real>)
    ensures forall e: Eligibility :: e in counts && counts[e] == CountOf(records, e)
    ensures ws == EligibleWeights(records)
  {
    counts := map[Eligible := 0, Unobservable := 0, CensoredImmature := 0, IncompleteOutcome := 0, OutOfSupport := 0];
    ws := [];
    forall e: Eligibility ensures e in counts && counts[e] == 0 {
      match e { case Eligible => case Unobservable => case CensoredImmature => case IncompleteOutcome => case OutOfSupport => }
    }
    var rest := records;
    while rest != []
      invariant forall e: Eligibility :: e in counts && counts[e] + CountOf(rest, e) == CountOf(records, e)
      invariant ws + EligibleWeights(rest) == EligibleWeights(records)
      decreases |rest|
    {
      var e := rest[0].eligibility;
      counts := counts[e := counts[e] + 1];
      if e == Eligible {
        ws := ws + [rest[0].weight];
      }
      rest := rest[1..];
    }
  }

  function Rate(part: nat, whole: nat): (r: real)
    requires whole > 0
    ensures Times(r, whole as real) == part as real
  {
    part as real / whole as real
  }

  /** Summarise one baseline's trials: every record is counted in exactly one state. */
  method SummariseSupport(records: seq<Record>) returns (result: Result<Support>)
    ensures result.Refused? <==> records == []
    ensures result.Ok? ==>
      var s := result.value;
      var ws := EligibleWeights(records);
      var sample := if ws == [] then [0.0] else ws;
      && s.total == |records|
      && s.eligible + s.unobservable + s.censored + s.incomplete + s.outOfSupport == s.total
      && s.eligible == |ws| && s.outOfSupport == CountOf(records, OutOfSupport)
      && s.unobservable == CountOf(records, Unobservable) && s.censored == CountOf(records, CensoredImmature)
      && Times(s.rate, s.total as real) == s.eligible as real
      && s.weightMax in sample && (forall w :: w in sample ==> w <= s.weightMax)
      && s.nonzero == NonZero(ws) && s.nonzero <= s.eligible && s.weightSum == Sum(ws, Identity()) && s.ess == Ess(ws)
      && Quantile(sample, 0.5) == Ok(s.p50) && Quantile(sample, 0.9) == Ok(s.p90) && Quantile(sample, 0.99) == Ok(s.p99)
  {
    if records == [] {
      return Refused;
    }
    var counts, ws := CountStates(records);
    StatesPartition(records);
    var sample := if ws == [] then [0.0] else ws;
    result := Ok(Support(|records|, counts[Eligible], counts[Unobservable], counts[CensoredImmature],
                         counts[IncompleteOutcome], counts[OutOfSupport], Rate(counts[Eligible], |records|),
                         NonZero(ws), Sum(ws, Identity()), Largest(sample),
                         Quantile(sample, 0.5).value, Quantile(sample, 0.9).value, Quantile(sample, 0.99).value, Ess(ws)));
  }
}
