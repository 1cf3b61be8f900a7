/** Which measurement sets are scored, and what the verdict on them says, without tables,
    sorting or folding: each aggregate is the median, found by counting, of its metric's values. */
module VerdictMeaning {
  import opened Options
  import opened Ordering
  import opened Verdicts
  import opened VerdictLaws

  // ----- the median, by counting -----

  function Lower(values: seq<real>): nat
    requires values != []
  {
    (|values| - 1) / 2
  }

  function Upper(values: seq<real>): nat {
    |values| / 2
  }

  /** The mean of the two middle values, which for an odd number of values are one. */
  ghost predicate IsMedian(values: seq<real>, x: real)
    requires values != []
  {
    exists lo, hi :: IsRank(values, Lower(values), lo) && IsRank(values, Upper(values), hi) && x == (lo + hi) / 2.0
  }

  lemma MedianIsMiddle(values: seq<real>, x: real)
    requires values != []
    ensures IsMedian(values, x) <==> x == Median(values)
  {
    var l, u, sorted := Lower(values), Upper(values), Sort(values);
    assert Median(values) == (sorted[l] + sorted[u]) / 2.0;
    RankByCounting(values, l, sorted[l]);
    RankByCounting(values, u, sorted[u]);
    if IsMedian(values, x) {
      var lo, hi :| IsRank(values, Lower(values), lo) && IsRank(values, Upper(values), hi) && x == (lo + hi) / 2.0;
      RankByCounting(values, l, lo);
      RankByCounting(values, u, hi);
    }
  }

  // ----- a metric's own measurements -----

  function ValuesOf(ms: seq<Measurement>, metric: string): seq<real> {
    if ms == [] then []
    else (if ms[0].metric == metric then [ms[0].value] else []) + ValuesOf(ms[1..], metric)
  }

  function SeedsOf(ms: seq<Measurement>, metric: string): seq<int> {
    if ms == [] then []
    else (if ms[0].metric == metric then [ms[0].seed] else []) + SeedsOf(ms[1..], metric)
  }

  predicate Repeats(x: Measurement, y: Measurement) {
    x.metric == y.metric && x.seed == y.seed
  }

  predicate Once(ms: seq<Measurement>) {
    forall i, j :: 0 <= i < j < |ms| ==> !Repeats(ms[i], ms[j])
  }

  lemma {:induction false} OnceIsNoRepeats(ms: seq<Measurement>)
    ensures Once(ms) <==> NoRepeats(ms)
  {
    if ms == [] {
      assert KeySet(ms) == {};
    } else {
      var front, x := ms[..|ms| - 1], ms[|ms| - 1];
      assert ms == front + [x];
      OnceIsNoRepeats(front);
      OnceStep(front, x);
      NoRepeatsAppend(front, x);
    }
  }

  lemma NoRepeatsAppend(front: seq<Measurement>, x: Measurement)
    ensures NoRepeats(front + [x]) <==> NoRepeats(front) && (x.metric, x.seed) !in KeySet(front)
  {
    KeySetAppend(front, x);
    KeySetBound([], front);
    assert [] + front == front && KeySet([]) == {};
  }

  lemma OnceStep(front: seq<Measurement>, x: Measurement)
    ensures Once(front + [x]) <==> Once(front) && (x.metric, x.seed) !in KeySet(front)
  {
    var ms := front + [x];
    if Once(ms) {
      forall i, j | 0 <= i < j < |front| ensures !Repeats(front[i], front[j]) {
        assert !Repeats(ms[i], ms[j]);
      }
      forall i | 0 <= i < |front| ensures !Repeats(front[i], x) {
        assert !Repeats(ms[i], ms[|front|]);
      }
    }
  }

  lemma {:induction false} SeedsOfHas(ms: seq<Measurement>, metric: string, s: int)
    ensures s in SeedsOf(ms, metric) <==> exists x :: x in ms && x.metric == metric && x.seed == s
  {
    if ms == [] {
    } else {
      SeedsOfHas(ms[1..], metric, s);
      assert forall x :: x in ms <==> x == ms[0] || x in ms[1..];
    }
  }

  predicate Different(s: seq<int>) {
    forall i, j :: 0 <= i < j < |s| ==> s[i] != s[j]
  }

  lemma {:induction false} SeedsOfDiffer(ms: seq<Measurement>, metric: string)
    requires Once(ms)
    ensures Different(SeedsOf(ms, metric))
  {
    if ms == [] {
    } else {
      SeedsOfDiffer(ms[1..], metric);
      SeedsOfHas(ms[1..], metric, ms[0].seed);
      forall k | 0 <= k < |ms[1..]| ensures !Repeats(ms[0], ms[1..][k]) {
        assert !Repeats(ms[0], ms[k + 1]);
      }
    }
  }

  /** Read off the table at its own seeds, a metric's values are those measured. */
  lemma {:induction false} ValuesAreRead(ms: seq<Measurement>, metric: string, values: map<int, real>)
    requires forall x :: x in ms && x.metric == metric ==> x.seed in values && values[x.seed] == x.value
    ensures SeedSet(SeedsOf(ms, metric)) <= values.Keys
    ensures ValuesAt(values, SeedsOf(ms, metric)) == ValuesOf(ms, metric)
  {
    if ms == [] {
    } else {
      assert ms[0] in ms && forall x :: x in ms[1..] ==> x in ms;
      ValuesAreRead(ms[1..], metric, values);
      var rest := SeedsOf(ms[1..], metric);
      if ms[0].metric == metric {
        var s := [ms[0].seed] + rest;
        assert s[1..] == rest;
        assert forall k :: k in s <==> k == ms[0].seed || k in rest;
        assert SeedSet(s) == {ms[0].seed} + SeedSet(rest);
      } else {
        assert [] + rest == rest && [] + ValuesOf(ms[1..], metric) == ValuesOf(ms[1..], metric);
      }
    }
  }

  lemma {:induction false} DifferentCounts(s: seq<int>, x: int)
    requires Different(s)
    ensures multiset(s)[x] == if x in s then 1 else 0
  {
    if s == [] {
    } else {
      DifferentCounts(s[1..], x);
      assert s == [s[0]] + s[1..];
    }
  }

  lemma SameSeeds(a: seq<int>, b: seq<int>)
    requires Different(a) && Different(b) && SeedSet(a) == SeedSet(b)
    ensures multiset(a) == multiset(b)
  {
    forall x ensures multiset(a)[x] == multiset(b)[x] {
      DifferentCounts(a, x);
      DifferentCounts(b, x);
      assert x in SeedSet(a) <==> x in a;
      assert x in SeedSet(b) <==> x in b;
    }
  }

  lemma {:induction false} ReadInAnyOrder(values: map<int, real>, a: seq<int>, b: seq<int>)
    requires SeedSet(a) <= values.Keys && SeedSet(b) <= values.Keys && multiset(a) == multiset(b)
    ensures multiset(ValuesAt(values, a)) == multiset(ValuesAt(values, b))
  {
    if a == [] {
      assert |multiset(b)| == 0;
    } else {
      var k := MatchHead(a, b);
      var rest := b[..k] + b[k + 1..];
      ReadWithout(values, b, k);
      assert SeedSet(a[1..]) <= SeedSet(a);
      ReadInAnyOrder(values, a[1..], rest);
      var us, vs := ValuesAt(values, a), ValuesAt(values, b);
      Behead(us);
      assert us[1..] == ValuesAt(values, a[1..]);
      RemoveOne(vs, k);
      PutBack(us[1..], vs[..k] + vs[k + 1..], us, vs, values[a[0]]);
    }
  }

  lemma PutBack(a: seq<real>, b: seq<real>, us: seq<real>, vs: seq<real>, x: real)
    requires multiset(a) == multiset(b) && x in us && x in vs
    requires multiset(a) == multiset(us) - multiset{x} && multiset(b) == multiset(vs) - multiset{x}
    ensures multiset(us) == multiset(vs)
  {
    assert multiset(us) == multiset(a) + multiset{x} && multiset(vs) == multiset(b) + multiset{x};
  }

  lemma ReadWithout(values: map<int, real>, b: seq<int>, k: nat)
    requires SeedSet(b) <= values.Keys && k < |b|
    ensures var rest := b[..k] + b[k + 1..];
      SeedSet(rest) <= values.Keys
      && ValuesAt(values, rest) == ValuesAt(values, b)[..k] + ValuesAt(values, b)[k + 1..]
  {
    var rest := b[..k] + b[k + 1..];
    assert forall x :: x in rest ==> x in b;
    assert SeedSet(rest) <= SeedSet(b);
  }

  /** With every declared seed measured once, the aggregate is the median of what was measured. */
  lemma AggregateIsMedian(ms: seq<Measurement>, metric: string, values: map<int, real>, seeds: seq<int>)
    requires Once(ms) && Different(seeds) && seeds != [] && values.Keys == SeedSet(seeds)
    requires forall x :: x in ms && x.metric == metric ==> x.seed in values && values[x.seed] == x.value
    requires forall s :: s in values ==> exists x :: x in ms && x.metric == metric && x.seed == s
    ensures |ValuesOf(ms, metric)| == |seeds| && IsMedian(ValuesOf(ms, metric), Median(ValuesAt(values, seeds)))
  {
    ValuesAreRead(ms, metric, values);
    SeedsOfDiffer(ms, metric);
    forall s ensures s in SeedsOf(ms, metric) <==> s in values {
      SeedsOfHas(ms, metric, s);
    }
    SameReading(values, SeedsOf(ms, metric), seeds);
    SameMedian(ValuesOf(ms, metric), ValuesAt(values, seeds));
  }

  lemma SameReading(values: map<int, real>, a: seq<int>, b: seq<int>)
    requires Different(a) && Different(b) && values.Keys == SeedSet(b) && forall s :: s in a <==> s in values
    ensures SeedSet(a) == values.Keys && multiset(ValuesAt(values, a)) == multiset(ValuesAt(values, b))
  {
    forall s ensures s in SeedSet(a) <==> s in SeedSet(b) {
      assert s in SeedSet(a) <==> s in a;
      assert s in SeedSet(b) <==> s in values;
    }
    assert SeedSet(a) == SeedSet(b);
    SameSeeds(a, b);
    ReadInAnyOrder(values, a, b);
  }

  lemma SameMedian(a: seq<real>, b: seq<real>)
    requires multiset(a) == multiset(b) && b != []
    ensures |a| == |b| && IsMedian(a, Median(b))
  {
    assert |multiset(a)| == |a| && |multiset(b)| == |b|;
    SortDependsOnlyOnContents(a, b);
    MedianIsMiddle(a, Median(b));
  }

  // ----- what is scored -----

  predicate Measured(ms: seq<Measurement>, metric: string) {
    exists x :: x in ms && x.metric == metric
  }

  predicate MeasuredAt(ms: seq<Measurement>, metric: string, seed: int) {
    exists x :: x in ms && x.metric == metric && x.seed == seed
  }

  /** Every declared seed was measured for the metric, and no other. */
  ghost predicate Complete(ms: seq<Measurement>, metric: string, seeds: seq<int>) {
    forall s :: MeasuredAt(ms, metric, s) <==> s in seeds
  }

  predicate Declared(p: Protocol, metric: string) {
    exists i :: 0 <= i < |p.metrics| && p.metrics[i].name == metric
  }

  /** The set was taken for this protocol: seal, epoch, corpus, and the holdout for the final verdict only. */
  ghost predicate TakenFor(p: Protocol, m: MeasurementSet) {
    && ValidProtocol(p) && ValidMeasurements(m)
    && m.protocolSeal == SealOf(p) && m.epoch == p.epoch
    && SplitSpec(m.split, m.corpus) in p.splits
    && (m.split == HoldoutSplit <==> m.purpose == FinalVerdict)
  }

  /** The declared metrics are all measured completely, or not at all where that is allowed. */
  ghost predicate AllComplete(p: Protocol, ms: seq<Measurement>) {
    && (forall spec :: spec in p.metrics && spec.required ==> Measured(ms, spec.name))
    && (forall spec :: spec in p.metrics && Measured(ms, spec.name) ==> Complete(ms, spec.name, p.seeds))
  }

  /** Everything a verdict needs: nothing measured twice, nothing undeclared, no required metric left
      out, and no metric measured on some of its seeds only. */
  ghost predicate Scorable(p: Protocol, m: MeasurementSet) {
    && TakenFor(p, m) && Once(m.measurements)
    && (forall x :: x in m.measurements ==> Declared(p, x.metric))
    && AllComplete(p, m.measurements)
  }

  /** One metric's entry in the verdict. */
  ghost predicate Judges(v: MetricVerdict, spec: MetricSpec, ms: seq<Measurement>, seeds: seq<int>) {
    var values := ValuesOf(ms, spec.name);
    && v.name == spec.name && v.direction == spec.direction && v.threshold == spec.threshold && v.required == spec.required
    && v.seedCount == |values| == |seeds| && values != [] && IsMedian(values, v.aggregate)
    && (v.passed <==> match spec.direction
                      case HigherIsBetter => v.aggregate >= spec.threshold
                      case LowerIsBetter => v.aggregate <= spec.threshold)
  }

  predicate Fails(vs: seq<MetricVerdict>, n: string) {
    exists i :: 0 <= i < |vs| && vs[i].name == n && vs[i].required && !vs[i].passed
  }

  ghost predicate AllJudged(vs: seq<MetricVerdict>, p: Protocol, ms: seq<Measurement>) {
    && (forall i :: 0 <= i < |vs| ==> exists spec :: spec in p.metrics && Judges(vs[i], spec, ms, p.seeds))
    && (forall spec :: spec in p.metrics && Measured(ms, spec.name) ==> Named(vs, spec.name))
  }

  /** The failing metrics are the required ones that did not pass, by name, and any kills. */
  ghost predicate Decided(decision: Decision, failing: seq<string>, vs: seq<MetricVerdict>) {
    && Sorted(failing) && (forall n :: n in failing <==> Fails(vs, n))
    && (decision == Kill <==> exists i :: 0 <= i < |vs| && vs[i].required && !vs[i].passed)
  }

  /** Exactly the measured metrics are judged, in the order of their names; the decision is KILL
      exactly when a required one fails. */
  ghost predicate Describing(v: Verdict, p: Protocol, m: MeasurementSet) {
    && v.protocolId == p.id && v.protocolSeal == m.protocolSeal && v.corpus == m.corpus && v.epoch == m.epoch
    && v.split == m.split && v.purpose == m.purpose
    && VerdictsAscend(v.metrics) && AllJudged(v.metrics, p, m.measurements)
    && Decided(v.decision, v.failing, v.metrics)
  }

  // ----- the header -----

  lemma {:induction false} CorpusFound(splits: seq<SplitSpec>, split: Split, corpus: string)
    requires forall i, j :: 0 <= i < j < |splits| ==> splits[i].split != splits[j].split
    ensures CorpusOf(splits, split) == Some(corpus) <==> SplitSpec(split, corpus) in splits
  {
    if splits == [] {
    } else {
      CorpusFound(splits[1..], split, corpus);
      assert forall x :: x in splits <==> x == splits[0] || x in splits[1..];
    }
  }

  /** What a refusal says is wrong is wrong. */
  ghost predicate Cause(p: Protocol, m: MeasurementSet, f: Fault) {
    var ms := m.measurements;
    match f
    case InvalidProtocol => !ValidProtocol(p)
    case InvalidMeasurements => !ValidMeasurements(m)
    case OtherProtocol => m.protocolSeal != SealOf(p)
    case OtherEpoch => m.epoch != p.epoch
    case OtherCorpus => SplitSpec(m.split, m.corpus) !in p.splits
    case HoldoutMisused => m.split == HoldoutSplit && m.purpose != FinalVerdict
    case NotTheHoldout => m.split != HoldoutSplit && m.purpose == FinalVerdict
    case DuplicateMeasurement => !Once(ms)
    case UnknownMetric => exists x :: x in ms && !Declared(p, x.metric)
    case RequiredMissing => exists spec :: spec in p.metrics && spec.required && !Measured(ms, spec.name)
    case SeedsMissing =>
      exists spec :: spec in p.metrics && Measured(ms, spec.name) && !Complete(ms, spec.name, p.seeds)
  }

  lemma HeaderDecides(p: Protocol, m: MeasurementSet)
    ensures HeaderFault(p, m) == None <==> TakenFor(p, m)
    ensures HeaderFault(p, m).Some? ==> Cause(p, m, HeaderFault(p, m).value)
  {
    if ValidProtocol(p) {
      CorpusFound(p.splits, m.split, m.corpus);
    }
  }

  // ----- the metrics -----

  predicate CompleteIn(spec: MetricSpec, table: Table, seeds: seq<int>) {
    if spec.name in table then table[spec.name].Keys == SeedSet(seeds) else !spec.required
  }

  function JudgedFrom(spec: MetricSpec, table: Table, seeds: seq<int>): MetricVerdict
    requires seeds != [] && spec.name in table && table[spec.name].Keys == SeedSet(seeds)
  {
    var x := Median(ValuesAt(table[spec.name], seeds));
    MetricVerdict(spec.name, spec.direction, spec.threshold, x, |seeds|, spec.required, Passes(spec, x))
  }

  ghost predicate JudgedIn(v: MetricVerdict, specs: seq<MetricSpec>, table: Table, seeds: seq<int>)
    requires seeds != []
  {
    exists spec :: spec in specs && spec.name in table && table[spec.name].Keys == SeedSet(seeds)
                   && v == JudgedFrom(spec, table, seeds)
  }

  lemma {:induction false} ScoreAllDecides(specs: seq<MetricSpec>, table: Table, seeds: seq<int>)
    requires seeds != []
    ensures var r := ScoreAll(specs, table, seeds);
      && (r.Ok? <==> forall spec :: spec in specs ==> CompleteIn(spec, table, seeds))
      && (r.Err? ==> r.fault in {RequiredMissing, SeedsMissing})
      && (r == Err(RequiredMissing) ==> exists spec :: spec in specs && spec.required && spec.name !in table)
      && (r == Err(SeedsMissing) ==>
            exists spec :: spec in specs && spec.name in table && table[spec.name].Keys != SeedSet(seeds))
  {
    if specs == [] {
    } else {
      ScoreAllDecides(specs[1..], table, seeds);
      assert forall x :: x in specs <==> x == specs[0] || x in specs[1..];
      assert ScoreMetric(specs[0], table, seeds).Ok? <==> CompleteIn(specs[0], table, seeds);
    }
  }

  lemma {:induction false} ScoreAllJudges(specs: seq<MetricSpec>, table: Table, seeds: seq<int>)
    requires seeds != [] && ScoreAll(specs, table, seeds).Ok?
    ensures var vs := ScoreAll(specs, table, seeds).value;
      && (forall v :: v in vs ==> JudgedIn(v, specs, table, seeds))
      && (forall spec :: spec in specs && spec.name in table ==> Named(vs, spec.name))
  {
    if specs == [] {
    } else {
      ScoreAllJudges(specs[1..], table, seeds);
      var vs, rest := ScoreAll(specs, table, seeds).value, ScoreAll(specs[1..], table, seeds).value;
      assert forall x :: x in specs <==> x == specs[0] || x in specs[1..];
      forall v | v in vs ensures JudgedIn(v, specs, table, seeds) {
        if v in rest {
          assert JudgedIn(v, specs[1..], table, seeds);
        } else {
          assert v == JudgedFrom(specs[0], table, seeds);
        }
      }
      forall x | x in specs && x.name in table ensures Named(vs, x.name) {
        if x == specs[0] {
          assert vs[0].name == x.name;
        } else {
          NamedLater(rest, vs, x.name);
        }
      }
    }
  }

  lemma NamedLater(rest: seq<MetricVerdict>, vs: seq<MetricVerdict>, n: string)
    requires Named(rest, n) && |rest| <= |vs| && vs[|vs| - |rest|..] == rest
    ensures Named(vs, n)
  {
    var i :| 0 <= i < |rest| && rest[i].name == n;
    assert vs[|vs| - |rest| + i] == rest[i];
  }

  // ----- the table says what was measured -----

  lemma TableSays(ms: seq<Measurement>, t: Table, metric: string)
    requires Describes(t, ms)
    ensures metric in t <==> Measured(ms, metric)
    ensures metric in t ==> forall s :: s in t[metric] <==> MeasuredAt(ms, metric, s)
  {
    forall x | x in ms && x.metric == metric ensures metric in t && x.seed in t[metric] {
      assert Taken(t, x);
    }
    if metric in t {
      forall s | s in t[metric] ensures MeasuredAt(ms, metric, s) {
        assert (metric, s) in KeySet(ms);
      }
    }
  }

  lemma SeedsSay(ms: seq<Measurement>, metric: string, keys: set<int>, seeds: seq<int>)
    requires forall s :: s in keys <==> MeasuredAt(ms, metric, s)
    ensures Complete(ms, metric, seeds) <==> keys == SeedSet(seeds)
  {
    forall s ensures s in SeedSet(seeds) <==> s in seeds {}
    if Complete(ms, metric, seeds) {
      forall s ensures s in keys <==> s in SeedSet(seeds) {}
    } else {
      var s :| MeasuredAt(ms, metric, s) != (s in seeds);
      assert (s in keys) != (s in SeedSet(seeds));
    }
  }

  lemma CompleteSays(ms: seq<Measurement>, t: Table, spec: MetricSpec, seeds: seq<int>)
    requires Describes(t, ms)
    ensures CompleteIn(spec, t, seeds)
      <==> (spec.required ==> Measured(ms, spec.name)) && (Measured(ms, spec.name) ==> Complete(ms, spec.name, seeds))
    ensures spec.name in t ==> (Complete(ms, spec.name, seeds) <==> t[spec.name].Keys == SeedSet(seeds))
  {
    TableSays(ms, t, spec.name);
    if spec.name in t {
      SeedsSay(ms, spec.name, t[spec.name].Keys, seeds);
    } else {
      assert !Measured(ms, spec.name);
    }
  }

  lemma JudgedSays(ms: seq<Measurement>, t: Table, spec: MetricSpec, seeds: seq<int>)
    requires Describes(t, ms) && Once(ms) && Different(seeds) && seeds != []
    requires spec.name in t && t[spec.name].Keys == SeedSet(seeds)
    ensures Judges(JudgedFrom(spec, t, seeds), spec, ms, seeds)
  {
    TableSays(ms, t, spec.name);
    forall x | x in ms && x.metric == spec.name ensures x.seed in t[spec.name] && t[spec.name][x.seed] == x.value {
      assert Taken(t, x);
    }
    forall s | s in t[spec.name] ensures exists x :: x in ms && x.metric == spec.name && x.seed == s {
      assert MeasuredAt(ms, spec.name, s);
    }
    AggregateIsMedian(ms, spec.name, t[spec.name], seeds);
  }

  lemma {:induction false} FailingAre(vs: seq<MetricVerdict>)
    ensures forall n :: n in FailingOf(vs) <==> Fails(vs, n)
    ensures FailingOf(vs) == [] <==> forall i :: 0 <= i < |vs| ==> !(vs[i].required && !vs[i].passed)
  {
    if vs == [] {
    } else {
      FailingAre(vs[1..]);
      forall n ensures n in FailingOf(vs) <==> Fails(vs, n) {
        FailsCons(vs, n);
      }
      assert forall i :: 0 < i < |vs| ==> vs[i] == vs[1..][i - 1];
      assert forall i :: 0 <= i < |vs[1..]| ==> vs[1..][i] == vs[i + 1];
    }
  }

  lemma FailsCons(vs: seq<MetricVerdict>, n: string)
    requires vs != []
    ensures Fails(vs, n) <==> (vs[0].name == n && vs[0].required && !vs[0].passed) || Fails(vs[1..], n)
  {
    if Fails(vs[1..], n) {
      var i :| 0 <= i < |vs[1..]| && vs[1..][i].name == n && vs[1..][i].required && !vs[1..][i].passed;
      assert vs[i + 1] == vs[1..][i];
    }
    if Fails(vs, n) {
      var i :| 0 <= i < |vs| && vs[i].name == n && vs[i].required && !vs[i].passed;
      assert i > 0 ==> vs[1..][i - 1] == vs[i];
    }
  }

  lemma SeedsDiffer(p: Protocol)
    requires ValidProtocol(p)
    ensures Different(p.seeds) && p.seeds != []
  {
  }

  predicate Unknown(p: Protocol, t: Table) {
    exists name :: name in t && forall i :: 0 <= i < |p.metrics| ==> p.metrics[i].name != name
  }

  lemma UnknownSays(p: Protocol, ms: seq<Measurement>, t: Table)
    requires Describes(t, ms)
    ensures Unknown(p, t) <==> exists x :: x in ms && !Declared(p, x.metric)
  {
    if x :| x in ms && !Declared(p, x.metric) {
      assert Taken(t, x);
      assert forall i :: 0 <= i < |p.metrics| ==> p.metrics[i].name != x.metric;
    }
    if name :| name in t && forall i :: 0 <= i < |p.metrics| ==> p.metrics[i].name != name {
      TableSays(ms, t, name);
      var x :| x in ms && x.metric == name;
      assert !Declared(p, x.metric);
    }
  }

  lemma CompletenessSays(p: Protocol, ms: seq<Measurement>, t: Table)
    requires Describes(t, ms)
    ensures (forall spec :: spec in p.metrics ==> CompleteIn(spec, t, p.seeds)) <==> AllComplete(p, ms)
  {
    forall spec | spec in p.metrics
      ensures CompleteIn(spec, t, p.seeds)
        <==> (spec.required ==> Measured(ms, spec.name)) && (Measured(ms, spec.name) ==> Complete(ms, spec.name, p.seeds))
    {
      CompleteSays(ms, t, spec, p.seeds);
    }
  }

  lemma MetricsDecide(p: Protocol, m: MeasurementSet, t: Table)
    requires ValidProtocol(p) && Describes(t, m.measurements)
    ensures var r := ScoreAll(SortByName(p.metrics), t, p.seeds);
      (r.Ok? <==> AllComplete(p, m.measurements)) && (r.Err? ==> Cause(p, m, r.fault))
  {
    var ms, specs := m.measurements, SortByName(p.metrics);
    SortByNameFacts(p.metrics);
    ScoreAllDecides(specs, t, p.seeds);
    CompletenessSays(p, ms, t);
    var r := ScoreAll(specs, t, p.seeds);
    if r == Err(RequiredMissing) {
      var spec :| spec in specs && spec.required && spec.name !in t;
      TableSays(ms, t, spec.name);
      assert spec in p.metrics;
    } else if r == Err(SeedsMissing) {
      var spec :| spec in specs && spec.name in t && t[spec.name].Keys != SeedSet(p.seeds);
      TableSays(ms, t, spec.name);
      CompleteSays(ms, t, spec, p.seeds);
      assert spec in p.metrics;
    }
  }

  lemma ScoreTableIs(p: Protocol, m: MeasurementSet, t: Table)
    requires p.seeds != []
    ensures ScoreTable(p, m, t)
      == if Unknown(p, t) then Err(UnknownMetric)
         else match ScoreAll(SortByName(p.metrics), t, p.seeds)
              case Err(f) => Err(f)
              case Ok(scored) => Ok(VerdictOf(p, m, scored))
  {
  }

  /** Scoring a table that describes the measurements. */
  lemma TableDecides(p: Protocol, m: MeasurementSet, t: Table)
    requires TakenFor(p, m) && Describes(t, m.measurements) && Once(m.measurements)
    ensures ScoreTable(p, m, t).Ok? <==> Scorable(p, m)
    ensures ScoreTable(p, m, t).Err? ==> Cause(p, m, ScoreTable(p, m, t).fault)
  {
    SeedsDiffer(p);
    ScoreTableIs(p, m, t);
    UnknownSays(p, m.measurements, t);
    MetricsDecide(p, m, t);
  }

  lemma MetricsAreJudged(p: Protocol, m: MeasurementSet, t: Table, vs: seq<MetricVerdict>)
    requires ValidProtocol(p) && Describes(t, m.measurements) && Once(m.measurements)
    requires ScoreAll(SortByName(p.metrics), t, p.seeds) == Ok(vs)
    ensures AllJudged(vs, p, m.measurements)
  {
    var ms, specs := m.measurements, SortByName(p.metrics);
    SortByNameFacts(p.metrics);
    SeedsDiffer(p);
    ScoreAllJudges(specs, t, p.seeds);
    forall i | 0 <= i < |vs| ensures exists spec :: spec in p.metrics && Judges(vs[i], spec, ms, p.seeds) {
      assert JudgedIn(vs[i], specs, t, p.seeds);
      var spec :| spec in specs && spec.name in t && t[spec.name].Keys == SeedSet(p.seeds) && vs[i] == JudgedFrom(spec, t, p.seeds);
      JudgedSays(ms, t, spec, p.seeds);
    }
    forall spec | spec in p.metrics && Measured(ms, spec.name) ensures Named(vs, spec.name) {
      TableSays(ms, t, spec.name);
    }
  }

  lemma TableDescribes(p: Protocol, m: MeasurementSet, t: Table)
    requires TakenFor(p, m) && Describes(t, m.measurements) && Once(m.measurements) && ScoreTable(p, m, t).Ok?
    ensures Describing(ScoreTable(p, m, t).value, p, m)
  {
    var vs := ScoreAll(SortByName(p.metrics), t, p.seeds).value;
    assert ScoreTable(p, m, t).value == VerdictOf(p, m, vs);
    SortByNameFacts(p.metrics);
    ScoreAllFacts(SortByName(p.metrics), t, p.seeds);
    MetricsAreJudged(p, m, t, vs);
    FailingDecides(vs);
  }

  lemma FailingDecides(vs: seq<MetricVerdict>)
    requires VerdictsAscend(vs)
    ensures Decided(if FailingOf(vs) != [] then Kill else Continue, FailingOf(vs), vs)
  {
    FailingIsSorted(vs);
    FailingAre(vs);
  }

  // ----- main result -----

  /** A set is scored exactly when it was taken for the protocol and is complete, and the verdict then
      says of each measured metric, and of no other, whether the median of exactly its measurements
      meets its threshold; a refusal names a cause that is there. */
  lemma ScoreMeans(p: Protocol, m: MeasurementSet)
    ensures var r := Score(p, m);
      && (r.Ok? <==> Scorable(p, m))
      && (r.Ok? ==> Describing(r.value, p, m))
      && (r.Err? ==> Cause(p, m, r.fault))
  {
    HeaderDecides(p, m);
    var ms := m.measurements;
    OnceIsNoRepeats(ms);
    assert [] + ms == ms && KeySet([]) == {};
    CollectDescribes([], ms, map[]);
    if TakenFor(p, m) && Once(ms) {
      var t := Collect(ms, map[]).value;
      TableDecides(p, m, t);
      if ScoreTable(p, m, t).Ok? {
        TableDescribes(p, m, t);
      }
    }
  }
}
