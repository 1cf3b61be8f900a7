/** What a verdict means, and what it does not depend on. */
module VerdictLaws {
  import opened Options
  import opened Ordering
  import opened Verdicts

  // ----- the verdict's own validator accepts every scored verdict -----

  predicate Sorted(names: seq<string>) {
    forall i, j :: 0 <= i < j < |names| ==> AtMost(names[i], names[j])
  }

  /** Taken over some seed, with a flag that reproduces from the aggregate. */
  predicate FlagReproduces(v: MetricVerdict) {
    && v.seedCount >= 1
    && (v.passed <==> if v.direction.HigherIsBetter? then v.aggregate >= v.threshold else v.aggregate <= v.threshold)
  }

  /** Some metric was scored, names are unique, flags reproduce from the aggregates, the failing list is the sorted
      list of failing required metrics, and the decision reproduces from it. */
  predicate ValidVerdict(v: Verdict) {
    && v.metrics != []
    && (forall i, j :: 0 <= i < j < |v.metrics| ==> v.metrics[i].name != v.metrics[j].name)
    && (forall i :: 0 <= i < |v.metrics| ==> FlagReproduces(v.metrics[i]))
    && Sorted(v.failing) && multiset(v.failing) == multiset(FailingOf(v.metrics))
    && (v.decision == Kill <==> v.failing != [])
  }

  predicate NamesAscend(specs: seq<MetricSpec>) {
    forall i, j :: 0 <= i < j < |specs| ==> AtMost(specs[i].name, specs[j].name) && specs[i].name != specs[j].name
  }

  lemma {:induction false} InsertByNameFacts(x: MetricSpec, s: seq<MetricSpec>)
    requires NamesAscend(s) && forall i :: 0 <= i < |s| ==> s[i].name != x.name
    ensures var r := InsertByName(x, s);
      NamesAscend(r) && |r| == |s| + 1 && forall y :: y in r <==> y == x || y in s
  {
    if s == [] {
    } else {
      if AtMost(x.name, s[0].name) {
        forall i | 0 <= i < |s| ensures AtMost(x.name, s[i].name) {
          if i > 0 { AtMostTransitive(x.name, s[0].name, s[i].name); }
        }
      } else {
        AtMostTotal(x.name, s[0].name);
        InsertByNameFacts(x, s[1..]);
        var r := InsertByName(x, s[1..]);
        forall i | 0 <= i < |r| ensures AtMost(s[0].name, r[i].name) && s[0].name != r[i].name {
          assert r[i] in r;
          if r[i] != x {
            var k :| 0 <= k < |s[1..]| && s[1..][k] == r[i];
            assert s[k + 1] == r[i];
          }
        }
        assert s == [s[0]] + s[1..];
      }
    }
  }

  lemma {:induction false} SortByNameFacts(s: seq<MetricSpec>)
    requires DistinctNames(s)
    ensures var r := SortByName(s);
      NamesAscend(r) && |r| == |s| && forall y :: y in r <==> y in s
  {
    if s == [] {
    } else {
      SortByNameFacts(s[1..]);
      forall i | 0 <= i < |SortByName(s[1..])| ensures SortByName(s[1..])[i].name != s[0].name {
        assert SortByName(s[1..])[i] in s[1..];
        var k :| 0 <= k < |s[1..]| && s[1..][k] == SortByName(s[1..])[i];
        assert s[k + 1].name != s[0].name;
      }
      InsertByNameFacts(s[0], SortByName(s[1..]));
      assert s == [s[0]] + s[1..];
    }
  }

  /** The scored metrics, in order, come from specs in the same order. */
  predicate ComesFrom(v: MetricVerdict, specs: seq<MetricSpec>) {
    exists i :: 0 <= i < |specs| && specs[i].name == v.name
  }

  predicate VerdictsAscend(vs: seq<MetricVerdict>) {
    forall i, j :: 0 <= i < j < |vs| ==> AtMost(vs[i].name, vs[j].name) && vs[i].name != vs[j].name
  }

  lemma {:induction false} ScoreAllFacts(specs: seq<MetricSpec>, table: Table, seeds: seq<int>)
    requires seeds != [] && NamesAscend(specs) && ScoreAll(specs, table, seeds).Ok?
    ensures var vs := ScoreAll(specs, table, seeds).value;
      VerdictsAscend(vs) && forall i :: 0 <= i < |vs| ==> ComesFrom(vs[i], specs) && FlagReproduces(vs[i])
  {
    if specs == [] {
    } else {
      var later := specs[1..];
      ScoreAllFacts(later, table, seeds);
      var rest := ScoreAll(later, table, seeds).value;
      forall i | 0 <= i < |rest|
        ensures ComesFrom(rest[i], specs) && AtMost(specs[0].name, rest[i].name) && specs[0].name != rest[i].name
      {
        assert ComesFrom(rest[i], later);
        var k :| 0 <= k < |later| && later[k].name == rest[i].name;
        assert specs[k + 1].name == rest[i].name;
      }
      PresentFacts(specs, ScoreMetric(specs[0], table, seeds).value, rest);
    }
  }

  lemma PresentFacts(specs: seq<MetricSpec>, v: Option<MetricVerdict>, rest: seq<MetricVerdict>)
    requires specs != [] && (v.Some? ==> v.value.name == specs[0].name && FlagReproduces(v.value))
    requires VerdictsAscend(rest)
    requires forall i :: 0 <= i < |rest| ==>
      && ComesFrom(rest[i], specs) && FlagReproduces(rest[i])
      && AtMost(specs[0].name, rest[i].name) && specs[0].name != rest[i].name
    ensures var vs := Present(v) + rest;
      VerdictsAscend(vs) && forall i :: 0 <= i < |vs| ==> ComesFrom(vs[i], specs) && FlagReproduces(vs[i])
  {
  }

  predicate Named(vs: seq<MetricVerdict>, n: string) {
    exists i :: 0 <= i < |vs| && vs[i].name == n
  }

  lemma {:induction false} FailingIsSorted(vs: seq<MetricVerdict>)
    requires VerdictsAscend(vs)
    ensures Sorted(FailingOf(vs)) && forall n :: n in FailingOf(vs) ==> Named(vs, n)
  {
    if vs == [] {
    } else {
      var rest := vs[1..];
      FailingIsSorted(rest);
      forall n | n in FailingOf(rest) ensures Named(vs, n) && AtMost(vs[0].name, n) {
        var k :| 0 <= k < |rest| && rest[k].name == n;
        assert vs[k + 1].name == n;
      }
      if FailingOf(vs) != FailingOf(rest) {
        var f := FailingOf(rest);
        forall i | 0 <= i < |f| ensures AtMost(vs[0].name, f[i]) {
          assert f[i] in f;
        }
        assert vs[0].name == vs[0].name && Named(vs, vs[0].name);
        assert FailingOf(vs) == [vs[0].name] + f;
      }
    }
  }

  /** A required metric is scored, or the set is refused. */
  lemma {:induction false} RequiredIsScored(specs: seq<MetricSpec>, table: Table, seeds: seq<int>, i: nat)
    requires seeds != [] && i < |specs| && specs[i].required && ScoreAll(specs, table, seeds).Ok?
    ensures ScoreAll(specs, table, seeds).value != []
  {
    if i == 0 {
    } else {
      RequiredIsScored(specs[1..], table, seeds, i - 1);
    }
  }

  /** Whatever is scored passes its own validation: no scored verdict is refused at the end. */
  lemma ScoredVerdictIsValid(p: Protocol, m: MeasurementSet)
    requires Score(p, m).Ok?
    ensures ValidVerdict(Score(p, m).value)
  {
    var v := Score(p, m).value;
    var table := Collect(m.measurements, map[]).value;
    SortByNameFacts(p.metrics);
    var specs := SortByName(p.metrics);
    ScoreAllFacts(specs, table, p.seeds);
    FailingIsSorted(v.metrics);
    var i :| 0 <= i < |p.metrics| && p.metrics[i].required;
    assert p.metrics[i] in specs;
    var k :| 0 <= k < |specs| && specs[k] == p.metrics[i];
    RequiredIsScored(specs, table, p.seeds, k);
  }

  // ----- monotonicity -----

  predicate Better(d: Direction, a: real, b: real) {
    if d.HigherIsBetter? then a <= b else b <= a
  }

  /** `y` is `x` moved, if at all, in the declared better direction of its metric. */
  predicate ImprovedOn(p: Protocol, x: Measurement, y: Measurement) {
    && y == x.(value := y.value)
    && forall i :: 0 <= i < |p.metrics| && p.metrics[i].name == x.metric ==>
         Better(p.metrics[i].direction, x.value, y.value)
  }

  predicate TableImproved(metrics: seq<MetricSpec>, t: Table, u: Table) {
    && t.Keys == u.Keys
    && (forall name :: name in t ==> t[name].Keys == u[name].Keys)
    && forall i, s :: 0 <= i < |metrics| && metrics[i].name in t && s in t[metrics[i].name] ==>
         Better(metrics[i].direction, t[metrics[i].name][s], u[metrics[i].name][s])
  }

  lemma {:induction false} CollectImproved(p: Protocol, xs: seq<Measurement>, ys: seq<Measurement>, t: Table, u: Table)
    requires |xs| == |ys| && (forall i :: 0 <= i < |xs| ==> ImprovedOn(p, xs[i], ys[i])) && TableImproved(p.metrics, t, u)
    ensures var a, b := Collect(xs, t), Collect(ys, u);
      if a.Err? then b == a else b.Ok? && TableImproved(p.metrics, a.value, b.value)
    decreases |xs|
  {
    if xs == [] {
    } else {
      assert ImprovedOn(p, xs[0], ys[0]);
      if !Taken(t, xs[0]) {
        var t1, u1 := Recorded(t, xs[0]), Recorded(u, ys[0]);
        forall name | name in t1 ensures t1[name].Keys == u1[name].Keys {}
        CollectImproved(p, xs[1..], ys[1..], t1, u1);
      }
    }
  }

  lemma MedianMonotone(s: seq<real>, t: seq<real>)
    requires Dominated(s, t) && s != []
    ensures Median(s) <= Median(t)
  {
    SortMonotone(s, t);
  }

  lemma PassKept(spec: MetricSpec, t: map<int, real>, u: map<int, real>, seeds: seq<int>)
    requires seeds != [] && SeedSet(seeds) == t.Keys == u.Keys
    requires forall s :: s in t ==> Better(spec.direction, t[s], u[s])
    ensures Passes(spec, Median(ValuesAt(t, seeds))) ==> Passes(spec, Median(ValuesAt(u, seeds)))
  {
    var a, b := ValuesAt(t, seeds), ValuesAt(u, seeds);
    forall i | 0 <= i < |seeds| ensures Better(spec.direction, a[i], b[i]) {
      var x := seeds[i];
      assert a[i] == t[x] && b[i] == u[x];
      assert Better(spec.direction, t[x], u[x]);
    }
    if spec.direction.HigherIsBetter? {
      MedianMonotone(a, b);
    } else {
      MedianMonotone(b, a);
    }
  }

  lemma {:induction false} ScoreAllImproved(specs: seq<MetricSpec>, t: Table, u: Table, seeds: seq<int>)
    requires seeds != [] && TableImproved(specs, t, u)
    ensures var a, b := ScoreAll(specs, t, seeds), ScoreAll(specs, u, seeds);
      if a.Err? then b == a else b.Ok? && (FailingOf(a.value) == [] ==> FailingOf(b.value) == [])
  {
    if specs == [] {
    } else {
      forall i, s | 0 <= i < |specs[1..]| && specs[1..][i].name in t && s in t[specs[1..][i].name]
        ensures Better(specs[1..][i].direction, t[specs[1..][i].name][s], u[specs[1..][i].name][s])
      {
        assert specs[i + 1] == specs[1..][i];
      }
      ScoreAllImproved(specs[1..], t, u, seeds);
      var spec := specs[0];
      if spec.name in t && t[spec.name].Keys == SeedSet(seeds) {
        forall s | s in t[spec.name] ensures Better(spec.direction, t[spec.name][s], u[spec.name][s]) {
          assert specs[0].name in t;
        }
        PassKept(spec, t[spec.name], u[spec.name], seeds);
      }
      var a, b := ScoreMetric(spec, t, seeds), ScoreMetric(spec, u, seeds);
      if a.Ok? && a.value.Some? && ScoreAll(specs[1..], t, seeds).Ok? {
        var ra, rb := ScoreAll(specs[1..], t, seeds).value, ScoreAll(specs[1..], u, seeds).value;
        assert ([a.value.value] + ra)[1..] == ra && ([b.value.value] + rb)[1..] == rb;
      } else if a.Ok? && ScoreAll(specs[1..], t, seeds).Ok? {
        var ra, rb := ScoreAll(specs[1..], t, seeds).value, ScoreAll(specs[1..], u, seeds).value;
        assert [] + ra == ra && [] + rb == rb;
      }
    }
  }

  lemma HeaderSeesOnlySplits(p: Protocol, m: MeasurementSet, other: seq<Measurement>)
    requires |other| == |m.measurements|
    requires forall i :: 0 <= i < |other| ==> other[i].split == m.measurements[i].split
    ensures HeaderFault(p, m.(measurements := other)) == HeaderFault(p, m)
  {
  }

  lemma SortedTableImproved(metrics: seq<MetricSpec>, t: Table, u: Table)
    requires DistinctNames(metrics) && TableImproved(metrics, t, u)
    ensures TableImproved(SortByName(metrics), t, u)
  {
    SortByNameFacts(metrics);
    var specs := SortByName(metrics);
    forall i, s | 0 <= i < |specs| && specs[i].name in t && s in t[specs[i].name]
      ensures Better(specs[i].direction, t[specs[i].name][s], u[specs[i].name][s])
    {
      assert specs[i] in metrics;
      var k :| 0 <= k < |metrics| && metrics[k] == specs[i];
      assert metrics[k].name in t;
    }
  }

  lemma ScoreTableImproved(p: Protocol, m: MeasurementSet, m1: MeasurementSet, t: Table, u: Table)
    requires p.seeds != [] && DistinctNames(p.metrics) && TableImproved(p.metrics, t, u)
    ensures var a, b := ScoreTable(p, m, t), ScoreTable(p, m1, u);
      if a.Err? then b == a else b.Ok? && (a.value.decision == Continue ==> b.value.decision == Continue)
  {
    SortedTableImproved(p.metrics, t, u);
    ScoreAllImproved(SortByName(p.metrics), t, u, p.seeds);
  }

  /** Moving measurements in their metrics' better directions never turns CONTINUE into
      KILL, nor an accepted measurement set into a refused one. */
  lemma ImprovementNeverKills(p: Protocol, m: MeasurementSet, better: seq<Measurement>)
    requires |better| == |m.measurements|
    requires forall i :: 0 <= i < |better| ==> ImprovedOn(p, m.measurements[i], better[i])
    ensures var a, b := Score(p, m), Score(p, m.(measurements := better));
      if a.Err? then b == a else b.Ok? && (a.value.decision == Continue ==> b.value.decision == Continue)
  {
    var m1 := m.(measurements := better);
    forall i | 0 <= i < |better| ensures better[i].split == m.measurements[i].split {
      assert ImprovedOn(p, m.measurements[i], better[i]);
    }
    HeaderSeesOnlySplits(p, m, better);
    CollectImproved(p, m.measurements, better, map[], map[]);
    var a, b := Collect(m.measurements, map[]), Collect(better, map[]);
    if a.Ok? && ValidProtocol(p) {
      ScoreTableImproved(p, m, m1, a.value, b.value);
    }
  }

  // ----- order of the measurements -----

  function KeySet(ms: seq<Measurement>): set<(string, int)> {
    set x | x in ms :: (x.metric, x.seed)
  }

  /** The table holds exactly the given measurements. */
  ghost predicate Describes(t: Table, ms: seq<Measurement>) {
    && (forall x :: x in ms ==> Taken(t, x) && t[x.metric][x.seed] == x.value)
    && (forall name :: name in t ==> exists x :: x in ms && x.metric == name)
    && (forall name, s :: name in t && s in t[name] ==> (name, s) in KeySet(ms))
  }

  lemma KeySetAppend(ms: seq<Measurement>, x: Measurement)
    ensures KeySet(ms + [x]) == KeySet(ms) + {(x.metric, x.seed)}
  {
  }

  lemma TakenIffKey(t: Table, ms: seq<Measurement>, x: Measurement)
    requires Describes(t, ms)
    ensures Taken(t, x) <==> (x.metric, x.seed) in KeySet(ms)
  {
  }

  lemma RecordedDescribes(t: Table, ms: seq<Measurement>, x: Measurement)
    requires Describes(t, ms) && !Taken(t, x)
    ensures Describes(Recorded(t, x), ms + [x])
  {
    var t1 := Recorded(t, x);
    KeySetAppend(ms, x);
    forall y | y in ms + [x] ensures Taken(t1, y) && t1[y.metric][y.seed] == y.value {
      if y != x {
        assert y in ms && Taken(t, y);
      }
    }
    forall name | name in t1 ensures exists y :: y in ms + [x] && y.metric == name {
      if name == x.metric {
        assert x in ms + [x];
      } else {
        var y :| y in ms && y.metric == name;
        assert y in ms + [x];
      }
    }
    forall name, s | name in t1 && s in t1[name] ensures (name, s) in KeySet(ms) + {(x.metric, x.seed)} {
      assert (name, s) == (x.metric, x.seed) || (name in t && s in t[name]);
    }
  }

  predicate NoRepeats(ms: seq<Measurement>) {
    |KeySet(ms)| == |ms|
  }

  lemma NoRepeatsStep(done: seq<Measurement>, x: Measurement)
    requires NoRepeats(done)
    ensures NoRepeats(done + [x]) <==> (x.metric, x.seed) !in KeySet(done)
    ensures |KeySet(done + [x])| <= |done| + 1
  {
    KeySetAppend(done, x);
  }

  /** Collecting succeeds exactly when no metric and seed repeat, and then describes the list. */
  lemma {:induction false} CollectDescribes(done: seq<Measurement>, ms: seq<Measurement>, t: Table)
    requires Describes(t, done) && NoRepeats(done)
    ensures var r := Collect(ms, t);
      && (r.Ok? <==> NoRepeats(done + ms))
      && (r.Ok? ==> Describes(r.value, done + ms))
      && (r.Err? ==> r.fault == DuplicateMeasurement)
    decreases |ms|
  {
    if ms == [] {
      assert done + ms == done;
    } else {
      var x := ms[0];
      TakenIffKey(t, done, x);
      NoRepeatsStep(done, x);
      assert done + ms == (done + [x]) + ms[1..];
      if Taken(t, x) {
        KeySetBound(done + [x], ms[1..]);
      } else {
        RecordedDescribes(t, done, x);
        CollectDescribes(done + [x], ms[1..], Recorded(t, x));
      }
    }
  }

  lemma {:induction false} KeySetBound(a: seq<Measurement>, b: seq<Measurement>)
    ensures |KeySet(a + b)| <= |KeySet(a)| + |b|
    decreases |b|
  {
    if b == [] {
      assert a + b == a;
    } else {
      assert a + b == (a + [b[0]]) + b[1..];
      KeySetAppend(a, b[0]);
      KeySetBound(a + [b[0]], b[1..]);
    }
  }

  lemma TableUnique(t: Table, u: Table, xs: seq<Measurement>, ys: seq<Measurement>)
    requires Describes(t, xs) && Describes(u, ys) && forall x :: x in xs <==> x in ys
    ensures t == u
  {
    TableWithin(t, u, xs, ys);
    TableWithin(u, t, ys, xs);
    forall name | name in t ensures t[name] == u[name] {
      assert forall s :: s in t[name] ==> s in u[name] && u[name][s] == t[name][s];
      assert forall s :: s in u[name] ==> s in t[name];
    }
  }

  lemma TableWithin(t: Table, u: Table, xs: seq<Measurement>, ys: seq<Measurement>)
    requires Describes(t, xs) && Describes(u, ys) && forall x :: x in xs ==> x in ys
    ensures forall name :: name in t ==> name in u
    ensures forall name, s :: name in t && s in t[name] ==> s in u[name] && u[name][s] == t[name][s]
  {
  }

  lemma PermutedHeader(p: Protocol, m: MeasurementSet, permuted: seq<Measurement>)
    requires |permuted| == |m.measurements| && forall x :: x in permuted <==> x in m.measurements
    ensures HeaderFault(p, m.(measurements := permuted)) == HeaderFault(p, m)
  {
  }

  lemma PermutedCollect(xs: seq<Measurement>, ys: seq<Measurement>)
    requires |xs| == |ys| && forall x :: x in xs <==> x in ys
    ensures Collect(xs, map[]) == Collect(ys, map[])
  {
    assert KeySet(xs) == KeySet(ys);
    assert [] + xs == xs && [] + ys == ys;
    CollectDescribes([], xs, map[]);
    CollectDescribes([], ys, map[]);
    var a, b := Collect(xs, map[]), Collect(ys, map[]);
    if a.Ok? {
      TableUnique(a.value, b.value, xs, ys);
    }
  }

  /** Permuting the measurements gives the identical verdict, or the identical refusal. */
  lemma PermutationGivesSameVerdict(p: Protocol, m: MeasurementSet, permuted: seq<Measurement>)
    requires multiset(permuted) == multiset(m.measurements)
    ensures Score(p, m.(measurements := permuted)) == Score(p, m)
  {
    forall x ensures x in permuted <==> x in m.measurements {
      assert x in multiset(permuted) <==> x in multiset(m.measurements);
    }
    assert |permuted| == |multiset(permuted)| == |multiset(m.measurements)| == |m.measurements|;
    PermutedHeader(p, m, permuted);
    PermutedCollect(permuted, m.measurements);
  }
}
