/** Scoring a measurement set against a pre-registered protocol. */
module Verdicts {
  import opened Options
  import opened Ordering

  datatype Split = Train | Validation | HoldoutSplit

  datatype Purpose = FinalVerdict | Training | Selection | Exploration

  datatype Direction = HigherIsBetter | LowerIsBetter

  datatype Family = Success | Violation | Cost | Information | Reversibility | Calibration | Tail | Drift

  datatype MetricSpec = MetricSpec(name: string, family: Family, direction: Direction, threshold: real, required: bool)

  datatype SplitSpec = SplitSpec(split: Split, corpus: string)

  datatype Protocol = Protocol(
    id: string, epoch: string, splits: seq<SplitSpec>, seeds: seq<int>, metrics: seq<MetricSpec>)

  /** The protocol seal is a free constructor over the protocol, or any other text. */
  datatype SealText = SealOf(protocol: Protocol) | OtherText(text: string)

  datatype Measurement = Measurement(metric: string, split: Split, seed: int, value: real)

  datatype MeasurementSet = MeasurementSet(
    protocolSeal: SealText, corpus: string, epoch: string, purpose: Purpose, split: Split,
    measurements: seq<Measurement>)

  datatype MetricVerdict = MetricVerdict(
    name: string, direction: Direction, threshold: real, aggregate: real, seedCount: nat,
    required: bool, passed: bool)

  datatype Decision = Continue | Kill

  datatype Verdict = Verdict(
    decision: Decision, protocolId: string, protocolSeal: SealText, corpus: string, epoch: string,
    split: Split, purpose: Purpose, metrics: seq<MetricVerdict>, failing: seq<string>)

  datatype Fault =
    | InvalidProtocol | InvalidMeasurements | OtherProtocol | OtherEpoch | OtherCorpus
    | HoldoutMisused | NotTheHoldout | DuplicateMeasurement | UnknownMetric | RequiredMissing | SeedsMissing

  datatype Result<+T> = Ok(value: T) | Err(fault: Fault)

  predicate Passes(spec: MetricSpec, value: real) {
    if spec.direction.HigherIsBetter? then value >= spec.threshold else value <= spec.threshold
  }

  // ----- contracts -----

  predicate DistinctNames(metrics: seq<MetricSpec>) {
    forall i, j :: 0 <= i < j < |metrics| ==> metrics[i].name != metrics[j].name
  }

  predicate Covers(metrics: seq<MetricSpec>, f: Family) {
    exists i :: 0 <= i < |metrics| && metrics[i].family == f
  }

  predicate ValidProtocol(p: Protocol) {
    && |p.splits| == 3
    && (forall i, j :: 0 <= i < j < 3 ==> p.splits[i].split != p.splits[j].split && p.splits[i].corpus != p.splits[j].corpus)
    && |p.seeds| >= 2 && (forall i, j :: 0 <= i < j < |p.seeds| ==> p.seeds[i] < p.seeds[j])
    && |p.metrics| >= 8 && DistinctNames(p.metrics)
    && (forall f: Family :: Covers(p.metrics, f))
    && exists i :: 0 <= i < |p.metrics| && p.metrics[i].required
  }

  predicate ValidMeasurements(m: MeasurementSet) {
    m.measurements != [] && forall x :: x in m.measurements ==> x.split == m.split
  }

  function CorpusOf(splits: seq<SplitSpec>, split: Split): Option<string> {
    if splits == [] then None
    else if splits[0].split == split then Some(splits[0].corpus)
    else CorpusOf(splits[1..], split)
  }

  /** Everything checked before a single value is looked at, in the order of the code. */
  function HeaderFault(p: Protocol, m: MeasurementSet): Option<Fault> {
    if !ValidProtocol(p) then Some(InvalidProtocol)
    else if !ValidMeasurements(m) then Some(InvalidMeasurements)
    else if m.protocolSeal != SealOf(p) then Some(OtherProtocol)
    else if m.epoch != p.epoch then Some(OtherEpoch)
    else if CorpusOf(p.splits, m.split) != Some(m.corpus) then Some(OtherCorpus)
    else if m.split == HoldoutSplit && m.purpose != FinalVerdict then Some(HoldoutMisused)
    else if m.split != HoldoutSplit && m.purpose == FinalVerdict then Some(NotTheHoldout)
    else None
  }

  // ----- values -----

  type Table = map<string, map<int, real>>

  function Recorded(table: Table, x: Measurement): Table {
    table[x.metric := (if x.metric in table then table[x.metric] else map[])[x.seed := x.value]]
  }

  predicate Taken(table: Table, x: Measurement) {
    x.metric in table && x.seed in table[x.metric]
  }

  function Collect(ms: seq<Measurement>, table: Table): Result<Table>
    decreases |ms|
  {
    if ms == [] then Ok(table)
    else if Taken(table, ms[0]) then Err(DuplicateMeasurement)
    else Collect(ms[1..], Recorded(table, ms[0]))
  }

  function SeedSet(seeds: seq<int>): set<int> {
    set s | s in seeds
  }

  function ValuesAt(values: map<int, real>, seeds: seq<int>): (r: seq<real>)
    requires SeedSet(seeds) <= values.Keys
    ensures |r| == |seeds| && forall i :: 0 <= i < |seeds| ==> seeds[i] in values && r[i] == values[seeds[i]]
  {
    if seeds == [] then []
    else
      assert seeds[0] in SeedSet(seeds) && SeedSet(seeds[1..]) <= SeedSet(seeds);
      [values[seeds[0]]] + ValuesAt(values, seeds[1..])
  }

  /** The middle value, or the mean of the two middle values. */
  function Median(s: seq<real>): real
    requires s != []
  {
    var sorted := Sort(s);
    var h := |s| / 2;
    if |s| % 2 == 1 then sorted[h] else (sorted[h - 1] + sorted[h]) / 2.0
  }

  function ScoreMetric(spec: MetricSpec, table: Table, seeds: seq<int>): Result<Option<MetricVerdict>>
    requires seeds != []
  {
    if spec.name !in table then if spec.required then Err(RequiredMissing) else Ok(None)
    else if table[spec.name].Keys != SeedSet(seeds) then Err(SeedsMissing)
    else
      var aggregate := Median(ValuesAt(table[spec.name], seeds));
      Ok(Some(MetricVerdict(spec.name, spec.direction, spec.threshold, aggregate, |seeds|,
                            spec.required, Passes(spec, aggregate))))
  }

  function Present(v: Option<MetricVerdict>): seq<MetricVerdict> {
    if v.Some? then [v.value] else []
  }

  function Before(front: seq<MetricVerdict>, rest: Result<seq<MetricVerdict>>): Result<seq<MetricVerdict>> {
    match rest
    case Err(f) => Err(f)
    case Ok(vs) => Ok(front + vs)
  }

  function ScoreAll(specs: seq<MetricSpec>, table: Table, seeds: seq<int>): Result<seq<MetricVerdict>>
    requires seeds != []
  {
    if specs == [] then Ok([])
    else
      match ScoreMetric(specs[0], table, seeds)
      case Err(f) => Err(f)
      case Ok(v) => Before(Present(v), ScoreAll(specs[1..], table, seeds))
  }

  function InsertByName(x: MetricSpec, s: seq<MetricSpec>): seq<MetricSpec> {
    if s == [] then [x]
    else if AtMost(x.name, s[0].name) then [x] + s
    else [s[0]] + InsertByName(x, s[1..])
  }

  function SortByName(s: seq<MetricSpec>): seq<MetricSpec> {
    if s == [] then [] else InsertByName(s[0], SortByName(s[1..]))
  }

  function FailingOf(vs: seq<MetricVerdict>): seq<string> {
    if vs == [] then []
    else (if vs[0].required && !vs[0].passed then [vs[0].name] else []) + FailingOf(vs[1..])
  }

  function VerdictOf(p: Protocol, m: MeasurementSet, scored: seq<MetricVerdict>): Verdict {
    Verdict(if FailingOf(scored) != [] then Kill else Continue, p.id, SealOf(p), m.corpus, p.epoch,
            m.split, m.purpose, scored, FailingOf(scored))
  }

  function ScoreTable(p: Protocol, m: MeasurementSet, table: Table): Result<Verdict>
    requires p.seeds != []
  {
    if exists name :: name in table && forall i :: 0 <= i < |p.metrics| ==> p.metrics[i].name != name then Err(UnknownMetric)
    else
      match ScoreAll(SortByName(p.metrics), table, p.seeds)
      case Err(f) => Err(f)
      case Ok(scored) => Ok(VerdictOf(p, m, scored))
  }

  function Score(p: Protocol, m: MeasurementSet): Result<Verdict> {
    match HeaderFault(p, m)
    case Some(f) => Err(f)
    case None =>
      match Collect(m.measurements, map[])
      case Err(f) => Err(f)
      case Ok(table) => ScoreTable(p, m, table)
  }

  // ----- the scoring loops -----

  method ScoreMeasurements(p: Protocol, m: MeasurementSet) returns (result: Result<Verdict>)
    ensures result == Score(p, m)
  {
    var fault := HeaderFault(p, m);
    if fault.Some? {
      return Err(fault.value);
    }
    var byMetric: Table := map[];
    var rest := m.measurements;
    while rest != []
      invariant Collect(rest, byMetric) == Collect(m.measurements, map[])
      decreases |rest|
    {
      var x := rest[0];
      var seeds := if x.metric in byMetric then byMetric[x.metric] else map[];
      if x.seed in seeds {
        return Err(DuplicateMeasurement);
      }
      byMetric := byMetric[x.metric := seeds[x.seed := x.value]];
      rest := rest[1..];
    }
    if exists name :: name in byMetric && forall i :: 0 <= i < |p.metrics| ==> p.metrics[i].name != name {
      return Err(UnknownMetric);
    }
    result := ScoreSorted(p, m, byMetric);
  }

  method ScoreSorted(p: Protocol, m: MeasurementSet, byMetric: Table) returns (result: Result<Verdict>)
    requires p.seeds != []
    ensures result == match ScoreAll(SortByName(p.metrics), byMetric, p.seeds)
                      case Err(f) => Err(f)
                      case Ok(scored) => Ok(VerdictOf(p, m, scored))
  {
    var scored: seq<MetricVerdict> := [];
    var failing: seq<string> := [];
    var specs := SortByName(p.metrics);
    ghost var all := ScoreAll(specs, byMetric, p.seeds);
    BeforeLaws(all, [], []);
    while specs != []
      invariant FailingOf(scored) == failing
      invariant Before(scored, ScoreAll(specs, byMetric, p.seeds)) == all
      decreases |specs|
    {
      var one := ScoreMetric(specs[0], byMetric, p.seeds);
      if one.Err? {
        return Err(one.fault);
      }
      BeforeLaws(ScoreAll(specs[1..], byMetric, p.seeds), scored, Present(one.value));
      if one.value.Some? {
        var v := one.value.value;
        FailingAppend(scored, v);
        scored := scored + [v];
        if v.required && !v.passed {
          failing := failing + [v.name];
        }
      }
      specs := specs[1..];
    }
    assert scored + [] == scored;
    result := Ok(Verdict(if failing != [] then Kill else Continue, p.id, SealOf(p), m.corpus, p.epoch,
                         m.split, m.purpose, scored, failing));
  }

  lemma BeforeLaws(rest: Result<seq<MetricVerdict>>, a: seq<MetricVerdict>, b: seq<MetricVerdict>)
    ensures Before([], rest) == rest
    ensures Before(a, Before(b, rest)) == Before(a + b, rest)
    ensures a + [] == a
  {
    if rest.Ok? {
      assert [] + rest.value == rest.value;
      assert a + (b + rest.value) == (a + b) + rest.value;
    }
  }

  lemma {:induction false} FailingAppend(vs: seq<MetricVerdict>, v: MetricVerdict)
    ensures FailingOf(vs + [v]) == FailingOf(vs) + if v.required && !v.passed then [v.name] else []
  {
    if vs == [] {
      assert [v][1..] == [];
    } else {
      assert (vs + [v])[1..] == vs[1..] + [v];
      FailingAppend(vs[1..], v);
    }
  }
}
