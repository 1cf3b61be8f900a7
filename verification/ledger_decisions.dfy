/** What every ledger operation answers, and why: acceptance and each refusal by its condition,
    and each kind of finding by the defect it reports. */
module LedgerDecisions {
  import opened Options
  import opened Contracts
  import opened Ledger
  import opened LedgerIntegrity
  import opened LedgerStoreObject

  // ----- append -----

  /** The payload says that it belongs to this very store. */
  predicate FromHere(p: Payload, b: Binding)
    requires ValidEpisode(p)
  {
    var m := p.provenance.value;
    m["host_id"] == b.host && m["agent_family"] == b.family && m["store_id"] == b.store && m["epoch"] == b.epoch
  }

  /** The row after the last one, linked to it. */
  predicate IsNext(s: Store, p: Payload, at: string, r: Row)
    requires p.Document?
  {
    && r.num == |s.rows| + 1 && r.episode == p.episode && r.at == at
    && r.content == Content(p) && r.payload == Some(Json(p)) && r.redacted == 0
    && r.prev == (if s.rows == [] then GenesisOf(s.binding) else s.rows[|s.rows| - 1].chain)
    && r.chain == Chain(|s.rows| + 1, p.episode, Content(p), r.prev, at)
  }

  lemma NoChainRepeats(s: Store, p: Payload, at: string)
    requires BodyWellFormed(s) && p.Document?
    ensures IsNext(s, p, at, NextRow(s, p, at))
    ensures forall r :: r in s.rows ==> r.chain != NextRow(s, p, at).chain
  {
    assert s.rows != [] ==> LinkAt(s.rows, |s.rows| - 1, 1, GenesisOf(s.binding));
    forall i | 0 <= i < |s.rows| ensures s.rows[i].chain != NextRow(s, p, at).chain {
      assert LinkAt(s.rows, i, 1, GenesisOf(s.binding));
    }
  }

  /** An append is accepted exactly when the episode is valid, the clock answers, the store is in
      order and open, the episode belongs to it and is not in it yet; then exactly the next row is
      added, anchored and receipted.  Each refusal has its own cause and changes nothing. */
  lemma AppendDecides(s: Store, p: Payload, at: string)
    ensures var (s1, reply) := Append(s, p, at);
      && (reply.Refused? ==> s1 == s)
      && if !ValidEpisode(p) then reply == Refused(EpisodeInvalid)
         else if !IsTimestamp(at) then reply == Refused(ClockRefused)
         else if !WellFormed(s) then reply == Refused(IntegrityFault)
         else if s.binding.status == Abandoned then reply == Refused(EpochClosed)
         else if !FromHere(p, s.binding) then reply == Refused(WrongProvenance)
         else if p.episode in Episodes(s.rows) then reply == Refused(DuplicateEpisode)
         else
           exists r :: IsNext(s, p, at, r)
             && s1 == s.(rows := s.rows + [r], anchor := Anchored(s.binding, |s.rows| + 1, r.chain))
             && reply == Accepted(Receipt(|s.rows| + 1, p.episode, Content(p), r.chain, r.chain, at))
  {
    VerifierExact(s);
    if ValidEpisode(p) && IsTimestamp(at) && WellFormed(s) {
      AdmissionDecides(s, p, at);
      NoChainRepeats(s, p, at);
      assert Admission(s, p, at) == None ==> IsNext(s, p, at, NextRow(s, p, at));
    }
  }

  lemma AdmissionDecides(s: Store, p: Payload, at: string)
    requires ValidEpisode(p) && BodyWellFormed(s)
    ensures Admission(s, p, at)
         == if s.binding.status == Abandoned then Some(EpochClosed)
            else if !FromHere(p, s.binding) then Some(WrongProvenance)
            else if p.episode in Episodes(s.rows) then Some(DuplicateEpisode)
            else None
  {
    NoChainRepeats(s, p, at);
    assert {"host_id", "agent_family", "store_id", "epoch"} <= p.provenance.value.Keys;
    assert p.episode in Episodes(s.rows) <==> exists r :: r in s.rows && r.episode == p.episode;
  }

  // ----- redaction and abandonment -----

  /** A redaction is accepted exactly when the clock answers, the store is in order, the episode is
      there with its payload, and the tombstone is well formed.  `episode` is a unique column. */
  lemma TombstoneDecides(s: Store, episode: string, reason: string, at: string)
    requires DistinctEpisodes(s.rows)
    ensures var (s1, reply) := Tombstone(s, episode, reason, at);
      var stone := Stone(episode, reason, at, TOMBSTONE);
      && (reply.Refused? ==> s1 == s)
      && if !IsTimestamp(at) then reply == Refused(ClockRefused)
         else if !WellFormed(s) then reply == Refused(IntegrityFault)
         else if episode !in Episodes(s.rows) then reply == Refused(NoSuchEpisode)
         else if exists k :: 0 <= k < |s.rows| && s.rows[k].episode == episode && s.rows[k].redacted == 1 then
           reply == Refused(AlreadyRedacted)
         else if !(IsIdentifier(episode) && 1 <= |reason| <= 500) then reply == Refused(ReasonRefused)
         else reply == Accepted(stone) && Redaction(s, s1, stone)
  {
    VerifierExact(s);
    var stone := Stone(episode, reason, at, TOMBSTONE);
    if IsTimestamp(at) && WellFormed(s) && episode in Episodes(s.rows) {
      var k := IndexOf(s.rows, episode).value;
      if s.rows[k].redacted != 1 && StoneValid(stone) {
        assert OneRedacted(s, WithStone(s, k, stone), k, stone);
      }
    }
  }

  /** Abandonment is accepted exactly when the clock answers and the epoch is open, whatever state
      the tables are in; it closes the epoch and re-anchors what is there. */
  lemma AbandonDecides(s: Store, at: string)
    ensures var (s1, reply) := AbandonEpoch(s, at);
      var closed := s.binding.(status := Abandoned);
      if !IsTimestamp(at) then reply == Refused(ClockRefused) && s1 == s
      else if s.binding.status == Abandoned then reply == Refused(EpochClosed) && s1 == s
      else reply == Accepted(closed) && s1.binding == closed && s1.rows == s.rows && s1.stones == s.stones && AnchorHolds(s1)
  {
  }

  // ----- what each finding means -----

  /** What is wrong with one row, given what it should follow. */
  predicate RowDefect(r: Row, expected: int, previous: Seal, tombstoned: set<string>, b: Binding, kind: Kind) {
    var kept := r.redacted != 1;
    match kind
    case SequenceInvalid => r.num != expected
    case ChainBroken => r.prev != previous || r.chain != Chain(r.num, r.episode, r.content, r.prev, r.at)
    case PayloadPresentOnRedacted => !kept && r.payload != None
    case RedactedWithoutTombstone => !kept && r.episode !in tombstoned
    case TombstoneOnUnredacted => kept && r.episode in tombstoned
    case PayloadMissing => kept && r.payload == None
    case PayloadUnparseable => kept && r.payload.Some? && r.payload.value.Undecodable?
    case PayloadAltered => kept && r.payload.Some? && r.payload.value.Json? && Content(r.payload.value.payload) != r.content
    case ProvenanceMismatch =>
      && kept && r.payload.Some? && r.payload.value.Json? && Content(r.payload.value.payload) == r.content
      && !Belongs(r.payload.value.payload, b)
    case _ => false
  }

  lemma LinkFindingsAre(r: Row, expected: int, previous: Seal, tombstoned: set<string>, b: Binding, f: Finding)
    ensures f in LinkFindings(r, expected, previous)
      <==> f == About(r, f.kind) && f.kind in {SequenceInvalid, ChainBroken} && RowDefect(r, expected, previous, tombstoned, b, f.kind)
  {
  }

  lemma PayloadFindingsAre(r: Row, expected: int, previous: Seal, tombstoned: set<string>, b: Binding, f: Finding)
    ensures f in (if r.redacted == 1 then RedactedFindings(r, tombstoned) else KeptFindings(r, tombstoned, b))
      <==> f == About(r, f.kind) && f.kind !in {SequenceInvalid, ChainBroken} && RowDefect(r, expected, previous, tombstoned, b, f.kind)
  {
  }

  lemma RowFindingsAre(r: Row, expected: int, previous: Seal, tombstoned: set<string>, b: Binding, f: Finding)
    ensures f in RowFindings(r, expected, previous, tombstoned, b)
      <==> f == Finding(Some(r.num), Some(r.episode), f.kind) && RowDefect(r, expected, previous, tombstoned, b, f.kind)
  {
    LinkFindingsAre(r, expected, previous, tombstoned, b, f);
    PayloadFindingsAre(r, expected, previous, tombstoned, b, f);
  }

  /** Row `i` has the defect; each row is held against the one before it, not against its place. */
  predicate DefectAt(rows: seq<Row>, i: nat, first: int, previous: Seal, tombstoned: set<string>, b: Binding, f: Finding)
    requires i < |rows|
  {
    && f == Finding(Some(rows[i].num), Some(rows[i].episode), f.kind)
    && RowDefect(rows[i], if i == 0 then first else rows[i - 1].num + 1, if i == 0 then previous else rows[i - 1].chain,
                 tombstoned, b, f.kind)
  }

  ghost predicate SomeDefect(rows: seq<Row>, first: int, previous: Seal, tombstoned: set<string>, b: Binding, f: Finding) {
    exists i :: 0 <= i < |rows| && DefectAt(rows, i, first, previous, tombstoned, b, f)
  }

  lemma SomeDefectCons(rows: seq<Row>, first: int, previous: Seal, tombstoned: set<string>, b: Binding, f: Finding)
    requires rows != []
    ensures SomeDefect(rows, first, previous, tombstoned, b, f)
      <==> DefectAt(rows, 0, first, previous, tombstoned, b, f)
           || SomeDefect(rows[1..], rows[0].num + 1, rows[0].chain, tombstoned, b, f)
  {
    var rest, num, chain := rows[1..], rows[0].num + 1, rows[0].chain;
    if i :| 0 <= i < |rest| && DefectAt(rest, i, num, chain, tombstoned, b, f) {
      assert DefectAt(rows, i + 1, first, previous, tombstoned, b, f);
    }
    if i :| 0 < i < |rows| && DefectAt(rows, i, first, previous, tombstoned, b, f) {
      assert DefectAt(rest, i - 1, num, chain, tombstoned, b, f);
    }
  }

  lemma {:induction false} WalkFindingsAre(rows: seq<Row>, first: int, previous: Seal, tombstoned: set<string>, b: Binding, f: Finding)
    ensures f in WalkFindings(rows, first, previous, tombstoned, b) <==> SomeDefect(rows, first, previous, tombstoned, b, f)
    decreases |rows|
  {
    if rows == [] {
    } else {
      RowFindingsAre(rows[0], first, previous, tombstoned, b, f);
      WalkFindingsAre(rows[1..], rows[0].num + 1, rows[0].chain, tombstoned, b, f);
      SomeDefectCons(rows, first, previous, tombstoned, b, f);
    }
  }

  ghost predicate InvalidStone(stones: seq<Stone>, f: Finding) {
    exists t :: t in stones && !StoneValid(t) && f == Finding(None, Some(t.episode), TombstoneInvalid)
  }

  ghost predicate OrphanStone(stones: seq<Stone>, seen: set<string>, f: Finding) {
    exists t :: t in stones && t.episode !in seen && f == Finding(None, Some(t.episode), OrphanTombstone)
  }

  lemma {:induction false} StoneFindingsAre(stones: seq<Stone>, seen: set<string>, f: Finding)
    ensures f in StoneFindings(stones) <==> InvalidStone(stones, f)
    ensures f in OrphanFindings(stones, seen) <==> OrphanStone(stones, seen, f)
  {
    if stones == [] {
    } else {
      StoneFindingsAre(stones[1..], seen, f);
      assert forall t :: t in stones <==> t == stones[0] || t in stones[1..];
    }
  }

  ghost predicate BadRow(s: Store, f: Finding) {
    SomeDefect(s.rows, 1, GenesisOf(s.binding), Tombstoned(s.stones), s.binding, f)
  }

  /** The anchor rows are not all there, or they are not the anchor of this store. */
  predicate BadAnchor(s: Store, f: Finding) {
    var missing := s.anchor.count == None || s.anchor.tail == None || s.anchor.seal == None;
    f == Finding(None, None, if missing then AnchorMissing else AnchorMismatch) && !AnchorHolds(s)
  }

  lemma AnchorFindingsAre(s: Store, f: Finding)
    ensures f in AnchorFindings(s.anchor, s.binding, |s.rows|, RootSeal(s)) <==> BadAnchor(s, f)
  {
  }

  /** The verifier reports exactly the defects there are, each under its kind, row and episode. */
  lemma FindingsAre(s: Store, f: Finding)
    ensures f in Findings(s)
      <==> InvalidStone(s.stones, f) || BadRow(s, f) || OrphanStone(s.stones, Episodes(s.rows), f) || BadAnchor(s, f)
  {
    StoneFindingsAre(s.stones, Episodes(s.rows), f);
    WalkFindingsAre(s.rows, 1, GenesisOf(s.binding), Tombstoned(s.stones), s.binding, f);
    AnchorFindingsAre(s, f);
    InFour(StoneFindings(s.stones),
           WalkFindings(s.rows, 1, GenesisOf(s.binding), Tombstoned(s.stones), s.binding),
           OrphanFindings(s.stones, Episodes(s.rows)),
           AnchorFindings(s.anchor, s.binding, |s.rows|, RootSeal(s)), f);
  }

  lemma InFour(a: seq<Finding>, b: seq<Finding>, c: seq<Finding>, d: seq<Finding>, f: Finding)
    ensures f in a + b + c + d <==> f in a || f in b || f in c || f in d
  {
  }

  // ----- replay -----

  /** The places before `n` whose rows have this redaction flag. */
  function Flagged(rows: seq<Row>, redacted: bool, n: nat): set<nat>
    requires n <= |rows|
  {
    set i: nat | i < n && (rows[i].redacted == 1) == redacted
  }

  /** `ids` are the episodes of the rows with this redaction flag, all of them, in row order:
      each row's is preceded by as many ids as there are such rows before it. */
  predicate IdsOf(rows: seq<Row>, redacted: bool, ids: seq<string>) {
    && |ids| == |Flagged(rows, redacted, |rows|)|
    && forall k :: 0 <= k < |rows| && (rows[k].redacted == 1) == redacted ==>
         |Flagged(rows, redacted, k)| < |ids| && ids[|Flagged(rows, redacted, k)|] == rows[k].episode
  }

  lemma {:induction false} EpisodesJoin(a: seq<Row>, b: seq<Row>, redacted: bool)
    ensures EpisodesWhere(a + b, redacted) == EpisodesWhere(a, redacted) + EpisodesWhere(b, redacted)
  {
    if a == [] {
      assert a + b == b;
    } else {
      assert (a + b)[1..] == a[1..] + b;
      EpisodesJoin(a[1..], b, redacted);
    }
  }

  lemma {:induction false} FlaggedCount(rows: seq<Row>, redacted: bool, n: nat)
    requires n <= |rows|
    ensures |EpisodesWhere(rows[..n], redacted)| == |Flagged(rows, redacted, n)|
  {
    if n == 0 {
    } else {
      FlaggedCount(rows, redacted, n - 1);
      assert rows[..n] == rows[..n - 1] + [rows[n - 1]];
      EpisodesJoin(rows[..n - 1], [rows[n - 1]], redacted);
      var here: set<nat> := if (rows[n - 1].redacted == 1) == redacted then {n - 1} else {};
      assert Flagged(rows, redacted, n) == Flagged(rows, redacted, n - 1) + here;
    }
  }

  lemma ReplayedInOrder(rows: seq<Row>, redacted: bool)
    ensures IdsOf(rows, redacted, EpisodesWhere(rows, redacted))
  {
    FlaggedCount(rows, redacted, |rows|);
    assert rows[..|rows|] == rows;
    forall k | 0 <= k < |rows| && (rows[k].redacted == 1) == redacted
      ensures |Flagged(rows, redacted, k)| < |EpisodesWhere(rows, redacted)|
      ensures EpisodesWhere(rows, redacted)[|Flagged(rows, redacted, k)|] == rows[k].episode
    {
      IdPlaced(rows, redacted, k);
    }
  }

  lemma IdPlaced(rows: seq<Row>, redacted: bool, k: nat)
    requires k < |rows| && (rows[k].redacted == 1) == redacted
    ensures |Flagged(rows, redacted, k)| < |EpisodesWhere(rows, redacted)|
    ensures EpisodesWhere(rows, redacted)[|Flagged(rows, redacted, k)|] == rows[k].episode
  {
    FlaggedCount(rows, redacted, k);
    assert rows == rows[..k] + rows[k..];
    EpisodesJoin(rows[..k], rows[k..], redacted);
    assert EpisodesWhere(rows[k..], redacted)[0] == rows[k].episode;
  }

  /** The verifier's count of redacted rows is the length of the list a replay gives. */
  lemma {:induction false} RedactedCounted(rows: seq<Row>)
    ensures RedactedCount(rows) == |EpisodesWhere(rows, true)| == |rows| - |EpisodesWhere(rows, false)|
  {
    if rows == [] {
    } else {
      RedactedCounted(rows[1..]);
    }
  }

  predicate Loadable(rows: seq<Row>) {
    forall i :: 0 <= i < |rows| ==> Loads(rows[i])
  }

  lemma {:induction false} LoadableExact(rows: seq<Row>)
    ensures AllLoad(rows) <==> Loadable(rows)
  {
    if rows == [] {
    } else {
      LoadableExact(rows[1..]);
      assert forall i :: 0 < i < |rows| ==> rows[i] == rows[1..][i - 1];
    }
  }

  /** A replay is refused exactly for a store that is not in order or a kept payload that is no valid
      episode; otherwise it lists every episode once, kept and redacted ones each in row order. */
  lemma ReplayDecides(s: Store)
    ensures var reply := Replay(s);
      if !WellFormed(s) then reply == Refused(IntegrityFault)
      else if !Loadable(s.rows) then reply == Refused(EpisodeInvalid)
      else
        && reply.Accepted? && reply.value.store == s.binding.store && reply.value.epoch == s.binding.epoch
        && IdsOf(s.rows, false, reply.value.replayed) && IdsOf(s.rows, true, reply.value.redacted)
        && reply.value.root == RootSeal(s) && reply.value.digest == ReplayDigest(s)
  {
    VerifierExact(s);
    LoadableExact(s.rows);
    ReplayedInOrder(s.rows, false);
    ReplayedInOrder(s.rows, true);
  }

  lemma ExecuteKeepsLoadable(s: Store, c: Command)
    requires Kept(s) && Loadable(s.rows)
    ensures Loadable(Execute(s, c).rows)
  {
    match c
    case DoAppend(p, at) => AppendDecides(s, p, at);
    case DoTombstone(e, reason, at) => TombstoneKeeps(s, e, reason, at);
    case DoAbandon(at) =>
  }

  lemma {:induction false} RunKeepsLoadable(s: Store, commands: seq<Command>)
    requires Kept(s) && Loadable(s.rows)
    ensures Kept(RunAll(s, commands)) && Loadable(RunAll(s, commands).rows)
    decreases |commands|
  {
    if commands == [] {
    } else {
      ReachableVerifies(s, commands[..1]);
      assert RunAll(s, commands[..1]) == Execute(s, commands[0]);
      ExecuteKeepsLoadable(s, commands[0]);
      RunKeepsLoadable(Execute(s, commands[0]), commands[1..]);
    }
  }

  /** Every store that was only ever written through the operations replays. */
  lemma ReachableReplays(b: Binding, commands: seq<Command>)
    requires b.status == Open
    ensures Replay(RunAll(Create(b), commands)).Accepted?
  {
    RunKeepsLoadable(Create(b), commands);
    ReplayDecides(RunAll(Create(b), commands));
  }
}
