/** The store object: its tables change inside transactions, each tied to its specification. */
module LedgerStoreObject {
  import opened Options
  import opened Contracts
  import opened Ledger

  datatype Report = Report(ok: bool, checked: nat, redacted: nat, root: Seal, findings: seq<Finding>)

  function RedactedCount(rows: seq<Row>): nat {
    if rows == [] then 0 else (if rows[0].redacted == 1 then 1 else 0) + RedactedCount(rows[1..])
  }

  datatype ReplayReport = ReplayReport(
    store: string, epoch: string, replayed: seq<string>, redacted: seq<string>, root: Seal, digest: Seal)

  function LinkOf(r: Row): Link {
    Link(r.num, r.episode, r.content, r.redacted == 1)
  }

  function LinksOf(rows: seq<Row>): (links: seq<Link>)
    ensures |links| == |rows| && forall i :: 0 <= i < |rows| ==> links[i] == LinkOf(rows[i])
  {
    if rows == [] then [] else [LinkOf(rows[0])] + LinksOf(rows[1..])
  }

  function EpisodesWhere(rows: seq<Row>, redacted: bool): seq<string> {
    if rows == [] then []
    else if (rows[0].redacted == 1) == redacted then [rows[0].episode] + EpisodesWhere(rows[1..], redacted)
    else EpisodesWhere(rows[1..], redacted)
  }

  /** A kept payload must still load as an episode to be replayed. */
  predicate Loads(r: Row) {
    r.redacted == 1 || (r.payload.Some? && r.payload.value.Json? && ValidEpisode(r.payload.value.payload))
  }

  predicate AllLoad(rows: seq<Row>) {
    rows == [] || (Loads(rows[0]) && AllLoad(rows[1..]))
  }

  function ReplayDigest(s: Store): Seal {
    Replayed(s.binding.store, s.binding.epoch, GenesisOf(s.binding), LinksOf(s.rows))
  }

  function Replay(s: Store): Reply<ReplayReport> {
    if Findings(s) != [] then Refused(IntegrityFault)
    else if !AllLoad(s.rows) then Refused(EpisodeInvalid)
    else
      Accepted(ReplayReport(
        s.binding.store, s.binding.epoch, EpisodesWhere(s.rows, false), EpisodesWhere(s.rows, true), RootSeal(s),
        ReplayDigest(s)))
  }

  lemma Associate<T>(a: seq<T>, b: seq<T>, c: seq<T>)
    ensures a + (b + c) == (a + b) + c
  {
  }

  /** What has been collected, and what the remaining rows will add, make up the whole. */
  predicate ReplayLeft(rows: seq<Row>, rest: seq<Row>, replayed: seq<string>, redacted: seq<string>, links: seq<Link>) {
    && replayed + EpisodesWhere(rest, false) == EpisodesWhere(rows, false)
    && redacted + EpisodesWhere(rest, true) == EpisodesWhere(rows, true)
    && links + LinksOf(rest) == LinksOf(rows)
  }

  lemma ReplayOne(rows: seq<Row>, rest: seq<Row>, replayed: seq<string>, redacted: seq<string>, links: seq<Link>)
    requires rest != [] && ReplayLeft(rows, rest, replayed, redacted, links)
    ensures var r := rest[0];
      ReplayLeft(rows, rest[1..],
                 if r.redacted == 1 then replayed else replayed + [r.episode],
                 if r.redacted == 1 then redacted + [r.episode] else redacted,
                 links + [LinkOf(r)])
  {
  }

  lemma TailCons(previous: Seal, rest: seq<Row>)
    requires rest != []
    ensures TailOf(previous, rest) == TailOf(rest[0].chain, rest[1..])
  {
  }

  /** One round of the walk: what it adds, and what it leaves to the rest. */
  lemma WalkOne(rest: seq<Row>, expected: int, previous: Seal, tombstoned: set<string>, b: Binding,
                findings: seq<Finding>, about: seq<Finding>)
    requires rest != [] && about == RowFindings(rest[0], expected, previous, tombstoned, b)
    ensures findings + WalkFindings(rest, expected, previous, tombstoned, b)
         == findings + about + WalkFindings(rest[1..], rest[0].num + 1, rest[0].chain, tombstoned, b)
  {
    Associate(findings, about, WalkFindings(rest[1..], rest[0].num + 1, rest[0].chain, tombstoned, b));
  }

  lemma TombstonedCons(stones: seq<Stone>)
    requires stones != []
    ensures Tombstoned(stones)
         == (if StoneValid(stones[0]) then {stones[0].episode} else {}) + Tombstoned(stones[1..])
  {
    assert stones == [stones[0]] + stones[1..];
  }

  lemma EpisodesCons(rows: seq<Row>)
    requires rows != []
    ensures Episodes(rows) == {rows[0].episode} + Episodes(rows[1..])
  {
    assert rows == [rows[0]] + rows[1..];
  }

  class LedgerStore {
    var binding: Binding
    var anchor: AnchorRows
    var rows: seq<Row>
    var stones: seq<Stone>

    function State(): Store
      reads this
    {
      Store(binding, anchor, rows, stones)
    }

    constructor Create(b: Binding)
      requires b.status == Open
      ensures State() == Ledger.Create(b)
    {
      var genesis := GenesisOf(b);
      binding, rows, stones := b, [], [];
      anchor := AnchorRows(Some(Numeral(0)), Some(genesis), Some(Anchor(genesis, 0, genesis, b.status)));
    }

    /** Findings about tombstones, and the episodes validly tombstoned. */
    method ReadTombstones() returns (findings: seq<Finding>, tombstoned: set<string>)
      ensures findings == StoneFindings(stones) && tombstoned == Tombstoned(stones)
    {
      findings, tombstoned := [], {};
      var rest := stones;
      while rest != []
        invariant findings + StoneFindings(rest) == StoneFindings(stones)
        invariant tombstoned + Tombstoned(rest) == Tombstoned(stones)
        decreases |rest|
      {
        TombstonedCons(rest);
        var about := When(!StoneValid(rest[0]), Finding(None, Some(rest[0].episode), TombstoneInvalid));
        Associate(findings, about, StoneFindings(rest[1..]));
        findings := findings + about;
        if StoneValid(rest[0]) {
          tombstoned := tombstoned + {rest[0].episode};
        }
        rest := rest[1..];
      }
    }

    method ReadOrphans(seen: set<string>) returns (findings: seq<Finding>)
      ensures findings == OrphanFindings(stones, seen)
    {
      findings := [];
      var rest := stones;
      while rest != []
        invariant findings + OrphanFindings(rest, seen) == OrphanFindings(stones, seen)
        decreases |rest|
      {
        if rest[0].episode !in seen {
          findings := findings + [Finding(None, Some(rest[0].episode), OrphanTombstone)];
        }
        rest := rest[1..];
      }
    }

    method ReadLink(r: Row, expected: int, previous: Seal) returns (findings: seq<Finding>)
      ensures findings == LinkFindings(r, expected, previous)
    {
      findings := [];
      if r.num != expected {
        findings := findings + [About(r, SequenceInvalid)];
      }
      if r.prev != previous {
        findings := findings + [About(r, ChainBroken)];
      }
      if ChainOf(r) != r.chain {
        findings := findings + [About(r, ChainBroken)];
      }
    }

    method ReadRedacted(r: Row, tombstoned: set<string>) returns (findings: seq<Finding>)
      ensures findings == RedactedFindings(r, tombstoned)
    {
      findings := [];
      if r.payload != None {
        findings := findings + [About(r, PayloadPresentOnRedacted)];
      }
      if r.episode !in tombstoned {
        findings := findings + [About(r, RedactedWithoutTombstone)];
      }
    }

    method ReadKept(r: Row, tombstoned: set<string>) returns (findings: seq<Finding>)
      ensures findings == KeptFindings(r, tombstoned, binding)
    {
      findings := [];
      if r.episode in tombstoned {
        findings := findings + [About(r, TombstoneOnUnredacted)];
      }
      if r.payload == None {
        return findings + [About(r, PayloadMissing)];
      }
      if r.payload.value.Undecodable? {
        return findings + [About(r, PayloadUnparseable)];
      }
      var decoded := r.payload.value.payload;
      if Content(decoded) != r.content {
        return findings + [About(r, PayloadAltered)];
      }
      if !Belongs(decoded, binding) {
        findings := findings + [About(r, ProvenanceMismatch)];
      }
    }

    /** Everything there is to say about one row. */
    method ReadRow(r: Row, expected: int, previous: Seal, tombstoned: set<string>) returns (findings: seq<Finding>)
      ensures findings == RowFindings(r, expected, previous, tombstoned, binding)
    {
      findings := ReadLink(r, expected, previous);
      var more;
      if r.redacted == 1 {
        more := ReadRedacted(r, tombstoned);
      } else {
        more := ReadKept(r, tombstoned);
      }
      findings := findings + more;
    }

    /** Walk the rows, carrying the expected sequence number and the previous seal. */
    method WalkRows(tombstoned: set<string>)
      returns (findings: seq<Finding>, seen: set<string>, redacted: nat, previous: Seal)
      ensures findings == WalkFindings(rows, 1, GenesisOf(binding), tombstoned, binding)
      ensures seen == Episodes(rows) && redacted == RedactedCount(rows) && previous == RootSeal(State())
    {
      var expected, rest := 1, rows;
      findings, seen, redacted, previous := [], {}, 0, GenesisOf(binding);
      ghost var all := WalkFindings(rows, 1, GenesisOf(binding), tombstoned, binding);
      ghost var root := RootSeal(State());
      while rest != []
        invariant TailOf(previous, rest) == root
        invariant seen + Episodes(rest) == Episodes(rows)
        invariant findings + WalkFindings(rest, expected, previous, tombstoned, binding) == all
        invariant redacted + RedactedCount(rest) == RedactedCount(rows)
        decreases |rest|
      {
        var r := rest[0];
        EpisodesCons(rest);
        var about := ReadRow(r, expected, previous, tombstoned);
        WalkOne(rest, expected, previous, tombstoned, binding, findings, about);
        TailCons(previous, rest);
        findings, seen, rest := findings + about, seen + {r.episode}, rest[1..];
        if r.redacted == 1 {
          redacted := redacted + 1;
        }
        expected, previous := r.num + 1, r.chain;
      }
    }

    /** Walk the whole chain and report every defect found. */
    method VerifyUnlocked() returns (report: Report)
      ensures report.findings == Findings(State()) && (report.ok <==> report.findings == [])
      ensures report.checked == |rows| && report.redacted == RedactedCount(rows) && report.root == RootSeal(State())
    {
      var stoneFindings, tombstoned := ReadTombstones();
      var findings, seen, redacted, previous := WalkRows(tombstoned);
      var orphans := ReadOrphans(seen);
      findings := stoneFindings + findings + orphans + AnchorFindings(anchor, binding, |rows|, previous);
      report := Report(findings == [], |rows|, redacted, previous, findings);
    }

    method Append(p: Payload, at: string) returns (reply: Reply<Receipt>)
      modifies this
      ensures (State(), reply) == Ledger.Append(old(State()), p, at)
    {
      if !ValidEpisode(p) {
        return Refused(EpisodeInvalid);
      }
      if !IsTimestamp(at) {
        return Refused(ClockRefused);
      }
      var report := VerifyUnlocked();
      if !report.ok {
        return Refused(IntegrityFault);
      }
      reply := InsertAfterChecks(p, at);
    }

    method InsertAfterChecks(p: Payload, at: string) returns (reply: Reply<Receipt>)
      requires ValidEpisode(p)
      modifies this
      ensures (State(), reply) == Ledger.AppendVerified(old(State()), p, at)
    {
      if binding.status == Abandoned {
        return Refused(EpochClosed);
      }
      if !ProvenanceMatches(p.provenance.value, binding) {
        return Refused(WrongProvenance);
      }
      var num, prev := 1, GenesisOf(binding);
      if rows != [] {
        var tail := rows[|rows| - 1];
        num, prev := tail.num + 1, tail.chain;
      }
      var chain := Chain(num, p.episode, Content(p), prev, at);
      if exists r :: r in rows && (r.episode == p.episode || r.chain == chain) {
        return Refused(DuplicateEpisode);
      }
      rows := rows + [Row(num, p.episode, Content(p), prev, chain, Some(Json(p)), 0, at)];
      anchor := Anchored(binding, if num < 0 then 0 else num, chain);
      reply := Accepted(Receipt(num, p.episode, Content(p), chain, chain, at));
    }

    method TombstoneEpisode(episode: string, reason: string, at: string) returns (reply: Reply<Stone>)
      modifies this
      ensures (State(), reply) == Ledger.Tombstone(old(State()), episode, reason, at)
    {
      if !IsTimestamp(at) {
        return Refused(ClockRefused);
      }
      var report := VerifyUnlocked();
      if !report.ok {
        return Refused(IntegrityFault);
      }
      reply := RedactAfterChecks(Stone(episode, reason, at, TOMBSTONE));
    }

    method RedactAfterChecks(record: Stone) returns (reply: Reply<Stone>)
      modifies this
      ensures (State(), reply) == Ledger.TombstoneVerified(old(State()), record)
    {
      var k := IndexOf(rows, record.episode);
      if k == None {
        return Refused(NoSuchEpisode);
      }
      var row := rows[k.value];
      if row.redacted == 1 {
        return Refused(AlreadyRedacted);
      }
      if !StoneValid(record) {
        return Refused(ReasonRefused);
      }
      rows := rows[k.value := row.(payload := None, redacted := 1)];
      stones := stones + [record];
      reply := Accepted(record);
    }

    method AbandonEpoch(at: string) returns (reply: Reply<Binding>)
      modifies this
      ensures (State(), reply) == Ledger.AbandonEpoch(old(State()), at)
    {
      if !IsTimestamp(at) {
        return Refused(ClockRefused);
      }
      if binding.status == Abandoned {
        return Refused(EpochClosed);
      }
      binding := binding.(status := Abandoned);
      var tail := if rows == [] then GenesisOf(binding) else rows[|rows| - 1].chain;
      anchor := Anchored(binding, |rows|, tail);
      reply := Accepted(binding);
    }

    /** Collect the links and the two id lists, refusing a kept payload that does not load. */
    method ReplayRows() returns (loaded: bool, replayed: seq<string>, redacted: seq<string>, links: seq<Link>, previous: Seal)
      ensures loaded <==> AllLoad(rows)
      ensures loaded ==>
        && replayed == EpisodesWhere(rows, false) && redacted == EpisodesWhere(rows, true)
        && links == LinksOf(rows) && previous == RootSeal(State())
    {
      replayed, redacted, links, previous := [], [], [], GenesisOf(binding);
      ghost var root := RootSeal(State());
      var rest := rows;
      while rest != []
        invariant TailOf(previous, rest) == root
        invariant AllLoad(rows) <==> AllLoad(rest)
        invariant ReplayLeft(rows, rest, replayed, redacted, links)
        decreases |rest|
      {
        var r := rest[0];
        if !Loads(r) {
          loaded := false;
          return;
        }
        ReplayOne(rows, rest, replayed, redacted, links);
        TailCons(previous, rest);
        if r.redacted == 1 {
          redacted := redacted + [r.episode];
        } else {
          replayed := replayed + [r.episode];
        }
        links, previous, rest := links + [LinkOf(r)], r.chain, rest[1..];
      }
      loaded := true;
    }

    /** Replay from genesis; the store is only read. */
    method ReplayAll() returns (reply: Reply<ReplayReport>)
      ensures reply == Replay(State())
    {
      var report := VerifyUnlocked();
      if !report.ok {
        return Refused(IntegrityFault);
      }
      var loaded, replayed, redacted, links, previous := ReplayRows();
      if !loaded {
        return Refused(EpisodeInvalid);
      }
      reply := Accepted(ReplayReport(binding.store, binding.epoch, replayed, redacted, previous,
                                     Replayed(binding.store, binding.epoch, GenesisOf(binding), links)));
    }
  }

  // ----- what a replay digest says -----

  /** Two replays agree on their digest exactly when the stores have the same identity and
      the same episodes with the same content, redacted in the same places. */
  lemma ReplayDigestExact(s: Store, t: Store)
    ensures ReplayDigest(s) == ReplayDigest(t)
      <==> GenesisOf(s.binding) == GenesisOf(t.binding) && |s.rows| == |t.rows|
           && forall i :: 0 <= i < |s.rows| ==>
                && s.rows[i].num == t.rows[i].num && s.rows[i].episode == t.rows[i].episode
                && s.rows[i].content == t.rows[i].content && (s.rows[i].redacted == 1 <==> t.rows[i].redacted == 1)
  {
    assert forall i :: 0 <= i < |s.rows| && |s.rows| == |t.rows| ==>
      (LinksOf(s.rows)[i] == LinksOf(t.rows)[i] <==>
       && s.rows[i].num == t.rows[i].num && s.rows[i].episode == t.rows[i].episode
       && s.rows[i].content == t.rows[i].content && (s.rows[i].redacted == 1 <==> t.rows[i].redacted == 1));
  }
}
