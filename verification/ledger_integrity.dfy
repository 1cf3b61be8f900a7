/** What an empty findings list means, what runs keep, and what a root seal commits to. */
module LedgerIntegrity {
  import opened Options
  import opened Ledger

  // ----- the declarative reading of "verifies" -----

  predicate RowSettled(r: Row, tombstoned: set<string>, b: Binding) {
    if r.redacted == 1 then r.payload == None && r.episode in tombstoned
    else
      && r.episode !in tombstoned
      && r.payload.Some? && r.payload.value.Json?
      && r.content == Content(r.payload.value.payload) && Belongs(r.payload.value.payload, b)
  }

  predicate LinkAt(rows: seq<Row>, i: nat, first: int, previous: Seal)
    requires i < |rows|
  {
    && rows[i].num == first + i
    && rows[i].prev == (if i == 0 then previous else rows[i - 1].chain)
    && rows[i].chain == ChainOf(rows[i])
  }

  /** Rows numbered from `first`, each linked to its predecessor, each seal reproducing. */
  predicate Chained(rows: seq<Row>, first: int, previous: Seal) {
    forall i :: 0 <= i < |rows| ==> LinkAt(rows, i, first, previous)
  }

  predicate AnchorHolds(s: Store) {
    s.anchor == Anchored(s.binding, |s.rows|, RootSeal(s))
  }

  /** Rows, payloads and tombstones are in order; nothing is said about the anchor. */
  predicate BodyWellFormed(s: Store) {
    && Chained(s.rows, 1, GenesisOf(s.binding))
    && (forall i :: 0 <= i < |s.rows| ==> RowSettled(s.rows[i], Tombstoned(s.stones), s.binding))
    && (forall i :: 0 <= i < |s.stones| ==> StoneValid(s.stones[i]) && s.stones[i].episode in Episodes(s.rows))
  }

  predicate WellFormed(s: Store) {
    BodyWellFormed(s) && AnchorHolds(s)
  }

  lemma RowFindingsExact(r: Row, expected: int, previous: Seal, tombstoned: set<string>, b: Binding)
    ensures RowFindings(r, expected, previous, tombstoned, b) == []
      <==> r.num == expected && r.prev == previous && r.chain == ChainOf(r) && RowSettled(r, tombstoned, b)
  {
  }

  predicate Walked(rows: seq<Row>, first: int, previous: Seal, tombstoned: set<string>, b: Binding) {
    Chained(rows, first, previous) && forall i :: 0 <= i < |rows| ==> RowSettled(rows[i], tombstoned, b)
  }

  lemma WalkedCons(rows: seq<Row>, first: int, previous: Seal, tombstoned: set<string>, b: Binding)
    requires rows != []
    ensures Walked(rows, first, previous, tombstoned, b) <==>
      && rows[0].num == first && rows[0].prev == previous && rows[0].chain == ChainOf(rows[0])
      && RowSettled(rows[0], tombstoned, b)
      && Walked(rows[1..], rows[0].num + 1, rows[0].chain, tombstoned, b)
  {
    var rest := rows[1..];
    forall i | 0 < i < |rows|
      ensures rows[i] == rest[i - 1]
      ensures rows[0].num == first ==> (LinkAt(rows, i, first, previous) <==> LinkAt(rest, i - 1, first + 1, rows[0].chain))
    {}
    if Walked(rows, first, previous, tombstoned, b) {
      assert LinkAt(rows, 0, first, previous);
      forall i | 0 <= i < |rest|
        ensures LinkAt(rest, i, first + 1, rows[0].chain) && RowSettled(rest[i], tombstoned, b)
      {
        assert LinkAt(rows, i + 1, first, previous) && rest[i] == rows[i + 1];
      }
    }
    if rows[0].num == first && Walked(rest, first + 1, rows[0].chain, tombstoned, b) {
      forall i | 0 < i < |rows|
        ensures LinkAt(rows, i, first, previous) && RowSettled(rows[i], tombstoned, b)
      {
        assert LinkAt(rest, i - 1, first + 1, rows[0].chain);
      }
    }
  }

  lemma {:induction false} WalkExact(rows: seq<Row>, expected: int, previous: Seal, tombstoned: set<string>, b: Binding)
    ensures WalkFindings(rows, expected, previous, tombstoned, b) == []
      <==> Walked(rows, expected, previous, tombstoned, b)
    decreases |rows|
  {
    if rows == [] {
    } else {
      RowFindingsExact(rows[0], expected, previous, tombstoned, b);
      WalkExact(rows[1..], rows[0].num + 1, rows[0].chain, tombstoned, b);
      WalkedCons(rows, expected, previous, tombstoned, b);
    }
  }

  lemma {:induction false} StonesExact(stones: seq<Stone>, seen: set<string>)
    ensures StoneFindings(stones) == [] <==> forall i :: 0 <= i < |stones| ==> StoneValid(stones[i])
    ensures OrphanFindings(stones, seen) == [] <==> forall i :: 0 <= i < |stones| ==> stones[i].episode in seen
  {
    if stones == [] {
    } else {
      StonesExact(stones[1..], seen);
      assert forall i :: 0 < i < |stones| ==> stones[i] == stones[1..][i - 1];
      assert forall i :: 0 <= i < |stones[1..]| ==> stones[1..][i] == stones[i + 1];
    }
  }

  lemma AnchorExact(s: Store)
    ensures AnchorFindings(s.anchor, s.binding, |s.rows|, RootSeal(s)) == [] <==> AnchorHolds(s)
  {
  }

  /** The verifier reports nothing exactly on the well-formed stores. */
  lemma VerifierExact(s: Store)
    ensures Findings(s) == [] <==> WellFormed(s)
  {
    StonesExact(s.stones, Episodes(s.rows));
    WalkExact(s.rows, 1, GenesisOf(s.binding), Tombstoned(s.stones), s.binding);
    AnchorExact(s);
    var a := StoneFindings(s.stones);
    var b := WalkFindings(s.rows, 1, GenesisOf(s.binding), Tombstoned(s.stones), s.binding);
    var c := OrphanFindings(s.stones, Episodes(s.rows));
    var d := AnchorFindings(s.anchor, s.binding, |s.rows|, RootSeal(s));
    assert a + b + c + d == [] <==> a == [] && b == [] && c == [] && d == [];
  }

  // ----- reachable stores -----

  predicate DistinctEpisodes(rows: seq<Row>) {
    forall i, k :: 0 <= i < k < |rows| ==> rows[i].episode != rows[k].episode
  }

  /** A kept payload is the document of the episode its row names. */
  predicate OwnDocument(r: Row) {
    r.redacted != 1 ==>
      r.payload.Some? && r.payload.value.Json? && r.payload.value.payload.Document?
      && r.payload.value.payload.episode == r.episode
  }

  /** What every store that was only ever written through the operations satisfies. */
  predicate Kept(s: Store) {
    && WellFormed(s) && DistinctEpisodes(s.rows)
    && forall i :: 0 <= i < |s.rows| ==> OwnDocument(s.rows[i])
  }

  datatype Command =
    | DoAppend(payload: Payload, at: string)
    | DoTombstone(episode: string, reason: string, at: string)
    | DoAbandon(at: string)

  function Execute(s: Store, c: Command): Store {
    match c
    case DoAppend(p, at) => Append(s, p, at).0
    case DoTombstone(e, reason, at) => Tombstone(s, e, reason, at).0
    case DoAbandon(at) => AbandonEpoch(s, at).0
  }

  function RunAll(s: Store, commands: seq<Command>): Store
    decreases |commands|
  {
    if commands == [] then s else RunAll(Execute(s, commands[0]), commands[1..])
  }

  lemma EpisodesAppend(rows: seq<Row>, r: Row)
    ensures Episodes(rows + [r]) == Episodes(rows) + {r.episode}
  {
  }

  lemma AppendVerifiedKeeps(s: Store, p: Payload, at: string)
    requires Kept(s) && ValidEpisode(p)
    ensures var (s1, reply) := AppendVerified(s, p, at);
      && Kept(s1)
      && (reply.Accepted? ==> s1.rows == s.rows + [NextRow(s, p, at)] && NextRow(s, p, at).num == |s.rows| + 1)
  {
    if Admission(s, p, at) == None {
      forall i | 0 <= i < |s.rows| ensures s.rows[i].episode != p.episode {
        assert s.rows[i] in s.rows;
      }
      WithRowKeeps(s, p, at);
    }
  }

  lemma AppendKeeps(s: Store, p: Payload, at: string)
    requires Kept(s)
    ensures var (s1, reply) := Append(s, p, at);
      && Kept(s1)
      && (reply.Accepted? ==> s1.rows == s.rows + [NextRow(s, p, at)] && NextRow(s, p, at).num == |s.rows| + 1)
  {
    if ValidEpisode(p) {
      AppendVerifiedKeeps(s, p, at);
    }
  }

  lemma WithRowBody(s: Store, r: Row)
    requires BodyWellFormed(s) && r.num == |s.rows| + 1 && r.prev == RootSeal(s) && r.chain == ChainOf(r)
    requires RowSettled(r, Tombstoned(s.stones), s.binding)
    ensures BodyWellFormed(WithRow(s, r)) && AnchorHolds(WithRow(s, r))
  {
    var s1 := WithRow(s, r);
    EpisodesAppend(s.rows, r);
    AppendChains(s.rows, r, GenesisOf(s.binding));
    forall i | 0 <= i < |s1.rows| ensures RowSettled(s1.rows[i], Tombstoned(s.stones), s.binding) {
      assert i < |s.rows| ==> s1.rows[i] == s.rows[i];
    }
  }

  lemma NewEpisodeIsFresh(rows: seq<Row>, r: Row)
    requires DistinctEpisodes(rows) && forall i :: 0 <= i < |rows| ==> rows[i].episode != r.episode
    ensures DistinctEpisodes(rows + [r]) && r.episode !in Episodes(rows)
  {
  }

  lemma NextRowFacts(s: Store, p: Payload, at: string)
    requires BodyWellFormed(s) && ValidEpisode(p) && ProvenanceMatches(p.provenance.value, s.binding)
    requires p.episode !in Episodes(s.rows)
    ensures var r := NextRow(s, p, at);
      && r.num == |s.rows| + 1 && r.prev == RootSeal(s) && r.chain == ChainOf(r)
      && RowSettled(r, Tombstoned(s.stones), s.binding) && OwnDocument(r)
  {
    assert s.rows != [] ==> LinkAt(s.rows, |s.rows| - 1, 1, GenesisOf(s.binding));
    StonesPointAtRows(s);
  }

  lemma WithRowKeeps(s: Store, p: Payload, at: string)
    requires Kept(s) && ValidEpisode(p) && ProvenanceMatches(p.provenance.value, s.binding)
    requires forall i :: 0 <= i < |s.rows| ==> s.rows[i].episode != p.episode
    ensures NextRow(s, p, at).num == |s.rows| + 1
    ensures Kept(WithRow(s, NextRow(s, p, at)))
  {
    var r := NextRow(s, p, at);
    NewEpisodeIsFresh(s.rows, r);
    NextRowFacts(s, p, at);
    WithRowBody(s, r);
    var rows1 := s.rows + [r];
    forall i | 0 <= i < |rows1| ensures OwnDocument(rows1[i]) {
      assert i < |s.rows| ==> rows1[i] == s.rows[i];
    }
    assert WithRow(s, r).rows == rows1;
  }

  lemma StonesPointAtRows(s: Store)
    requires BodyWellFormed(s)
    ensures Tombstoned(s.stones) <= Episodes(s.rows)
  {
  }

  lemma AppendChains(rows: seq<Row>, r: Row, genesis: Seal)
    requires Chained(rows, 1, genesis) && r.num == |rows| + 1
    requires r.prev == TailOf(genesis, rows) && r.chain == ChainOf(r)
    ensures Chained(rows + [r], 1, genesis)
  {
    forall i | 0 <= i < |rows| ensures LinkAt(rows + [r], i, 1, genesis) {
      assert LinkAt(rows, i, 1, genesis);
    }
  }

  lemma {:induction false} EpisodesRedacted(rows: seq<Row>, k: nat)
    requires k < |rows|
    ensures Episodes(rows[k := Redacted(rows[k])]) == Episodes(rows)
  {
    var rows1 := rows[k := Redacted(rows[k])];
    forall e | e in Episodes(rows) ensures e in Episodes(rows1) {
      var i :| 0 <= i < |rows| && rows[i].episode == e;
      assert rows1[i] in rows1 && rows1[i].episode == e;
    }
    forall e | e in Episodes(rows1) ensures e in Episodes(rows) {
      var i :| 0 <= i < |rows1| && rows1[i].episode == e;
      assert rows[i] in rows && rows[i].episode == e;
    }
  }

  lemma TombstonedAppend(stones: seq<Stone>, t: Stone)
    requires StoneValid(t)
    ensures Tombstoned(stones + [t]) == Tombstoned(stones) + {t.episode}
  {
  }

  lemma RedactionChains(rows: seq<Row>, k: nat, genesis: Seal)
    requires Chained(rows, 1, genesis) && k < |rows|
    ensures Chained(rows[k := Redacted(rows[k])], 1, genesis)
    ensures TailOf(genesis, rows[k := Redacted(rows[k])]) == TailOf(genesis, rows)
  {
    var rows1 := rows[k := Redacted(rows[k])];
    forall i | 0 <= i < |rows| ensures LinkAt(rows1, i, 1, genesis) {
      assert LinkAt(rows, i, 1, genesis);
    }
  }

  lemma WithStoneKeeps(s: Store, k: nat, stone: Stone)
    requires Kept(s) && k < |s.rows| && StoneValid(stone) && stone.episode == s.rows[k].episode
    ensures Kept(WithStone(s, k, stone)) && RootSeal(WithStone(s, k, stone)) == RootSeal(s)
  {
    var s1 := WithStone(s, k, stone);
    EpisodesRedacted(s.rows, k);
    TombstonedAppend(s.stones, stone);
    RedactionChains(s.rows, k, GenesisOf(s.binding));
    forall i | 0 <= i < |s.rows| ensures RowSettled(s1.rows[i], Tombstoned(s1.stones), s1.binding) {
      assert RowSettled(s.rows[i], Tombstoned(s.stones), s.binding);
      assert i != k ==> s.rows[i].episode != stone.episode;
    }
    assert s.rows[k] in s.rows;
    assert BodyWellFormed(s1);
    forall i | 0 <= i < |s1.rows| ensures OwnDocument(s1.rows[i]) && s1.rows[i].episode == s.rows[i].episode {}
  }

  /** One row lost its payload, one tombstone was recorded, and nothing else changed. */
  predicate OneRedacted(s: Store, s1: Store, k: nat, stone: Stone)
    requires k < |s.rows|
  {
    && s.rows[k].episode == stone.episode && s.rows[k].redacted != 1
    && |s1.rows| == |s.rows| && s1.rows[k] == Redacted(s.rows[k])
    && (forall i :: 0 <= i < |s.rows| && i != k ==> s1.rows[i] == s.rows[i])
    && s1.stones == s.stones + [stone] && s1.anchor == s.anchor && s1.binding == s.binding
  }

  ghost predicate Redaction(s: Store, s1: Store, stone: Stone) {
    exists k :: 0 <= k < |s.rows| && OneRedacted(s, s1, k, stone)
  }

  lemma TombstoneVerifiedKeeps(s: Store, stone: Stone)
    requires Kept(s)
    ensures var (s1, r) := TombstoneVerified(s, stone);
      && Kept(s1) && RootSeal(s1) == RootSeal(s)
      && (r.Refused? ==> s1 == s)
      && (r.Accepted? ==> Redaction(s, s1, stone))
  {
    var (s1, r) := TombstoneVerified(s, stone);
    if r.Accepted? {
      var k := IndexOf(s.rows, stone.episode).value;
      WithStoneKeeps(s, k, stone);
      assert OneRedacted(s, s1, k, stone);
    }
  }

  /** Redaction keeps the invariant and the root seal: it drops the payload of the one
      named row and records its tombstone, or refuses and changes nothing. */
  lemma TombstoneKeeps(s: Store, episode: string, reason: string, at: string)
    requires Kept(s)
    ensures var (s1, r) := Tombstone(s, episode, reason, at);
      && Kept(s1) && RootSeal(s1) == RootSeal(s) && s1.anchor == s.anchor && s1.binding == s.binding
      && (r.Refused? ==> s1 == s)
      && (r.Accepted? ==> Redaction(s, s1, Stone(episode, reason, at, TOMBSTONE)))
  {
    var stone := Stone(episode, reason, at, TOMBSTONE);
    if Tombstone(s, episode, reason, at) == TombstoneVerified(s, stone) {
      TombstoneVerifiedKeeps(s, stone);
    }
  }

  lemma AbandonKeeps(s: Store, at: string)
    requires Kept(s)
    ensures Kept(AbandonEpoch(s, at).0)
  {
  }

  /** Every store reached by any run of the operations, refusals included, verifies. */
  lemma {:induction false} ReachableVerifies(s: Store, commands: seq<Command>)
    requires Kept(s)
    ensures Kept(RunAll(s, commands)) && Findings(RunAll(s, commands)) == []
    decreases |commands|
  {
    if commands == [] {
      VerifierExact(s);
    } else {
      match commands[0] {
        case DoAppend(p, at) => AppendKeeps(s, p, at);
        case DoTombstone(e, reason, at) => TombstoneKeeps(s, e, reason, at);
        case DoAbandon(at) => AbandonKeeps(s, at);
      }
      ReachableVerifies(Execute(s, commands[0]), commands[1..]);
    }
  }

  lemma CreatedVerifies(b: Binding, commands: seq<Command>)
    requires b.status == Open
    ensures Findings(RunAll(Create(b), commands)) == []
  {
    ReachableVerifies(Create(b), commands);
  }
}
