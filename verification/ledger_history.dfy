/** What a root seal commits to, and what no later operation can take back. */
module LedgerHistory {
  import opened Options
  import opened Contracts
  import opened Ledger
  import opened LedgerIntegrity

  /** The part of a row that its chain seal covers; payload and redaction are not in it. */
  predicate SameLink(r: Row, q: Row) {
    r.num == q.num && r.episode == q.episode && r.content == q.content && r.at == q.at
    && r.prev == q.prev && r.chain == q.chain
  }

  predicate SameIdentity(a: Binding, b: Binding) {
    a.format == b.format && a.store == b.store && a.host == b.host && a.family == b.family && a.epoch == b.epoch
  }

  // ----- chain commitment -----

  lemma {:induction false} TailCommits(a: seq<Row>, b: seq<Row>, ga: Binding, gb: Binding)
    requires Chained(a, 1, GenesisOf(ga)) && Chained(b, 1, GenesisOf(gb))
    requires TailOf(GenesisOf(ga), a) == TailOf(GenesisOf(gb), b)
    ensures SameIdentity(ga, gb) && |a| == |b| && forall i :: 0 <= i < |a| ==> SameLink(a[i], b[i])
    decreases |a|
  {
    if a != [] { assert LinkAt(a, |a| - 1, 1, GenesisOf(ga)); }
    if b != [] { assert LinkAt(b, |b| - 1, 1, GenesisOf(gb)); }
    if a != [] && b != [] {
      var a1, b1 := a[..|a| - 1], b[..|b| - 1];
      PrefixChained(a, GenesisOf(ga));
      PrefixChained(b, GenesisOf(gb));
      TailCommits(a1, b1, ga, gb);
      forall i | 0 <= i < |a| ensures SameLink(a[i], b[i]) {
        if i < |a1| { assert a[i] == a1[i] && b[i] == b1[i]; }
      }
    }
  }

  lemma PrefixChained(rows: seq<Row>, genesis: Seal)
    requires rows != [] && Chained(rows, 1, genesis)
    ensures Chained(rows[..|rows| - 1], 1, genesis)
    ensures TailOf(genesis, rows[..|rows| - 1]) == rows[|rows| - 1].prev
  {
    var front := rows[..|rows| - 1];
    assert LinkAt(rows, |rows| - 1, 1, genesis);
    forall i | 0 <= i < |front| ensures LinkAt(front, i, 1, genesis) {
      assert LinkAt(rows, i, 1, genesis);
    }
  }

  /** Two stores that both verify under the same root seal have the same identity, the
      same length and the same links, row by row. */
  lemma RootSealCommits(s: Store, t: Store)
    requires Findings(s) == [] && Findings(t) == [] && RootSeal(s) == RootSeal(t)
    ensures SameIdentity(s.binding, t.binding) && |s.rows| == |t.rows|
    ensures forall i :: 0 <= i < |s.rows| ==> SameLink(s.rows[i], t.rows[i])
  {
    VerifierExact(s);
    VerifierExact(t);
    TailCommits(s.rows, t.rows, s.binding, t.binding);
  }

  /** With metadata and anchor fixed, the row table is fixed up to redaction: any other
      table that verifies has the same links, and the same payload wherever neither side
      was redacted.  Truncation, insertion, reordering and editing are all excluded. */
  lemma RowsAreFixedByAnchor(s: Store, t: Store)
    requires Findings(s) == [] && Findings(t) == [] && s.binding == t.binding && s.anchor == t.anchor
    ensures |s.rows| == |t.rows|
    ensures forall i :: 0 <= i < |s.rows| ==>
      && SameLink(s.rows[i], t.rows[i])
      && (s.rows[i].redacted != 1 && t.rows[i].redacted != 1 ==> s.rows[i].payload == t.rows[i].payload)
  {
    VerifierExact(s);
    VerifierExact(t);
    RootSealCommits(s, t);
    forall i | 0 <= i < |s.rows| && s.rows[i].redacted != 1 && t.rows[i].redacted != 1
      ensures s.rows[i].payload == t.rows[i].payload
    {
      assert SameLink(s.rows[i], t.rows[i]);
      assert RowSettled(s.rows[i], Tombstoned(s.stones), s.binding);
      assert RowSettled(t.rows[i], Tombstoned(t.stones), t.binding);
    }
  }

  // ----- commutation -----

  lemma IndexOfUnique(rows: seq<Row>, k: nat)
    requires k < |rows| && DistinctEpisodes(rows)
    ensures IndexOf(rows, rows[k].episode) == Some(k)
  {
  }

  /** Whether and how an append goes through does not depend on what was redacted. */
  lemma AdmissionSeesNoRedaction(s: Store, k: nat, stone: Stone, p: Payload, at: string)
    requires k < |s.rows| && ValidEpisode(p)
    ensures var s1 := WithStone(s, k, stone);
      NextRow(s1, p, at) == NextRow(s, p, at) && Admission(s1, p, at) == Admission(s, p, at)
  {
    DuplicateSeesNoRedaction(s.rows, k, p.episode, NextRow(s, p, at).chain);
  }

  lemma WritesSwap(s: Store, k: nat, stone: Stone, r: Row)
    requires k < |s.rows|
    ensures WithStone(WithRow(s, r), k, stone) == WithRow(WithStone(s, k, stone), r)
  {
    assert (s.rows + [r])[k := Redacted(s.rows[k])] == s.rows[k := Redacted(s.rows[k])] + [r];
  }

  lemma FoundAgain(rows: seq<Row>, r: Row, e: string, k: nat)
    requires IndexOf(rows, e) == Some(k) && DistinctEpisodes(rows + [r])
    ensures IndexOf(rows + [r], e) == Some(k)
  {
    assert (rows + [r])[k] == rows[k];
    IndexOfUnique(rows + [r], k);
  }

  lemma CommuteAt(s: Store, k: nat, stone: Stone, p: Payload, at: string)
    requires ValidEpisode(p) && IndexOf(s.rows, stone.episode) == Some(k)
    requires Admission(s, p, at) == None ==> IndexOf(s.rows + [NextRow(s, p, at)], stone.episode) == Some(k)
    ensures var (s1, r1) := TombstoneVerified(s, stone);
      var (s12, r2) := AppendVerified(s1, p, at);
      var (s2, q2) := AppendVerified(s, p, at);
      var (s21, q1) := TombstoneVerified(s2, stone);
      s12 == s21 && r1 == q1 && r2 == q2
  {
    AdmissionSeesNoRedaction(s, k, stone, p, at);
    WritesSwap(s, k, stone, NextRow(s, p, at));
  }

  lemma VerifiedCommute(s: Store, stone: Stone, p: Payload, at: string)
    requires Kept(s) && stone.episode in Episodes(s.rows) && ValidEpisode(p)
    ensures var (s1, r1) := TombstoneVerified(s, stone);
      var (s12, r2) := AppendVerified(s1, p, at);
      var (s2, q2) := AppendVerified(s, p, at);
      var (s21, q1) := TombstoneVerified(s2, stone);
      s12 == s21 && r1 == q1 && r2 == q2
  {
    var k := IndexOf(s.rows, stone.episode).value;
    if Admission(s, p, at) == None {
      AppendVerifiedKeeps(s, p, at);
      FoundAgain(s.rows, NextRow(s, p, at), stone.episode, k);
    }
    CommuteAt(s, k, stone, p, at);
  }

  /** Redacting a recorded episode and appending another reach the same store, with the
      same replies, in either order. */
  lemma TombstoneAppendCommute(s: Store, e: string, reason: string, at1: string, p: Payload, at2: string)
    requires Kept(s) && e in Episodes(s.rows)
    ensures var (s1, r1) := Tombstone(s, e, reason, at1);
      var (s12, r2) := Append(s1, p, at2);
      var (s2, q2) := Append(s, p, at2);
      var (s21, q1) := Tombstone(s2, e, reason, at1);
      s12 == s21 && r1 == q1 && r2 == q2
  {
    var stone := Stone(e, reason, at1, TOMBSTONE);
    TombstoneOnKept(s, stone);
    AppendOnKept(s, p, at2);
    AppendOnKept(TombstoneKept(s, stone).0, p, at2);
    TombstoneOnKept(AppendKept(s, p, at2).0, stone);
    if ValidEpisode(p) {
      VerifiedCommute(s, stone, p, at2);
    }
  }

  /** On a kept store the integrity checks pass, so only the other checks decide. */
  function AppendKept(s: Store, p: Payload, at: string): (Store, Reply<Receipt>) {
    if !ValidEpisode(p) then (s, Refused(EpisodeInvalid))
    else if !IsTimestamp(at) then (s, Refused(ClockRefused))
    else AppendVerified(s, p, at)
  }

  function TombstoneKept(s: Store, stone: Stone): (Store, Reply<Stone>) {
    if !IsTimestamp(stone.created) then (s, Refused(ClockRefused)) else TombstoneVerified(s, stone)
  }

  lemma AppendOnKept(s: Store, p: Payload, at: string)
    requires Kept(s)
    ensures Append(s, p, at) == AppendKept(s, p, at) && Kept(AppendKept(s, p, at).0)
  {
    KeptVerifies(s);
    AppendKeeps(s, p, at);
  }

  lemma TombstoneOnKept(s: Store, stone: Stone)
    requires Kept(s) && stone.mode == TOMBSTONE
    ensures Tombstone(s, stone.episode, stone.reason, stone.created) == TombstoneKept(s, stone)
    ensures Kept(TombstoneKept(s, stone).0)
  {
    KeptVerifies(s);
    TombstoneVerifiedKeeps(s, stone);
  }

  lemma KeptVerifies(s: Store)
    requires Kept(s)
    ensures Findings(s) == []
  {
    VerifierExact(s);
  }

  lemma DuplicateSeesNoRedaction(rows: seq<Row>, k: nat, e: string, c: Seal)
    requires k < |rows|
    ensures var rows1 := rows[k := Redacted(rows[k])];
      (exists r :: r in rows1 && (r.episode == e || r.chain == c)) <==> (exists r :: r in rows && (r.episode == e || r.chain == c))
  {
    var rows1 := rows[k := Redacted(rows[k])];
    if r :| r in rows && (r.episode == e || r.chain == c) {
      var i :| 0 <= i < |rows| && rows[i] == r;
      assert rows1[i] in rows1 && (rows1[i].episode == e || rows1[i].chain == c);
    }
    if r :| r in rows1 && (r.episode == e || r.chain == c) {
      var i :| 0 <= i < |rows1| && rows1[i] == r;
      assert rows[i] in rows && (rows[i].episode == e || rows[i].chain == c);
    }
  }

  // ----- what later operations keep -----

  /** Every row of `s` is still there in `t`, at the same place: it is the same row, or it
      lost its payload and a tombstone recorded since names its episode. */
  predicate Extends(s: Store, t: Store) {
    && |s.rows| <= |t.rows| && s.stones <= t.stones
    && forall i :: 0 <= i < |s.rows| ==>
         t.rows[i] == s.rows[i]
         || (t.rows[i] == Redacted(s.rows[i]) && s.rows[i].redacted != 1
             && s.rows[i].episode in Tombstoned(t.stones[|s.stones|..]))
  }

  predicate Attests(receipt: Receipt, s: Store) {
    1 <= receipt.num <= |s.rows|
    && ReceiptFor(s.rows[receipt.num - 1]) == receipt
  }

  lemma ExecuteExtends(s: Store, c: Command)
    requires Kept(s)
    ensures var t := Execute(s, c);
      && Kept(t) && Extends(s, t) && SameIdentity(s.binding, t.binding)
      && (s.binding.status == Abandoned ==> t.binding == s.binding && |t.rows| == |s.rows|)
  {
    match c {
      case DoAppend(p, at) => AppendKeeps(s, p, at); AppendExtends(s, p, at);
      case DoTombstone(e, reason, at) =>
        TombstoneKeeps(s, e, reason, at);
        TombstoneExtends(s, Stone(e, reason, at, TOMBSTONE));
      case DoAbandon(at) => AbandonKeeps(s, at);
    }
  }

  lemma AppendExtends(s: Store, p: Payload, at: string)
    ensures var t := Append(s, p, at).0;
      Extends(s, t) && t.binding == s.binding && (s.binding.status == Abandoned ==> t == s)
  {
  }

  lemma TombstoneExtends(s: Store, stone: Stone)
    ensures var t := TombstoneVerified(s, stone).0;
      Extends(s, t) && |t.rows| == |s.rows| && t.binding == s.binding
  {
    assert (s.stones + [stone])[|s.stones|..] == [stone];
  }

  lemma ExtendsTransitive(s: Store, t: Store, u: Store)
    requires Extends(s, t) && Extends(t, u)
    ensures Extends(s, u)
  {
    var n, m := |s.stones|, |t.stones|;
    assert u.stones[n..] == t.stones[n..] + u.stones[m..];
    TombstonedJoin(t.stones[n..], u.stones[m..]);
  }

  lemma TombstonedJoin(a: seq<Stone>, b: seq<Stone>)
    ensures Tombstoned(a + b) == Tombstoned(a) + Tombstoned(b)
  {
    assert forall stone :: stone in a + b <==> stone in a || stone in b;
  }

  lemma SameLengthSameRoot(s: Store, t: Store)
    requires Extends(s, t) && |s.rows| == |t.rows| && s.binding == t.binding
    ensures RootSeal(s) == RootSeal(t)
  {
  }

  /** Over any run: no link is ever lost or altered, and an abandoned chain never grows. */
  lemma {:induction false} RunExtends(s: Store, commands: seq<Command>)
    requires Kept(s)
    ensures var t := RunAll(s, commands);
      && Kept(t) && Extends(s, t) && SameIdentity(s.binding, t.binding)
      && (s.binding.status == Abandoned ==>
            t.binding == s.binding && |t.rows| == |s.rows| && RootSeal(t) == RootSeal(s))
    decreases |commands|
  {
    if commands == [] {
    } else {
      var s1 := Execute(s, commands[0]);
      var t := RunAll(s1, commands[1..]);
      ExecuteExtends(s, commands[0]);
      RunExtends(s1, commands[1..]);
      ExtendsTransitive(s, s1, t);
      if s.binding.status == Abandoned {
        SameLengthSameRoot(s, t);
      }
    }
  }

  /** A receipt stays true: whatever runs afterwards, row `num` still is what it says. */
  lemma ReceiptsStay(s: Store, p: Payload, at: string, later: seq<Command>)
    requires Kept(s) && Append(s, p, at).1.Accepted?
    ensures Attests(Append(s, p, at).1.value, RunAll(Append(s, p, at).0, later))
  {
    var s1 := Append(s, p, at).0;
    AppendKeeps(s, p, at);
    RunExtends(s1, later);
    var i := |s.rows|;
    assert SameLink(s1.rows[i], RunAll(s1, later).rows[i]);
  }

  // ----- abandonment and the anchor -----

  lemma BodySame(s: Store, t: Store)
    requires s.rows == t.rows && s.stones == t.stones && SameIdentity(s.binding, t.binding)
    ensures BodyWellFormed(s) <==> BodyWellFormed(t)
  {
  }

  /** Abandoning rewrites the anchor without consulting the old one: the result verifies
      exactly when rows and tombstones were in order, whatever the anchor said. */
  lemma AbandonmentReanchors(s: Store, at: string)
    requires AbandonEpoch(s, at).1.Accepted?
    ensures Findings(AbandonEpoch(s, at).0) == [] <==> BodyWellFormed(s)
  {
    var s1 := AbandonEpoch(s, at).0;
    VerifierExact(s1);
    BodySame(s, s1);
  }

  /** So a truncated table, which does not verify, verifies once its epoch is abandoned. */
  lemma TruncationVerifiesAfterAbandonment(s: Store, n: nat, at: string)
    requires Kept(s) && n < |s.rows| && s.stones == [] && s.binding.status == Open && IsTimestamp(at)
    ensures var cut := s.(rows := s.rows[..n]);
      Findings(cut) != [] && AbandonEpoch(cut, at).1.Accepted? && Findings(AbandonEpoch(cut, at).0) == []
  {
    var cut := s.(rows := s.rows[..n]);
    VerifierExact(s);
    VerifierExact(cut);
    AbandonmentReanchors(cut, at);
    forall i | 0 <= i < n
      ensures LinkAt(cut.rows, i, 1, GenesisOf(s.binding)) && RowSettled(cut.rows[i], Tombstoned(s.stones), s.binding)
    {
      assert LinkAt(s.rows, i, 1, GenesisOf(s.binding)) && RowSettled(s.rows[i], Tombstoned(s.stones), s.binding);
    }
  }
}
