/** The episode ledger: its tables, its chain and anchor seals, and its write path. */
module Ledger {
  import opened Options
  import opened Contracts

  /** A seal is a free constructor over what it covers, one constructor per seal domain:
      equal seals cover equal payloads.  `Text` is any other string found in a column. */
  datatype Seal =
    | Genesis(format: string, store: string, host: string, family: string, epoch: string)
    | Chain(num: int, episode: string, content: Seal, prev: Seal, at: string)
    | Anchor(genesis: Seal, count: int, tail: Seal, status: EpochStatus)
    | Content(payload: Payload)
    | Replayed(store: string, epoch: string, genesis: Seal, links: seq<Link>)
    | Text(text: string)

  datatype EpochStatus = Open | Abandoned

  /** A decoded payload: an episode document, or JSON that is no object.  `provenance`
      is absent when the document carries none that is itself an object. */
  datatype Payload =
    | Document(episode: string, provenance: Option<map<string, string>>, body: string)
    | NotADocument(json: string)

  /** The payload column: text that decodes, or bytes that do not. */
  datatype Stored = Json(payload: Payload) | Undecodable(raw: string)

  datatype Row = Row(
    num: int, episode: string, content: Seal, prev: Seal, chain: Seal,
    payload: Option<Stored>, redacted: int, at: string)

  datatype Stone = Stone(episode: string, reason: string, created: string, mode: string)

  datatype Link = Link(num: int, episode: string, content: Seal, redacted: bool)

  /** The text of `anchor_count`: a plain numeral, a padded one, or no numeral at all. */
  datatype CountText = Numeral(n: nat) | Padded(n: nat, zeros: nat) | NoNumeral(text: string)

  datatype AnchorRows = AnchorRows(count: Option<CountText>, tail: Option<Seal>, seal: Option<Seal>)

  datatype Binding = Binding(
    format: string, store: string, host: string, family: string, epoch: string,
    status: EpochStatus, created: string)

  datatype Store = Store(binding: Binding, anchor: AnchorRows, rows: seq<Row>, stones: seq<Stone>)

  function GenesisOf(b: Binding): Seal {
    Genesis(b.format, b.store, b.host, b.family, b.epoch)
  }

  function TailOf(genesis: Seal, rows: seq<Row>): Seal {
    if rows == [] then genesis else rows[|rows| - 1].chain
  }

  function RootSeal(s: Store): Seal {
    TailOf(GenesisOf(s.binding), s.rows)
  }

  function ChainOf(r: Row): Seal {
    Chain(r.num, r.episode, r.content, r.prev, r.at)
  }

  // ----- contracts -----

  const TOMBSTONE := "TOMBSTONE"

  predicate StoneValid(t: Stone) {
    IsIdentifier(t.episode) && 1 <= |t.reason| <= 500 && IsTimestamp(t.created) && t.mode == TOMBSTONE
  }

  predicate FieldIs(m: map<string, string>, field: string, expected: string) {
    field in m && m[field] == expected
  }

  predicate ProvenanceMatches(m: map<string, string>, b: Binding) {
    && FieldIs(m, "host_id", b.host) && FieldIs(m, "agent_family", b.family)
    && FieldIs(m, "store_id", b.store) && FieldIs(m, "epoch", b.epoch)
  }

  /** A payload may be kept: it belongs to this store, as far as it says where it belongs. */
  predicate Belongs(p: Payload, b: Binding) {
    p.Document? && p.provenance.Some? ==> ProvenanceMatches(p.provenance.value, b)
  }

  predicate ValidEpisode(p: Payload) {
    p.Document? && IsIdentifier(p.episode) && p.provenance.Some?
    && {"host_id", "agent_family", "store_id", "epoch"} <= p.provenance.value.Keys
  }

  // ----- verification -----

  datatype Kind =
    | SequenceInvalid | ChainBroken | PayloadAltered | PayloadUnparseable | PayloadMissing
    | PayloadPresentOnRedacted | RedactedWithoutTombstone | TombstoneInvalid
    | TombstoneOnUnredacted | OrphanTombstone | ProvenanceMismatch | AnchorMismatch | AnchorMissing

  datatype Finding = Finding(num: Option<int>, episode: Option<string>, kind: Kind)

  function Tombstoned(stones: seq<Stone>): set<string> {
    set t | t in stones && StoneValid(t) :: t.episode
  }

  function About(r: Row, kind: Kind): Finding {
    Finding(Some(r.num), Some(r.episode), kind)
  }

  function When(condition: bool, f: Finding): seq<Finding> {
    if condition then [f] else []
  }

  function LinkFindings(r: Row, expected: int, previous: Seal): seq<Finding> {
    When(r.num != expected, About(r, SequenceInvalid))
    + When(r.prev != previous, About(r, ChainBroken))
    + When(ChainOf(r) != r.chain, About(r, ChainBroken))
  }

  function RedactedFindings(r: Row, tombstoned: set<string>): seq<Finding> {
    When(r.payload.Some?, About(r, PayloadPresentOnRedacted))
    + When(r.episode !in tombstoned, About(r, RedactedWithoutTombstone))
  }

  function KeptFindings(r: Row, tombstoned: set<string>, b: Binding): seq<Finding> {
    When(r.episode in tombstoned, About(r, TombstoneOnUnredacted))
    + match r.payload
      case None => [About(r, PayloadMissing)]
      case Some(Undecodable(_)) => [About(r, PayloadUnparseable)]
      case Some(Json(p)) =>
        if Content(p) != r.content then [About(r, PayloadAltered)]
        else When(!Belongs(p, b), About(r, ProvenanceMismatch))
  }

  function RowFindings(r: Row, expected: int, previous: Seal, tombstoned: set<string>, b: Binding): seq<Finding> {
    LinkFindings(r, expected, previous)
    + if r.redacted == 1 then RedactedFindings(r, tombstoned) else KeptFindings(r, tombstoned, b)
  }

  /** Walk the rows, carrying the expected sequence number and the previous seal. */
  function WalkFindings(rows: seq<Row>, expected: int, previous: Seal, tombstoned: set<string>, b: Binding)
    : seq<Finding>
    decreases |rows|
  {
    if rows == [] then []
    else RowFindings(rows[0], expected, previous, tombstoned, b)
         + WalkFindings(rows[1..], rows[0].num + 1, rows[0].chain, tombstoned, b)
  }

  function StoneFindings(stones: seq<Stone>): seq<Finding> {
    if stones == [] then []
    else When(!StoneValid(stones[0]), Finding(None, Some(stones[0].episode), TombstoneInvalid))
         + StoneFindings(stones[1..])
  }

  function Episodes(rows: seq<Row>): set<string> {
    set r | r in rows :: r.episode
  }

  function OrphanFindings(stones: seq<Stone>, seen: set<string>): seq<Finding> {
    if stones == [] then []
    else When(stones[0].episode !in seen, Finding(None, Some(stones[0].episode), OrphanTombstone))
         + OrphanFindings(stones[1..], seen)
  }

  function CountValue(c: CountText): int {
    if c.NoNumeral? then -1 else c.n
  }

  function AnchorFindings(a: AnchorRows, b: Binding, count: nat, tail: Seal): seq<Finding> {
    if a.count.None? || a.tail.None? || a.seal.None? then [Finding(None, None, AnchorMissing)]
    else
      When(Anchor(GenesisOf(b), CountValue(a.count.value), a.tail.value, b.status) != a.seal.value,
           Finding(None, None, AnchorMismatch))
      + When(a.count.value != Numeral(count) || a.tail.value != tail, Finding(None, None, AnchorMismatch))
  }

  function Findings(s: Store): seq<Finding> {
    StoneFindings(s.stones)
    + WalkFindings(s.rows, 1, GenesisOf(s.binding), Tombstoned(s.stones), s.binding)
    + OrphanFindings(s.stones, Episodes(s.rows))
    + AnchorFindings(s.anchor, s.binding, |s.rows|, RootSeal(s))
  }

  // ----- write path -----

  datatype Fault =
    | EpisodeInvalid | ClockRefused | IntegrityFault | EpochClosed | WrongProvenance
    | DuplicateEpisode | NoSuchEpisode | AlreadyRedacted | ReasonRefused

  datatype Receipt = Receipt(num: int, episode: string, content: Seal, chain: Seal, root: Seal, at: string)

  datatype Reply<+T> = Accepted(value: T) | Refused(fault: Fault)

  function Anchored(b: Binding, count: nat, tail: Seal): AnchorRows {
    AnchorRows(Some(Numeral(count)), Some(tail), Some(Anchor(GenesisOf(b), count, tail, b.status)))
  }

  function Create(b: Binding): Store
    requires b.status == Open
  {
    Store(b, Anchored(b, 0, GenesisOf(b)), [], [])
  }

  function NextRow(s: Store, p: Payload, at: string): Row
    requires p.Document?
  {
    var num := if s.rows == [] then 1 else s.rows[|s.rows| - 1].num + 1;
    var prev := RootSeal(s);
    Row(num, p.episode, Content(p), prev, Chain(num, p.episode, Content(p), prev, at), Some(Json(p)), 0, at)
  }

  function ReceiptFor(r: Row): Receipt {
    Receipt(r.num, r.episode, r.content, r.chain, r.chain, r.at)
  }

  /** The checks on a store that verifies: epoch, provenance, uniqueness. */
  function Admission(s: Store, p: Payload, at: string): Option<Fault>
    requires ValidEpisode(p)
  {
    if s.binding.status == Abandoned then Some(EpochClosed)
    else if !ProvenanceMatches(p.provenance.value, s.binding) then Some(WrongProvenance)
    else if exists r :: r in s.rows && (r.episode == p.episode || r.chain == NextRow(s, p, at).chain) then
      Some(DuplicateEpisode)
    else None
  }

  /** Insert the row and move the anchor to it, in one transaction. */
  function WithRow(s: Store, r: Row): Store {
    s.(rows := s.rows + [r], anchor := Anchored(s.binding, if r.num < 0 then 0 else r.num, r.chain))
  }

  function AppendVerified(s: Store, p: Payload, at: string): (Store, Reply<Receipt>)
    requires ValidEpisode(p)
  {
    match Admission(s, p, at)
    case Some(fault) => (s, Refused(fault))
    case None => (WithRow(s, NextRow(s, p, at)), Accepted(ReceiptFor(NextRow(s, p, at))))
  }

  function Append(s: Store, p: Payload, at: string): (Store, Reply<Receipt>) {
    if !ValidEpisode(p) then (s, Refused(EpisodeInvalid))
    else if !IsTimestamp(at) then (s, Refused(ClockRefused))
    else if Findings(s) != [] then (s, Refused(IntegrityFault))
    else AppendVerified(s, p, at)
  }

  function IndexOf(rows: seq<Row>, episode: string): (k: Option<nat>)
    ensures k.Some? ==> k.value < |rows| && rows[k.value].episode == episode
    ensures k.None? <==> episode !in Episodes(rows)
  {
    if rows == [] then None
    else if rows[0].episode == episode then Some(0)
    else
      match IndexOf(rows[1..], episode)
      case None => None
      case Some(k) => Some(k + 1)
  }

  function Redacted(r: Row): Row {
    r.(payload := None, redacted := 1)
  }

  /** Drop the payload and record the tombstone, in one transaction. */
  function WithStone(s: Store, k: nat, stone: Stone): Store
    requires k < |s.rows|
  {
    s.(rows := s.rows[k := Redacted(s.rows[k])], stones := s.stones + [stone])
  }

  function TombstoneVerified(s: Store, stone: Stone): (Store, Reply<Stone>) {
    match IndexOf(s.rows, stone.episode)
    case None => (s, Refused(NoSuchEpisode))
    case Some(k) =>
      if s.rows[k].redacted == 1 then (s, Refused(AlreadyRedacted))
      else if !StoneValid(stone) then (s, Refused(ReasonRefused))
      else (WithStone(s, k, stone), Accepted(stone))
  }

  function Tombstone(s: Store, episode: string, reason: string, at: string): (Store, Reply<Stone>) {
    if !IsTimestamp(at) then (s, Refused(ClockRefused))
    else if Findings(s) != [] then (s, Refused(IntegrityFault))
    else TombstoneVerified(s, Stone(episode, reason, at, TOMBSTONE))
  }

  /** Close the epoch and rewrite the anchor.  Unlike the two others, no verification. */
  function AbandonEpoch(s: Store, at: string): (Store, Reply<Binding>) {
    if !IsTimestamp(at) then (s, Refused(ClockRefused))
    else if s.binding.status == Abandoned then (s, Refused(EpochClosed))
    else
      var b := s.binding.(status := Abandoned);
      (s.(binding := b, anchor := Anchored(b, |s.rows|, RootSeal(s))), Accepted(b))
  }
}
