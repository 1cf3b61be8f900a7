/** `recover`: observe every target of the pending journal, then restore. */
module Recovery {
  import opened Options
  import opened ConfinedIo
  import opened TransactionJournal

  /** What preflight holds for one entry: its target and backup leases. */
  datatype Observation = Observation(entry: Entry, target: Lease, backup: Option<Lease>)

  datatype Finding = Clear(observation: Observation) | Conflicts(path: Path) | Halts(signal: Signal)

  datatype Survey = Surveyed(observations: seq<Observation>) | Blocked(path: Path) | Cut(signal: Signal)

  datatype Reply = NothingPending | Recovered | Conflict(path: Path) | Invalid | Died

  /** A phase either lets recovery go on or ends it with a reply. */
  datatype Phase = Go | Stop(reply: Reply)

  function Halted(signal: Signal): Reply {
    if signal == Crashed then Died else Invalid
  }

  predicate OwnsCreate(e: Entry) {
    e.before.None? && IsConfirmed(e.provenance)
  }

  function Held(o: Observation): Option<Digest> {
    DigestOf(LeaseContent(o.target))
  }

  function Saved(o: Observation): Option<Content> {
    if o.backup.Some? then LeaseContent(o.backup.value) else None
  }

  // ----- preflight -----

  /** The checks on what was observed, in the order the code makes them. */
  function Assess(o: Observation): Finding {
    var e := o.entry;
    if Held(o) != e.before && Held(o) != e.after then Conflicts(e.path)
    else if e.before.None? && Held(o) == e.after && !IsConfirmed(e.provenance) then Conflicts(e.path)
    else if Saved(o).Some? && DigestOf(Saved(o)) != e.before then
      Conflicts(if e.backup.Some? then e.backup.value else e.path)
    else if Held(o) == e.after && e.before.Some? && Saved(o).None? then Conflicts(e.path)
    else Clear(o)
  }

  function ObserveEntry(w: World, e: Entry): (World, Finding) {
    if OwnsCreate(e) && IdentityOf(e.provenance).None? then (w, Conflicts(e.path))
    else
      var t := Open(w, e.path);
      if t.signal != Done then (t.w, Halts(t.signal))
      else
        var b := if e.backup.Some? then Open(t.w, e.backup.value) else t;
        var o := Observation(e, t.lease, if e.backup.Some? then Some(b.lease) else None);
        if b.signal != Done then (b.w, Halts(b.signal))
        else if !OwnsCreate(e) then (b.w, Assess(o))
        else
          var (s, fp) := FingerprintOf(b.w, t.lease);
          if s.signal == Crashed then (s.w, Halts(Crashed))
          else if s.signal != Done || fp != IdentityOf(e.provenance) then (s.w, Conflicts(e.path))
          else (s.w, Assess(o))
  }

  function ObserveAll(w: World, entries: seq<Entry>): (World, Survey)
    decreases |entries|
  {
    if entries == [] then (w, Surveyed([]))
    else
      var (w1, f) := ObserveEntry(w, entries[0]);
      match f
      case Conflicts(p) => (w1, Blocked(p))
      case Halts(s) => (w1, Cut(s))
      case Clear(o) =>
        var (w2, rest) := ObserveAll(w1, entries[1..]);
        (w2, if rest.Surveyed? then Surveyed([o] + rest.observations) else rest)
  }

  // ----- phases after preflight -----

  function AssertLease(w: World, l: Lease, blame: Path): (World, Phase) {
    var s := AssertCurrent(w, l);
    (s.w, match s.signal
          case Done => Go
          case Raised => Stop(Conflict(blame))
          case Crashed => Stop(Died))
  }

  /** Read again the fingerprint of every confirmed create. */
  function Recheck(w: World, obs: seq<Observation>, i: nat): (World, Phase)
    requires i <= |obs|
    decreases |obs| - i
  {
    if i == |obs| then (w, Go)
    else if !OwnsCreate(obs[i].entry) then Recheck(w, obs, i + 1)
    else
      var (s, fp) := FingerprintOf(w, obs[i].target);
      if s.signal == Crashed then (s.w, Stop(Died))
      else if s.signal != Done || fp != IdentityOf(obs[i].entry.provenance) then
        (s.w, Stop(Conflict(obs[i].entry.path)))
      else Recheck(s.w, obs, i + 1)
  }

  predicate ToRevoke(o: Observation) {
    OwnsCreate(o.entry) && Held(o) == o.entry.after
  }

  function RevokeAll(w: World, journal: Lease, obs: seq<Observation>, i: nat): (Step, Phase)
    requires i <= |obs|
    decreases |obs| - i
  {
    if i == |obs| then (Step(w, journal, Done), Go)
    else if !ToRevoke(obs[i]) then RevokeAll(w, journal, obs, i + 1)
    else
      var s := SetState(w, journal, obs[i].entry.path, Revoked);
      if s.signal != Done then (s, Stop(Halted(s.signal)))
      else RevokeAll(s.w, s.lease, obs, i + 1)
  }

  function AssertAll(w: World, obs: seq<Observation>, i: nat): (World, Phase)
    requires i <= |obs|
    decreases |obs| - i
  {
    if i == |obs| then (w, Go)
    else
      var (w1, p1) := AssertLease(w, obs[i].target, obs[i].entry.path);
      if p1.Stop? then (w1, p1)
      else
        var (w2, p2) :=
          if obs[i].backup.Some? then AssertLease(w1, obs[i].backup.value, obs[i].entry.path) else (w1, Go);
        if p2.Stop? then (w2, p2) else AssertAll(w2, obs, i + 1)
  }

  /** Undo one after-state: remove an owned create, or put the backup bytes back. */
  function RestoreOne(w: World, o: Observation): (World, Phase) {
    if Held(o) != o.entry.after then (w, Go)
    else if o.entry.before.None? && !ToRevoke(o) then (w, Stop(Conflict(o.entry.path)))
    else if o.entry.before.Some? && Saved(o).None? then (w, Stop(Invalid))
    else
      var s := if o.entry.before.None? then Remove(w, o.target) else Replace(w, o.target, Saved(o).value);
      (s.w, if s.signal == Done then Go else Stop(Halted(s.signal)))
  }

  function RestoreAll(w: World, obs: seq<Observation>, i: nat): (World, Phase)
    requires i <= |obs|
    decreases |obs| - i
  {
    if i == |obs| then (w, Go)
    else
      var (w1, p) := RestoreOne(w, obs[i]);
      if p.Stop? then (w1, p) else RestoreAll(w1, obs, i + 1)
  }

  function RemoveJournal(w: World, journal: Lease): (World, Reply) {
    var s := Remove(w, journal);
    (s.w, match s.signal
          case Done => Recovered
          case Raised => Conflict(JournalPath)
          case Crashed => Died)
  }

  /** The read-only checks: journal, fingerprints, journal again. */
  function CheckAll(w: World, journal: Lease, obs: seq<Observation>): (World, Phase) {
    var (w1, p1) := AssertLease(w, journal, JournalPath);
    if p1.Stop? then (w1, p1)
    else
      var (w2, p2) := Recheck(w1, obs, 0);
      if p2.Stop? then (w2, p2) else AssertLease(w2, journal, JournalPath)
  }

  /** Everything between preflight and the first restored file. */
  function Prepare(w: World, journal: Lease, obs: seq<Observation>): (Step, Phase) {
    var (w1, p1) := CheckAll(w, journal, obs);
    if p1.Stop? then (Step(w1, journal, Done), p1) else RevokeAll(w1, journal, obs, 0)
  }

  function Settle(w: World, journal: Lease, obs: seq<Observation>): (World, Reply) {
    var (w1, p1) := AssertAll(w, obs, 0);
    if p1.Stop? then (w1, p1.reply)
    else
      var (w2, p2) := AssertLease(w1, journal, JournalPath);
      if p2.Stop? then (w2, p2.reply)
      else
        var (w3, p3) := RestoreAll(w2, obs, 0);
        if p3.Stop? then (w3, p3.reply) else RemoveJournal(w3, journal)
  }

  function ApplyRecovery(w: World, journal: Lease, obs: seq<Observation>): (World, Reply) {
    var (s, p) := Prepare(w, journal, obs);
    if p.Stop? then (s.w, p.reply) else Settle(s.w, s.lease, obs)
  }

  /** From a decoded journal on: observe, then prepare and settle. */
  function RecoverJournal(w: World, journal: Lease, entries: seq<Entry>): (World, Reply) {
    var (w1, survey) := ObserveAll(w, entries);
    match survey
    case Blocked(p) => (w1, Conflict(p))
    case Cut(signal) => (w1, Halted(signal))
    case Surveyed(obs) => ApplyRecovery(w1, journal, obs)
  }

  function Recover(w: World): (World, Reply) {
    var s := Open(w, JournalPath);
    if s.signal != Done then (s.w, Halted(s.signal))
    else
      match LeaseContent(s.lease)
      case None => (s.w, NothingPending)
      case Some(Raw(_)) => (s.w, Invalid)
      case Some(Encoded(j)) => if !Decodes(j) then (s.w, Invalid) else RecoverJournal(s.w, s.lease, j.entries)
  }
}
