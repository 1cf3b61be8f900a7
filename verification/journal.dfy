/** The transaction journal: building it, reading it back, and moving one create
    through `planned -> attempted -> confirmed` or to `revoked`. */
module TransactionJournal {
  import opened Options
  import opened ConfinedIo

  /** One planned file operation; `before == after` is the action "unchanged". */
  datatype Op = Op(path: Path, before: Option<Content>, after: Option<Content>)

  predicate Changes(op: Op) {
    op.before != op.after
  }

  function BackupOf(p: Path, tag: string): Path
    requires p.Managed?
  {
    Backup(p.host, p.file, tag)
  }

  function EntryFor(op: Op, tag: string): Entry
    requires op.path.Managed?
  {
    Entry(op.path, DigestOf(op.before), DigestOf(op.after),
          if op.before.Some? then Some(BackupOf(op.path, tag)) else None,
          Identified(Some(if op.before.None? then Planned else NotApplicable), None))
  }

  function EntriesFor(ops: seq<Op>, tag: string): (entries: seq<Entry>)
    requires forall op :: op in ops ==> op.path.Managed?
    ensures |entries| == |ops|
    ensures forall i :: 0 <= i < |ops| ==> entries[i] == EntryFor(ops[i], tag)
  {
    if ops == [] then [] else [EntryFor(ops[0], tag)] + EntriesFor(ops[1..], tag)
  }

  // ----- provenance of a create -----

  function StateOf(p: Provenance): Option<PublicationState> {
    match p
    case Bare => None
    case LegacyFlag(confirmed) => if confirmed then Some(Confirmed) else None
    case LegacyState(state) => state
    case Identified(state, _) => state
  }

  predicate IsConfirmed(p: Provenance) {
    StateOf(p) == Some(Confirmed)
  }

  function IdentityOf(p: Provenance): Option<Fingerprint> {
    if p.Identified? then p.identity else None
  }

  // ----- decoding -----

  predicate DistinctPaths(entries: seq<Entry>) {
    forall i, j :: 0 <= i < j < |entries| ==> entries[i].path != entries[j].path
  }

  predicate EntryDecodes(j: Journal, e: Entry) {
    && (j.schema == 2 <==> e.provenance.Identified?)
    && (IdentityOf(e.provenance).Some? ==>
          e.before.None? && StateOf(e.provenance) in {Some(Confirmed), Some(Revoked)})
    && e.path.Managed?
    && e.before != e.after
    && (e.provenance.LegacyState? || e.provenance.Identified? ==>
          match StateOf(e.provenance)
          case None => true
          case Some(s) => e.before.None? <==> s != NotApplicable)
    && (e.before.Some? <==> e.backup.Some?)
    && (e.backup.Some? ==> e.backup.value == BackupOf(e.path, j.tag))
  }

  /** The checks made on a pending journal before anything is read or changed. */
  predicate Decodes(j: Journal) {
    && j.schema in {1, 2}
    && j.operation in {"install", "remove"}
    && j.tag != ""
    && j.entries != []
    && (forall i :: 0 <= i < |j.entries| ==> EntryDecodes(j, j.entries[i]))
    && DistinctPaths(j.entries)
  }

  // ----- publication state -----

  /** Setting a state drops the legacy flag; only a confirmation records an identity. */
  function WithState(p: Provenance, state: PublicationState, identity: Option<Fingerprint>): Provenance {
    match p
    case Identified(_, prior) => Identified(Some(state), if identity.Some? then identity else prior)
    case _ => LegacyState(Some(state))
  }

  /** Update the first entry for `path`; without one the journal is rewritten unchanged. */
  function Marked(entries: seq<Entry>, path: Path, state: PublicationState, identity: Option<Fingerprint>)
    : (r: seq<Entry>)
    ensures |r| == |entries|
  {
    if entries == [] then []
    else if entries[0].path == path then
      [entries[0].(provenance := WithState(entries[0].provenance, state, identity))] + entries[1..]
    else [entries[0]] + Marked(entries[1..], path, state, identity)
  }

  lemma {:induction false} MarkedAt(entries: seq<Entry>, k: nat, state: PublicationState, identity: Option<Fingerprint>)
    requires k < |entries| && forall i :: 0 <= i < k ==> entries[i].path != entries[k].path
    ensures Marked(entries, entries[k].path, state, identity)
         == entries[k := entries[k].(provenance := WithState(entries[k].provenance, state, identity))]
  {
    if k == 0 {
    } else {
      assert entries[1..][k - 1] == entries[k];
      forall i | 0 <= i < k - 1 ensures entries[1..][i].path != entries[k].path {
        assert entries[1..][i] == entries[i + 1];
      }
      MarkedAt(entries[1..], k - 1, state, identity);
      assert entries == [entries[0]] + entries[1..];
    }
  }

  function MarkedJournal(j: Journal, path: Path, state: PublicationState, identity: Option<Fingerprint>): Journal {
    j.(entries := Marked(j.entries, path, state, identity))
  }

  /** Rewrite the journal with a new publication state, through its lease. */
  function SetState(w: World, journal: Lease, path: Path, state: PublicationState): Step {
    match LeaseContent(journal)
    case Some(Encoded(j)) => Replace(w, journal, Encoded(MarkedJournal(j, path, state, None)))
    case _ => Step(w, journal, Raised)
  }

  function FindEntry(entries: seq<Entry>, path: Path): Option<Entry> {
    if entries == [] then None
    else if entries[0].path == path then Some(entries[0])
    else FindEntry(entries[1..], path)
  }

  lemma {:induction false} FindEntryAt(entries: seq<Entry>, k: nat)
    requires k < |entries| && forall i :: 0 <= i < k ==> entries[i].path != entries[k].path
    ensures FindEntry(entries, entries[k].path) == Some(entries[k])
  {
    if k == 0 {
    } else {
      assert entries[1..][k - 1] == entries[k];
      forall i | 0 <= i < k - 1 ensures entries[1..][i].path != entries[k].path {
        assert entries[1..][i] == entries[i + 1];
      }
      FindEntryAt(entries[1..], k - 1);
    }
  }

  /** Confirm a create: the held lease must cover the entry's after-bytes, and its
      fingerprint is recorded as the identity this program owns. */
  function Confirm(w: World, journal: Lease, path: Path, published: Lease): Step {
    match LeaseContent(journal)
    case Some(Encoded(j)) =>
      (match FindEntry(j.entries, path)
       case None => Replace(w, journal, Encoded(j))
       case Some(e) =>
         if j.schema != 2 || published.path != path || e.before.Some?
            || DigestOf(LeaseContent(published)) != e.after
         then Step(w, journal, Raised)
         else
           var (s, fp) := FingerprintOf(w, published);
           if s.signal != Done then Step(s.w, journal, s.signal)
           else Replace(s.w, journal, Encoded(MarkedJournal(j, path, Confirmed, fp))))
    case _ => Step(w, journal, Raised)
  }

  // ----- what a state change and a confirmation come to -----

  /** A state change records the state; the identity once recorded stays, and legacy entries have none. */
  lemma WithStateMeans(p: Provenance, state: PublicationState, identity: Option<Fingerprint>)
    ensures var p1 := WithState(p, state, identity);
      && StateOf(p1) == Some(state) && (p1.Identified? <==> p.Identified?)
      && IdentityOf(p1) == if p.Identified? && identity.Some? then identity else IdentityOf(p)
  {
  }

  lemma {:induction false} FindNone(entries: seq<Entry>, path: Path)
    requires forall e :: e in entries ==> e.path != path
    ensures FindEntry(entries, path) == None
  {
    if entries == [] {
    } else {
      FindNone(entries[1..], path);
    }
  }

  /** Nothing to confirm: the journal is rewritten as it is. */
  lemma ConfirmWithoutEntry(w: World, l: Lease, j: Journal, path: Path, published: Lease)
    requires w.schedule == [] && Current(w.disk, l) && LeaseContent(l) == Some(Encoded(j))
    requires forall e :: e in j.entries ==> e.path != path
    ensures var s := Confirm(w, l, path, published);
      s.signal == Done && s.w.disk == Put(w.disk, l.path, Encoded(j), w.disk.clock)
  {
    FindNone(j.entries, path);
  }

  /** While nothing goes wrong, confirming the first entry of a path succeeds exactly under a current
      lease of that very path over the entry's after-bytes, for a create in a current-schema journal; it
      then records the file's own fingerprint in that entry and changes nothing else.  Otherwise it
      raises and writes nothing. */
  lemma ConfirmExact(w: World, l: Lease, j: Journal, k: nat, published: Lease)
    requires w.schedule == [] && Current(w.disk, l) && LeaseContent(l) == Some(Encoded(j))
    requires k < |j.entries| && forall i :: 0 <= i < k ==> j.entries[i].path != j.entries[k].path
    ensures var e := j.entries[k];
      var s := Confirm(w, l, e.path, published);
      if && j.schema == 2 && published.path == e.path && e.before.None? && Current(w.disk, published)
         && published.seen.Some? && Some(Sha256(published.seen.value.content)) == e.after
      then
        s.signal == Done
        && exists p :: StateOf(p) == Some(Confirmed)
             && (e.provenance.Identified? ==>
                   IdentityOf(p) == Some(Fingerprint(w.disk.files[e.path].inode, w.disk.files[e.path].stamp)))
             && s.w.disk == Put(w.disk, l.path, Encoded(j.(entries := j.entries[k := e.(provenance := p)])), w.disk.clock)
      else s.signal == Raised && s.w == w
  {
    var e := j.entries[k];
    FindEntryAt(j.entries, k);
    var fp := FingerprintOf(w, published).1;
    MarkedAt(j.entries, k, Confirmed, fp);
    WithStateMeans(e.provenance, Confirmed, fp);
    assert MarkedJournal(j, e.path, Confirmed, fp)
        == j.(entries := j.entries[k := e.(provenance := WithState(e.provenance, Confirmed, fp))]);
  }
}
