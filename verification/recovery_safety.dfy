/** Recovery without outsiders: what preflight accepts, and what it restores. */
module RecoverySafety {
  import opened Options
  import opened ConfinedIo
  import opened TransactionJournal
  import opened Recovery

  // ----- which disks recovery accepts -----

  predicate BackupIntact(files: map<Path, Node>, e: Entry) {
    e.backup.Some? && e.backup.value in files ==> Some(Sha256(files[e.backup.value].content)) == e.before
  }

  /** The target still holds, or holds again, its before-bytes. */
  predicate AtBefore(files: map<Path, Node>, e: Entry) {
    DigestOf(ContentAt(files, e.path)) == e.before && !OwnsCreate(e) && BackupIntact(files, e)
  }

  /** The target holds its after-bytes and this program can prove how to undo them:
      a recorded fingerprint for a create, an intact backup otherwise. */
  predicate AtAfter(files: map<Path, Node>, e: Entry) {
    && DigestOf(ContentAt(files, e.path)) == e.after
    && (e.before.None? ==>
          && IsConfirmed(e.provenance) && e.path in files
          && IdentityOf(e.provenance) == Some(Fingerprint(files[e.path].inode, files[e.path].stamp)))
    && (e.before.Some? ==> e.backup.Some? && e.backup.value in files && BackupIntact(files, e))
  }

  predicate Restorable(files: map<Path, Node>, e: Entry) {
    AtBefore(files, e) || AtAfter(files, e)
  }

  /** A create is published but its publication is not confirmed. */
  predicate Exposed(files: map<Path, Node>, e: Entry) {
    e.before.None? && !IsConfirmed(e.provenance) && e.after.Some?
    && DigestOf(ContentAt(files, e.path)) == e.after
  }

  predicate Sound(files: map<Path, Node>, e: Entry) {
    Restorable(files, e) || Exposed(files, e)
  }

  predicate JournalOn(d: Disk, j: Journal) {
    ContentAt(d.files, JournalPath) == Some(Encoded(j)) && Decodes(j)
  }

  /** The invariant of every run: a decodable journal all of whose targets are sound. */
  predicate Recoverable(d: Disk, j: Journal) {
    JournalOn(d, j) && forall k :: 0 <= k < |j.entries| ==> Sound(d.files, j.entries[k])
  }

  /** Every entry of the journal has its before-bytes (or its absence) back. */
  predicate AllBefore(files: map<Path, Node>, entries: seq<Entry>) {
    forall k :: 0 <= k < |entries| ==> DigestOf(ContentAt(files, entries[k].path)) == entries[k].before
  }

  /** The two journals name the same targets, digests and backups. */
  predicate SameTargets(j: Journal, j': Journal) {
    && j'.schema == j.schema && j'.operation == j.operation && j'.tag == j.tag
    && |j'.entries| == |j.entries|
    && forall k :: 0 <= k < |j.entries| ==>
         j'.entries[k] == j.entries[k].(provenance := j'.entries[k].provenance)
  }

  lemma MarkDecodes(j: Journal, k: nat, state: PublicationState, identity: Option<Fingerprint>)
    requires Decodes(j) && k < |j.entries| && j.entries[k].before.None? && state != NotApplicable
    requires identity.Some? ==> j.schema == 2 && state == Confirmed
    requires IdentityOf(j.entries[k].provenance).Some? ==> state in {Confirmed, Revoked}
    ensures var j' := MarkedJournal(j, j.entries[k].path, state, identity);
      && j'.entries == j.entries[k := j.entries[k].(provenance := WithState(j.entries[k].provenance, state, identity))]
      && Decodes(j') && SameTargets(j, j')
  {
    MarkedAt(j.entries, k, state, identity);
  }

  // ----- preflight, exactly -----

  predicate Faithful(d: Disk, e: Entry, o: Observation) {
    && o.entry == e
    && o.target == Look(d, e.path)
    && o.backup == (if e.backup.Some? then Some(Look(d, e.backup.value)) else None)
  }

  lemma ObserveEntryQuiet(w: World, j: Journal, e: Entry)
    requires Quiet(w) && EntryDecodes(j, e)
    ensures var (w1, f) := ObserveEntry(w, e);
      && w1.disk == w.disk && Quiet(w1) && w1.log == w.log
      && (w.schedule == [] ==> w1 == w && !f.Halts?)
      && (f.Clear? ==> Restorable(w.disk.files, e) && Faithful(w.disk, e, f.observation))
      && (w.schedule == [] && f.Conflicts? ==> !Restorable(w.disk.files, e))
  {
    QuietTick(w);
    var t := Open(w, e.path);
    QuietTick(t.w);
    var b := if e.backup.Some? then Open(t.w, e.backup.value) else t;
    QuietTick(b.w);
  }

  lemma {:induction false} ObserveQuiet(w: World, j: Journal, entries: seq<Entry>)
    requires Quiet(w) && forall k :: 0 <= k < |entries| ==> EntryDecodes(j, entries[k])
    ensures var (w1, s) := ObserveAll(w, entries);
      && w1.disk == w.disk && Quiet(w1) && w1.log == w.log
      && (s.Surveyed? ==>
            && |s.observations| == |entries|
            && forall k :: 0 <= k < |entries| ==>
                 && Restorable(w.disk.files, entries[k])
                 && Faithful(w.disk, entries[k], s.observations[k]))
    decreases |entries|
  {
    if entries == [] {
    } else {
      ObserveEntryQuiet(w, j, entries[0]);
      ObserveQuiet(ObserveEntry(w, entries[0]).0, j, entries[1..]);
    }
  }

  /** With no failure and no outsider, preflight accepts exactly the restorable disks. */
  lemma {:induction false} ObserveExact(w: World, j: Journal, entries: seq<Entry>)
    requires w.schedule == [] && forall k :: 0 <= k < |entries| ==> EntryDecodes(j, entries[k])
    ensures var (w1, s) := ObserveAll(w, entries);
      && w1 == w && !s.Cut?
      && (s.Surveyed? <==> forall k :: 0 <= k < |entries| ==> Restorable(w.disk.files, entries[k]))
    decreases |entries|
  {
    if entries == [] {
    } else {
      ObserveEntryQuiet(w, j, entries[0]);
      ObserveExact(w, j, entries[1..]);
      var (_, f) := ObserveEntry(w, entries[0]);
      var (_, s) := ObserveAll(w, entries);
      if f.Conflicts? {
        assert !Restorable(w.disk.files, entries[0]);
      } else {
        assert forall k :: 0 < k < |entries| ==> entries[k] == entries[1..][k - 1];
      }
    }
  }

  /** The path a conflict names: the backup's, if the target is in one of its two states but the backup
      holds other bytes, and the target's otherwise. */
  function Blamed(files: map<Path, Node>, e: Entry): Path {
    var held := DigestOf(ContentAt(files, e.path));
    if (held == e.before || held == e.after) && e.backup.Some? && e.backup.value in files && !BackupIntact(files, e)
    then e.backup.value else e.path
  }

  lemma EntryBlames(w: World, j: Journal, e: Entry)
    requires w.schedule == [] && EntryDecodes(j, e) && !Restorable(w.disk.files, e)
    ensures ObserveEntry(w, e) == (w, Conflicts(Blamed(w.disk.files, e)))
  {
  }

  /** Preflight names the first entry that cannot be restored. */
  lemma {:induction false} ObserveBlames(w: World, j: Journal, entries: seq<Entry>, k: nat)
    requires w.schedule == [] && forall i :: 0 <= i < |entries| ==> EntryDecodes(j, entries[i])
    requires k < |entries| && !Restorable(w.disk.files, entries[k])
    requires forall i :: 0 <= i < k ==> Restorable(w.disk.files, entries[i])
    ensures ObserveAll(w, entries) == (w, Blocked(Blamed(w.disk.files, entries[k])))
    decreases k
  {
    ObserveEntryQuiet(w, j, entries[0]);
    if k == 0 {
      EntryBlames(w, j, entries[0]);
    } else {
      ObserveBlames(w, j, entries[1..], k - 1);
    }
  }

  // ----- the phases after preflight, without outsiders -----

  /** Observations faithful to the disk, still current, one per journal entry. */
  predicate Aligned(d: Disk, j: Journal, obs: seq<Observation>) {
    && |obs| == |j.entries|
    && forall k :: 0 <= k < |obs| ==>
         && Faithful(d, j.entries[k], obs[k])
         && Restorable(d.files, j.entries[k])
  }

  lemma {:induction false} RecheckQuiet(w: World, j: Journal, obs: seq<Observation>, i: nat)
    requires Quiet(w) && Aligned(w.disk, j, obs) && i <= |obs|
    ensures var (w1, p) := Recheck(w, obs, i);
      && w1.disk == w.disk && Quiet(w1) && w1.log == w.log
      && (w.schedule == [] ==> w1 == w && p == Go)
      && (p.Stop? ==> p.reply == Died || p.reply.Conflict?)
    decreases |obs| - i
  {
    if i == |obs| {
    } else {
      if OwnsCreate(obs[i].entry) {
        QuietTick(w);
        var (s, fp) := FingerprintOf(w, obs[i].target);
        assert Restorable(w.disk.files, j.entries[i]);
        RecheckQuiet(s.w, j, obs, i + 1);
      } else {
        RecheckQuiet(w, j, obs, i + 1);
      }
    }
  }

  lemma {:induction false} AssertAllQuiet(w: World, obs: seq<Observation>, i: nat)
    requires Quiet(w) && i <= |obs|
    ensures var (w1, p) := AssertAll(w, obs, i);
      && w1.disk == w.disk && Quiet(w1) && w1.log == w.log
      && (p.Stop? ==> p.reply == Died || p.reply.Conflict?)
      && (w.schedule == [] && (forall k :: i <= k < |obs| ==>
            Current(w.disk, obs[k].target) && (obs[k].backup.Some? ==> Current(w.disk, obs[k].backup.value)))
          ==> w1 == w && p == Go)
    decreases |obs| - i
  {
    if i == |obs| {
    } else {
      QuietTick(w);
      var (w1, p1) := AssertLease(w, obs[i].target, obs[i].entry.path);
      QuietTick(w1);
      var (w2, p2) :=
        if obs[i].backup.Some? then AssertLease(w1, obs[i].backup.value, obs[i].entry.path) else (w1, Go);
      AssertAllQuiet(w2, obs, i + 1);
    }
  }

  /** `j1` is `j` with some of the owned creates still at their after-state revoked. */
  predicate Revoking(j: Journal, j1: Journal, obs: seq<Observation>) {
    && SameTargets(j, j1) && |obs| == |j.entries|
    && forall k :: 0 <= k < |obs| ==>
         || j1.entries[k].provenance == j.entries[k].provenance
         || (ToRevoke(obs[k]) && StateOf(j1.entries[k].provenance) == Some(Revoked))
  }

  predicate RevokedFrom(j1: Journal, obs: seq<Observation>, from: nat, to: nat) {
    |j1.entries| == |obs| && from <= to <= |obs|
    && forall k :: from <= k < to && ToRevoke(obs[k]) ==> StateOf(j1.entries[k].provenance) == Some(Revoked)
  }

  ghost predicate SameElsewhere(d: Disk, d1: Disk, p: Path) {
    forall q :: q != p ==> NodeAt(d1, q) == NodeAt(d, q)
  }

  /** One publication-state write: nothing, or exactly the marked journal. */
  lemma SetStateQuiet(w: World, l: Lease, j: Journal, k: nat, state: PublicationState)
    requires Quiet(w) && JournalOn(w.disk, j) && l.path == JournalPath
    requires k < |j.entries| && j.entries[k].before.None? && state in {Attempted, Revoked}
    requires IdentityOf(j.entries[k].provenance).Some? ==> state == Revoked
    ensures var s := SetState(w, l, j.entries[k].path, state);
      var j1 := MarkedJournal(j, j.entries[k].path, state, None);
      && Quiet(s.w) && s.lease.path == JournalPath && SameElsewhere(w.disk, s.w.disk, JournalPath)
      && (s.w.disk == w.disk || (Current(w.disk, l) && JournalOn(s.w.disk, j1)))
      && (s.signal == Done ==> JournalOn(s.w.disk, j1) && Current(s.w.disk, s.lease))
      && (s.signal == Crashed ==> s.w.disk == w.disk)
      && (w.schedule == [] && Current(w.disk, l) ==> s.signal == Done && s.w.schedule == [])
  {
    var path := j.entries[k].path;
    MarkDecodes(j, k, state, None);
    if LeaseContent(l).Some? && LeaseContent(l).value.Encoded? {
      var seen := LeaseContent(l).value.journal;
      QuietReplace(w, l, Encoded(MarkedJournal(seen, path, state, None)));
    }
  }

  lemma RevokingStep(j0: Journal, j: Journal, j1: Journal, obs: seq<Observation>, i: nat)
    requires Revoking(j0, j, obs) && RevokedFrom(j, obs, 0, i) && i < |obs| && ToRevoke(obs[i])
    requires j.entries[i].before.None?
    requires j1 == j.(entries := j.entries[i := j.entries[i].(provenance := WithState(j.entries[i].provenance, Revoked, None))])
    ensures Revoking(j0, j1, obs) && RevokedFrom(j1, obs, 0, i + 1)
  {
  }

  /** Revoking one owned create: the journal as it was, or with exactly that entry revoked. */
  lemma RevokeOneQuiet(w: World, l: Lease, j0: Journal, j: Journal, obs: seq<Observation>, i: nat)
    returns (j1: Journal)
    requires Quiet(w) && i < |obs| && ToRevoke(obs[i]) && l.path == JournalPath
    requires JournalOn(w.disk, j) && Revoking(j0, j, obs) && RevokedFrom(j, obs, 0, i)
    requires obs[i].entry == j0.entries[i]
    ensures var s := SetState(w, l, obs[i].entry.path, Revoked);
      && Quiet(s.w) && JournalOn(s.w.disk, j1) && Revoking(j0, j1, obs) && s.lease.path == JournalPath
      && SameElsewhere(w.disk, s.w.disk, JournalPath)
      && (s.signal == Done ==> RevokedFrom(j1, obs, 0, i + 1) && Current(s.w.disk, s.lease))
      && (w.schedule == [] && Current(w.disk, l) ==> s.signal == Done && s.w.schedule == [])
  {
    j1 := j;
    var path := j.entries[i].path;
    assert obs[i].entry.path == path;
    var s := SetState(w, l, path, Revoked);
    SetStateQuiet(w, l, j, i, Revoked);
    MarkDecodes(j, i, Revoked, None);
    if s.w.disk != w.disk || s.signal == Done {
      j1 := MarkedJournal(j, path, Revoked, None);
      RevokingStep(j0, j, j1, obs, i);
    }
  }

  lemma {:induction false} RevokeQuiet(w: World, l: Lease, j0: Journal, j: Journal, obs: seq<Observation>, i: nat)
    returns (j1: Journal)
    requires Quiet(w) && i <= |obs| && l.path == JournalPath
    requires JournalOn(w.disk, j) && Revoking(j0, j, obs) && RevokedFrom(j, obs, 0, i)
    requires forall k :: 0 <= k < |obs| ==> obs[k].entry == j0.entries[k]
    ensures var (s, p) := RevokeAll(w, l, obs, i);
      && Quiet(s.w) && JournalOn(s.w.disk, j1) && Revoking(j0, j1, obs) && s.lease.path == JournalPath
      && SameElsewhere(w.disk, s.w.disk, JournalPath)
      && (p == Go ==> RevokedFrom(j1, obs, 0, |obs|))
      && (p.Stop? ==> p.reply in {Died, Invalid})
      && (w.schedule == [] && Current(w.disk, l) ==>
            p == Go && s.w.schedule == [] && Current(s.w.disk, s.lease))
    decreases |obs| - i
  {
    j1 := j;
    if i < |obs| {
      if !ToRevoke(obs[i]) {
        j1 := RevokeQuiet(w, l, j0, j, obs, i + 1);
      } else {
        var s := SetState(w, l, obs[i].entry.path, Revoked);
        j1 := RevokeOneQuiet(w, l, j0, j, obs, i);
        if s.signal == Done {
          j1 := RevokeQuiet(s.w, s.lease, j0, j1, obs, i + 1);
        }
      }
    }
  }

  /** The entry `e` of the revoked journal, still as the observation `o` left it. */
  predicate Watched(d: Disk, e: Entry, o: Observation) {
    && o.entry == e.(provenance := o.entry.provenance)
    && !OwnsCreate(e)
    && o.target == Look(d, e.path)
    && (o.backup.Some? <==> e.backup.Some?)
    && (e.backup.Some? ==> LeaseContent(o.backup.value) == ContentAt(d.files, e.backup.value))
    && Restorable(d.files, o.entry)
  }

  lemma RestoreOneQuiet(w: World, j: Journal, e: Entry, o: Observation)
    requires Quiet(w) && EntryDecodes(j, e) && Watched(w.disk, e, o)
    ensures var (w1, p) := RestoreOne(w, o);
      && Quiet(w1) && SameElsewhere(w.disk, w1.disk, e.path)
      && (w1.disk == w.disk || AtBefore(w1.disk.files, e))
      && (p == Go ==> AtBefore(w1.disk.files, e))
      && (p.Stop? ==> p.reply in {Died, Invalid})
      && (w.schedule == [] ==> p == Go && w1.schedule == [])
  {
    if Held(o) == e.after {
      if e.before.None? {
        QuietRemove(w, o.target);
      } else {
        QuietReplace(w, o.target, Saved(o).value);
        assert e.backup.value == BackupOf(e.path, j.tag);
      }
    }
  }

  predicate Restoring(d: Disk, j: Journal, obs: seq<Observation>, i: nat) {
    && JournalOn(d, j) && |obs| == |j.entries| && i <= |obs|
    && (forall k :: 0 <= k < i ==> AtBefore(d.files, j.entries[k]))
    && (forall k :: i <= k < |obs| ==> Watched(d, j.entries[k], obs[k]))
  }

  ghost predicate OnlyTargets(d: Disk, d1: Disk, j: Journal) {
    forall q :: (forall k :: 0 <= k < |j.entries| ==> q != j.entries[k].path) ==> NodeAt(d1, q) == NodeAt(d, q)
  }

  lemma RestoringIsRecoverable(d: Disk, j: Journal, obs: seq<Observation>, i: nat)
    requires Restoring(d, j, obs, i)
    ensures Recoverable(d, j)
    ensures i == |obs| ==> AllBefore(d.files, j.entries)
  {
  }

  /** Changing one target keeps every other entry as it was. */
  lemma RestoringStep(d: Disk, d1: Disk, j: Journal, obs: seq<Observation>, i: nat)
    requires Restoring(d, j, obs, i) && i < |obs|
    requires SameElsewhere(d, d1, j.entries[i].path) && AtBefore(d1.files, j.entries[i])
    ensures Restoring(d1, j, obs, i + 1)
  {
    assert EntryDecodes(j, j.entries[i]);
    forall q | q != j.entries[i].path ensures NodeAt(d1, q) == NodeAt(d, q) {}
    assert NodeAt(d1, JournalPath) == NodeAt(d, JournalPath);
    forall k | 0 <= k < |obs| && k != i
      ensures k < i ==> AtBefore(d1.files, j.entries[k])
      ensures k > i ==> Watched(d1, j.entries[k], obs[k])
    {
      var e := j.entries[k];
      assert EntryDecodes(j, e) && e.path != j.entries[i].path;
      assert NodeAt(d1, e.path) == NodeAt(d, e.path);
      if e.backup.Some? {
        assert NodeAt(d1, e.backup.value) == NodeAt(d, e.backup.value);
      }
    }
  }

  predicate KeptOrBefore(d: Disk, d1: Disk, e: Entry) {
    NodeAt(d1, e.path) == NodeAt(d, e.path) || AtBefore(d1.files, e)
  }

  /** One target restored, then the rest: together still only targets, each kept or restored. */
  lemma KeptCompose(d: Disk, d1: Disk, d2: Disk, j: Journal, i: nat)
    requires Decodes(j) && i < |j.entries| && SameElsewhere(d, d1, j.entries[i].path)
    requires d1 == d || AtBefore(d1.files, j.entries[i])
    requires OnlyTargets(d1, d2, j) && forall k :: 0 <= k < |j.entries| ==> KeptOrBefore(d1, d2, j.entries[k])
    ensures OnlyTargets(d, d2, j) && forall k :: 0 <= k < |j.entries| ==> KeptOrBefore(d, d2, j.entries[k])
  {
    forall k | 0 <= k < |j.entries| ensures KeptOrBefore(d, d2, j.entries[k]) {
      var e := j.entries[k];
      assert EntryDecodes(j, e) && KeptOrBefore(d1, d2, e);
      if k == i && d1 != d && e.backup.Some? {
        assert forall m :: 0 <= m < |j.entries| ==> EntryDecodes(j, j.entries[m]) && e.backup.value != j.entries[m].path;
        assert NodeAt(d2, e.backup.value) == NodeAt(d1, e.backup.value);
      }
    }
  }

  /** One round of the restoration loop. */
  lemma RestoreRound(w: World, j: Journal, obs: seq<Observation>, i: nat)
    requires Quiet(w) && Restoring(w.disk, j, obs, i) && i < |obs|
    ensures var (w1, p) := RestoreOne(w, obs[i]);
      && Quiet(w1) && SameElsewhere(w.disk, w1.disk, j.entries[i].path)
      && (w1.disk == w.disk || AtBefore(w1.disk.files, j.entries[i]))
      && (p == Go ==> Restoring(w1.disk, j, obs, i + 1))
      && Recoverable(w1.disk, j)
      && (p.Stop? ==> p.reply in {Died, Invalid})
      && (w.schedule == [] ==> p == Go && w1.schedule == [])
  {
    var (w1, p) := RestoreOne(w, obs[i]);
    RestoreOneQuiet(w, j, j.entries[i], obs[i]);
    RestoringIsRecoverable(w.disk, j, obs, i);
    if w1.disk != w.disk || p == Go {
      RestoringStep(w.disk, w1.disk, j, obs, i);
      RestoringIsRecoverable(w1.disk, j, obs, i + 1);
    }
  }

  lemma {:induction false} RestoreQuiet(w: World, j: Journal, obs: seq<Observation>, i: nat)
    requires Quiet(w) && Restoring(w.disk, j, obs, i)
    ensures var (w1, p) := RestoreAll(w, obs, i);
      && Quiet(w1) && Recoverable(w1.disk, j) && OnlyTargets(w.disk, w1.disk, j)
      && (forall k :: 0 <= k < |obs| ==> KeptOrBefore(w.disk, w1.disk, j.entries[k]))
      && (p == Go ==> AllBefore(w1.disk.files, j.entries))
      && (p.Stop? ==> p.reply in {Died, Invalid})
      && (w.schedule == [] ==> p == Go && w1.schedule == [])
    decreases |obs| - i
  {
    if i == |obs| {
      RestoringIsRecoverable(w.disk, j, obs, i);
    } else {
      var (w1, p) := RestoreOne(w, obs[i]);
      RestoreRound(w, j, obs, i);
      if p == Go {
        RestoreQuiet(w1, j, obs, i + 1);
      }
      KeptCompose(w.disk, w1.disk, RestoreAll(w, obs, i).0.disk, j, i);
    }
  }

  // ----- recovery as a whole -----

  /** No file is touched but the journal and the targets it names. */
  ghost predicate OthersKept(d: Disk, d1: Disk, j: Journal) {
    forall q :: q != JournalPath && (forall k :: 0 <= k < |j.entries| ==> q != j.entries[k].path)
      ==> NodeAt(d1, q) == NodeAt(d, q)
  }

  /** What one attempt at recovery may leave: the journal of the same transaction with
      every target sound, or no journal and every target at its before-bytes. */
  ghost predicate Left(d: Disk, j: Journal, d1: Disk, j1: Journal) {
    && OthersKept(d, d1, j)
    && (|| (JournalPath !in d1.files && AllBefore(d1.files, j.entries))
        || (Recoverable(d1, j1) && Advanced(d, j, d1, j1)))
  }

  /** Provenance only moves to revoked; a target only moves to its before-bytes. */
  ghost predicate Advanced(d: Disk, j: Journal, d1: Disk, j1: Journal) {
    && SameTargets(j, j1)
    && forall k :: 0 <= k < |j.entries| ==>
         && (j1.entries[k].provenance == j.entries[k].provenance
             || StateOf(j1.entries[k].provenance) == Some(Revoked))
         && KeptOrBefore(d, d1, j1.entries[k])
  }

  lemma RestoringAfterRevocation(d: Disk, d1: Disk, j: Journal, j1: Journal, obs: seq<Observation>)
    requires JournalOn(d, j) && Aligned(d, j, obs) && JournalOn(d1, j1)
    requires SameElsewhere(d, d1, JournalPath)
    requires Revoking(j, j1, obs) && RevokedFrom(j1, obs, 0, |obs|)
    ensures Restoring(d1, j1, obs, 0)
  {
    forall k | 0 <= k < |obs| ensures Watched(d1, j1.entries[k], obs[k]) {
      var e := j.entries[k];
      assert EntryDecodes(j, e);
      assert NodeAt(d1, e.path) == NodeAt(d, e.path);
      if e.backup.Some? {
        assert NodeAt(d1, e.backup.value) == NodeAt(d, e.backup.value);
      }
      assert Restorable(d.files, e) && Faithful(d, e, obs[k]);
    }
  }

  lemma RevokedIsRecoverable(d: Disk, d1: Disk, j: Journal, j1: Journal, obs: seq<Observation>)
    requires JournalOn(d, j) && Aligned(d, j, obs) && JournalOn(d1, j1)
    requires SameElsewhere(d, d1, JournalPath) && Revoking(j, j1, obs)
    ensures Recoverable(d1, j1) && Advanced(d, j, d1, j1)
  {
    forall k | 0 <= k < |obs|
      ensures Sound(d1.files, j1.entries[k]) && KeptOrBefore(d, d1, j1.entries[k])
    {
      var e := j.entries[k];
      assert EntryDecodes(j, e);
      assert NodeAt(d1, e.path) == NodeAt(d, e.path);
      if e.backup.Some? {
        assert NodeAt(d1, e.backup.value) == NodeAt(d, e.backup.value);
      }
      assert Restorable(d.files, e) && Faithful(d, e, obs[k]);
    }
  }

  /** Settling: the restoration loop, then the journal's removal. */
  lemma SettleQuiet(w: World, l: Lease, j: Journal, obs: seq<Observation>)
    requires Quiet(w) && Restoring(w.disk, j, obs, 0) && l.path == JournalPath
    ensures var (w1, r) := Settle(w, l, obs);
      && Quiet(w1)
      && OthersKept(w.disk, w1.disk, j)
      && (r == Recovered ==> JournalPath !in w1.disk.files)
      && (|| (JournalPath !in w1.disk.files && AllBefore(w1.disk.files, j.entries))
          || (Recoverable(w1.disk, j)
              && forall k :: 0 <= k < |obs| ==> KeptOrBefore(w.disk, w1.disk, j.entries[k])))
      && (w.schedule == [] && Current(w.disk, l)
          && (forall k :: 0 <= k < |obs| && obs[k].backup.Some? ==> Current(w.disk, obs[k].backup.value))
          ==> r == Recovered)
      && r != NothingPending
  {
    RestoringIsRecoverable(w.disk, j, obs, 0);
    AssertAllQuiet(w, obs, 0);
    var (w1, p1) := AssertAll(w, obs, 0);
    QuietTick(w1);
    var (w2, p2) := AssertLease(w1, l, JournalPath);
    if p1 == Go && p2 == Go {
      RestoreQuiet(w2, j, obs, 0);
      var (w3, p3) := RestoreAll(w2, obs, 0);
      JournalUntouched(w2.disk, w3.disk, j);
      if p3 == Go {
        RemoveJournalQuiet(w3, l, j);
      }
    }
  }

  lemma RemoveJournalQuiet(w: World, l: Lease, j: Journal)
    requires Quiet(w) && JournalOn(w.disk, j) && AllBefore(w.disk.files, j.entries) && l.path == JournalPath
    ensures var (w1, r) := RemoveJournal(w, l);
      && Quiet(w1) && SameElsewhere(w.disk, w1.disk, JournalPath)
      && (w1.disk == w.disk || (JournalPath !in w1.disk.files && AllBefore(w1.disk.files, j.entries)))
      && (r == Recovered ==> JournalPath !in w1.disk.files)
      && (w.schedule == [] && Current(w.disk, l) ==> r == Recovered)
      && r != NothingPending
  {
  }

  lemma TargetsAreNotJournal(j: Journal)
    requires Decodes(j)
    ensures forall k :: 0 <= k < |j.entries| ==> j.entries[k].path != JournalPath
  {
  }

  lemma JournalUntouched(d: Disk, d1: Disk, j: Journal)
    requires Decodes(j) && OnlyTargets(d, d1, j)
    ensures NodeAt(d1, JournalPath) == NodeAt(d, JournalPath)
  {
    TargetsAreNotJournal(j);
  }

  lemma TargetsTransfer(d: Disk, d1: Disk, d2: Disk, j: Journal, j1: Journal)
    requires SameTargets(j, j1) && SameElsewhere(d, d1, JournalPath) && OthersKept(d1, d2, j1)
    ensures OthersKept(d, d2, j)
  {
    forall k | 0 <= k < |j.entries| ensures j1.entries[k].path == j.entries[k].path {}
  }

  /** One attempt in a quiet world, whatever fails or crashes: the invariant survives. */
  lemma RecoverKeepsInvariant(w: World, j: Journal) returns (j1: Journal)
    requires Quiet(w) && Recoverable(w.disk, j)
    ensures var (w1, r) := Recover(w);
      && Quiet(w1) && Left(w.disk, j, w1.disk, j1)
      && (r == Recovered ==> JournalPath !in w1.disk.files)
      && r != NothingPending
  {
    j1 := j;
    QuietTick(w);
    var s := Open(w, JournalPath);
    ObserveQuiet(s.w, j, j.entries);
    var (w1, survey) := ObserveAll(s.w, j.entries);
    if s.signal == Done && survey.Surveyed? {
      j1 := ApplyKeepsInvariant(w1, s.lease, j, survey.observations);
    }
  }

  lemma ApplyKeepsInvariant(w: World, l: Lease, j: Journal, obs: seq<Observation>) returns (j1: Journal)
    requires Quiet(w) && Recoverable(w.disk, j) && Aligned(w.disk, j, obs) && l.path == JournalPath
    ensures var (w1, r) := ApplyRecovery(w, l, obs);
      && Quiet(w1) && Left(w.disk, j, w1.disk, j1)
      && (r == Recovered ==> JournalPath !in w1.disk.files)
      && r != NothingPending
  {
    j1 := j;
    QuietTick(w);
    var (w1, p1) := AssertLease(w, l, JournalPath);
    RecheckQuiet(w1, j, obs, 0);
    var (w2, p2) := Recheck(w1, obs, 0);
    QuietTick(w2);
    var (w3, p3) := AssertLease(w2, l, JournalPath);
    if p1 == Go && p2 == Go && p3 == Go {
      j1 := RevokeQuiet(w3, l, j, j, obs, 0);
      var (s, p) := RevokeAll(w3, l, obs, 0);
      RevokedIsRecoverable(w.disk, s.w.disk, j, j1, obs);
      if p == Go {
        RestoringAfterRevocation(w.disk, s.w.disk, j, j1, obs);
        SettleQuiet(s.w, s.lease, j1, obs);
        var (w4, r) := Settle(s.w, s.lease, obs);
        TargetsTransfer(w.disk, s.w.disk, w4.disk, j, j1);
        ComposeAdvance(w.disk, s.w.disk, w4.disk, j, j1, obs);
      }
    }
  }

  lemma ComposeAdvance(d: Disk, d1: Disk, d2: Disk, j: Journal, j1: Journal, obs: seq<Observation>)
    requires Decodes(j) && Advanced(d, j, d1, j1) && SameElsewhere(d, d1, JournalPath)
    requires |obs| == |j.entries|
    requires (JournalPath !in d2.files && AllBefore(d2.files, j1.entries))
          || (Recoverable(d2, j1) && forall k :: 0 <= k < |obs| ==> KeptOrBefore(d1, d2, j1.entries[k]))
    ensures (JournalPath !in d2.files && AllBefore(d2.files, j.entries))
          || (Recoverable(d2, j1) && Advanced(d, j, d2, j1))
  {
  }

  // ----- main results -----

  /** Uninterrupted recovery decides exactly: it restores every target and drops the
      journal iff every entry is restorable, and otherwise changes nothing at all. */
  lemma RecoverDecides(w: World, j: Journal)
    requires w.schedule == [] && ContentAt(w.disk.files, JournalPath) == Some(Encoded(j))
    ensures var (w1, r) := Recover(w);
      if !Decodes(j) then r == Invalid && w1 == w
      else if forall k :: 0 <= k < |j.entries| ==> Restorable(w.disk.files, j.entries[k]) then
        && r == Recovered && JournalPath !in w1.disk.files
        && AllBefore(w1.disk.files, j.entries) && OthersKept(w.disk, w1.disk, j)
      else r.Conflict? && w1 == w
  {
    if Decodes(j) {
      ObserveExact(w, j, j.entries);
      ObserveQuiet(w, j, j.entries);
      var (w1, survey) := ObserveAll(w, j.entries);
      if survey.Surveyed? {
        var j1 := ApplyKeepsInvariant(w, Look(w.disk, JournalPath), j, survey.observations);
        ApplyCalm(w, j, survey.observations);
      }
    }
  }

  /** Without a journal there is nothing to do; anything that is no journal is refused and left alone. */
  lemma RecoverReadsJournal(w: World)
    requires w.schedule == []
    ensures Recover(w).1 == NothingPending <==> JournalPath !in w.disk.files
    ensures Recover(w).1 == Invalid <==>
      JournalPath in w.disk.files && forall j :: w.disk.files[JournalPath].content == Encoded(j) ==> !Decodes(j)
    ensures Recover(w).1 in {NothingPending, Invalid} ==> Recover(w).0 == w
  {
    match ContentAt(w.disk.files, JournalPath)
    case Some(Encoded(j)) => RecoverDecides(w, j);
    case _ =>
  }

  /** And the reply is a conflict about the first entry that cannot be restored. */
  lemma RecoverBlames(w: World, j: Journal, k: nat)
    requires w.schedule == [] && JournalOn(w.disk, j)
    requires k < |j.entries| && !Restorable(w.disk.files, j.entries[k])
    requires forall i :: 0 <= i < k ==> Restorable(w.disk.files, j.entries[i])
    ensures Recover(w) == (w, Conflict(Blamed(w.disk.files, j.entries[k])))
  {
    ObserveBlames(w, j, j.entries, k);
  }

  lemma ApplyCalm(w: World, j: Journal, obs: seq<Observation>)
    requires w.schedule == [] && JournalOn(w.disk, j) && Aligned(w.disk, j, obs)
    ensures ApplyRecovery(w, Look(w.disk, JournalPath), obs).1 == Recovered
  {
    var l := Look(w.disk, JournalPath);
    RecheckQuiet(w, j, obs, 0);
    var j1 := RevokeQuiet(w, l, j, j, obs, 0);
    var (s, p) := RevokeAll(w, l, obs, 0);
    RestoringAfterRevocation(w.disk, s.w.disk, j, j1, obs);
    forall k | 0 <= k < |obs| && obs[k].backup.Some? ensures Current(s.w.disk, obs[k].backup.value) {
      assert EntryDecodes(j, j.entries[k]) && Faithful(w.disk, j.entries[k], obs[k]);
      assert NodeAt(s.w.disk, obs[k].backup.value.path) == NodeAt(w.disk, obs[k].backup.value.path);
    }
    SettleQuiet(s.w, s.lease, j1, obs);
  }

  /** Run `recover` once under each schedule: each may crash or fail anywhere. */
  function Attempts(w: World, schedules: seq<seq<Event>>): World
    decreases |schedules|
  {
    if schedules == [] then w
    else Attempts(Recover(w.(schedule := schedules[0])).0, schedules[1..])
  }

  ghost predicate AllQuiet(schedules: seq<seq<Event>>) {
    forall i, k :: 0 <= i < |schedules| && 0 <= k < |schedules[i]| ==> schedules[i][k].edits == []
  }

  /** An exposed create is one this or an earlier recovery revoked and did not remove. */
  predicate OnlyRevokedExposed(d: Disk, j: Journal) {
    forall k :: 0 <= k < |j.entries| && Exposed(d.files, j.entries[k]) ==>
      StateOf(j.entries[k].provenance) == Some(Revoked)
  }

  lemma AttemptKeepsExposure(d: Disk, d1: Disk, j: Journal, j1: Journal)
    requires Recoverable(d, j) && OnlyRevokedExposed(d, j) && Recoverable(d1, j1) && Advanced(d, j, d1, j1)
    ensures OnlyRevokedExposed(d1, j1)
  {
  }

  /** A create that this or an earlier recovery revoked and that is still on disk. */
  ghost predicate LeftRevoked(d: Disk, j: Journal) {
    exists j1, k :: JournalOn(d, j1) && SameTargets(j, j1) && 0 <= k < |j1.entries|
      && Exposed(d.files, j1.entries[k]) && StateOf(j1.entries[k].provenance) == Some(Revoked)
  }

  /** A stranded create stops the next recovery before it changes anything. */
  lemma LeftRevokedConflicts(w: World, j: Journal)
    requires w.schedule == [] && LeftRevoked(w.disk, j)
    ensures Recover(w).1.Conflict? && Recover(w).0 == w
  {
    var j1, k :| JournalOn(w.disk, j1) && SameTargets(j, j1) && 0 <= k < |j1.entries|
      && Exposed(w.disk.files, j1.entries[k]) && StateOf(j1.entries[k].provenance) == Some(Revoked);
    assert EntryDecodes(j1, j1.entries[k]);
    assert !Restorable(w.disk.files, j1.entries[k]);
    RecoverDecides(w, j1);
  }

  /** Recovery may be rerun: after any number of attempts, each crashing or failing
      wherever it likes, an uninterrupted rerun either leaves every target at its
      before-bytes with no journal, or changes nothing and reports a conflict, and a
      conflict happens exactly when a create was left revoked but still present. */
  lemma RerunnableRecovery(w: World, j: Journal, schedules: seq<seq<Event>>)
    requires JournalOn(w.disk, j) && AllQuiet(schedules)
    requires forall k :: 0 <= k < |j.entries| ==> Restorable(w.disk.files, j.entries[k])
    ensures var d := Attempts(w, schedules).(schedule := []);
      var (w1, r) := Recover(d);
      if LeftRevoked(d.disk, j) then r.Conflict? && w1 == d
      else r in {Recovered, NothingPending} && JournalPath !in w1.disk.files && AllBefore(w1.disk.files, j.entries)
  {
    forall k | 0 <= k < |j.entries| ensures !Exposed(w.disk.files, j.entries[k]) {
      assert EntryDecodes(j, j.entries[k]);
    }
    Rerun(w, j, j, schedules);
    var d := Attempts(w, schedules).(schedule := []);
    if LeftRevoked(d.disk, j) {
      LeftRevokedConflicts(d, j);
    }
  }

  lemma {:induction false} Rerun(w: World, j0: Journal, j: Journal, schedules: seq<seq<Event>>)
    requires SameTargets(j0, j) && AllQuiet(schedules)
    requires Recoverable(w.disk, j) && OnlyRevokedExposed(w.disk, j)
    ensures var d := Attempts(w, schedules).(schedule := []);
      var (w1, r) := Recover(d);
      || (r in {Recovered, NothingPending} && JournalPath !in w1.disk.files && AllBefore(w1.disk.files, j0.entries))
      || (r.Conflict? && w1 == d && LeftRevoked(d.disk, j0))
    decreases |schedules|
  {
    if schedules == [] {
      RecoverDecides(w.(schedule := []), j);
    } else {
      var w0 := w.(schedule := schedules[0]);
      var j1 := RecoverKeepsInvariant(w0, j);
      var w1 := Recover(w0).0;
      if Recoverable(w1.disk, j1) && Advanced(w.disk, j, w1.disk, j1) {
        AttemptKeepsExposure(w.disk, w1.disk, j, j1);
        Rerun(w1, j0, j1, schedules[1..]);
      } else {
        assert AllBefore(w1.disk.files, j0.entries);
        NothingLeft(w1, schedules[1..]);
      }
    }
  }

  lemma {:induction false} NothingLeft(w: World, schedules: seq<seq<Event>>)
    requires AllQuiet(schedules) && JournalPath !in w.disk.files
    ensures Attempts(w, schedules).disk == w.disk
    ensures Recover(Attempts(w, schedules).(schedule := [])).1 == NothingPending
    ensures Recover(Attempts(w, schedules).(schedule := [])).0.disk == w.disk
    decreases |schedules|
  {
    if schedules == [] {
    } else {
      var w0 := w.(schedule := schedules[0]);
      QuietTick(w0);
      NothingLeft(Recover(w0).0, schedules[1..]);
    }
  }
}
