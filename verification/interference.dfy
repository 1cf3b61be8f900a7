/** Recovery while outsiders keep editing the disk: what it may still change, and when. */
module Interference {
  import opened Options
  import opened ConfinedIo
  import opened TransactionJournal
  import opened Recovery

  /** The mutations made between two worlds of the same run. */
  function NewChanges(w: World, w1: World): seq<Change>
    requires |w.log| <= |w1.log|
  {
    w1.log[|w.log|..]
  }

  function SeenIn(n: Option<Node>): Option<Seen> {
    match n
    case None => None
    case Some(node) => Some(Seen(node.content, node.inode))
  }

  /** A change to a target is justified by an observation: at that very step the file held
      the observed after-bytes under the observed identity, and it becomes exactly the
      saved before-bytes, or nothing for a create this program owns. */
  predicate Justified(c: Change, o: Observation) {
    && c.path == o.target.path
    && o.target.seen == SeenIn(c.prior)
    && DigestOf(LeaseContent(o.target)) == o.entry.after
    && (match c.next
        case None => OwnsCreate(o.entry) && o.entry.before.None?
        case Some(n) => o.entry.before.Some? && Some(n.content) == Saved(o))
  }

  ghost predicate OnlyJustified(changes: seq<Change>, obs: seq<Observation>) {
    forall n :: 0 <= n < |changes| ==>
      changes[n].path == JournalPath || exists k :: 0 <= k < |obs| && Justified(changes[n], obs[k])
  }

  /** Nothing but the journal was written. */
  predicate OnlyJournal(changes: seq<Change>) {
    forall n :: 0 <= n < |changes| ==> changes[n].path == JournalPath
  }

  // ----- phases that never change a target -----

  lemma {:induction false} ObserveChangesNothing(w: World, entries: seq<Entry>)
    ensures ObserveAll(w, entries).0.log == w.log
    decreases |entries|
  {
    if entries == [] {
    } else {
      ObserveChangesNothing(ObserveEntry(w, entries[0]).0, entries[1..]);
    }
  }

  lemma {:induction false} RecheckChangesNothing(w: World, obs: seq<Observation>, i: nat)
    requires i <= |obs|
    ensures Recheck(w, obs, i).0.log == w.log
    decreases |obs| - i
  {
    if i == |obs| {
    } else {
      if OwnsCreate(obs[i].entry) {
        RecheckChangesNothing(FingerprintOf(w, obs[i].target).0.w, obs, i + 1);
      } else {
        RecheckChangesNothing(w, obs, i + 1);
      }
    }
  }

  lemma {:induction false} AssertChangesNothing(w: World, obs: seq<Observation>, i: nat)
    requires i <= |obs|
    ensures AssertAll(w, obs, i).0.log == w.log
    decreases |obs| - i
  {
    if i == |obs| {
    } else {
      var (w1, p1) := AssertLease(w, obs[i].target, obs[i].entry.path);
      var (w2, p2) :=
        if obs[i].backup.Some? then AssertLease(w1, obs[i].backup.value, obs[i].entry.path) else (w1, Go);
      AssertChangesNothing(w2, obs, i + 1);
    }
  }

  lemma SetStateChangesJournal(w: World, l: Lease, path: Path, state: PublicationState)
    requires l.path == JournalPath
    ensures var s := SetState(w, l, path, state);
      w.log <= s.w.log && OnlyJournal(NewChanges(w, s.w)) && s.lease.path == JournalPath
  {
  }

  lemma ChangesCompose(w: World, w1: World, w2: World)
    requires w.log <= w1.log <= w2.log
    ensures NewChanges(w, w2) == NewChanges(w, w1) + NewChanges(w1, w2)
  {
  }

  lemma {:induction false} RevokeChangesJournal(w: World, l: Lease, obs: seq<Observation>, i: nat)
    requires i <= |obs| && l.path == JournalPath
    ensures var s := RevokeAll(w, l, obs, i).0;
      w.log <= s.w.log && OnlyJournal(NewChanges(w, s.w)) && s.lease.path == JournalPath
    decreases |obs| - i
  {
    if i == |obs| {
    } else {
      if !ToRevoke(obs[i]) {
        RevokeChangesJournal(w, l, obs, i + 1);
      } else {
        SetStateChangesJournal(w, l, obs[i].entry.path, Revoked);
        var s := SetState(w, l, obs[i].entry.path, Revoked);
        if s.signal == Done {
          RevokeChangesJournal(s.w, s.lease, obs, i + 1);
          ChangesCompose(w, s.w, RevokeAll(w, l, obs, i).0.w);
        }
      }
    }
  }

  // ----- the restoration loop -----

  lemma RestoreOneJustified(w: World, o: Observation)
    ensures var w1 := RestoreOne(w, o).0;
      && w.log <= w1.log && |w1.log| <= |w.log| + 1
      && (forall n :: |w.log| <= n < |w1.log| ==> Justified(w1.log[n], o))
  {
  }

  lemma {:induction false} RestoreJustified(w: World, obs: seq<Observation>, i: nat)
    requires i <= |obs|
    ensures var w1 := RestoreAll(w, obs, i).0;
      w.log <= w1.log && OnlyJustified(NewChanges(w, w1), obs)
    decreases |obs| - i
  {
    if i == |obs| {
    } else {
      RestoreOneJustified(w, obs[i]);
      var (w1, p) := RestoreOne(w, obs[i]);
      if p == Go {
        RestoreJustified(w1, obs, i + 1);
        ChangesCompose(w, w1, RestoreAll(w, obs, i).0);
      }
    }
  }

  lemma RemoveJournalChangesJournal(w: World, l: Lease)
    requires l.path == JournalPath
    ensures var w1 := RemoveJournal(w, l).0;
      w.log <= w1.log && OnlyJournal(NewChanges(w, w1))
  {
  }

  lemma SettleJustified(w: World, l: Lease, obs: seq<Observation>)
    requires l.path == JournalPath
    ensures var w1 := Settle(w, l, obs).0;
      w.log <= w1.log && OnlyJustified(NewChanges(w, w1), obs)
  {
    AssertChangesNothing(w, obs, 0);
    var (w1, p1) := AssertAll(w, obs, 0);
    var (w2, p2) := AssertLease(w1, l, JournalPath);
    assert w2.log == w.log;
    if p1 == Go && p2 == Go {
      RestoreJustified(w2, obs, 0);
      var (w3, p3) := RestoreAll(w2, obs, 0);
      if p3 == Go {
        RemoveJournalChangesJournal(w3, l);
        ChangesCompose(w2, w3, RemoveJournal(w3, l).0);
      }
    }
  }

  lemma PrepareChangesJournal(w: World, l: Lease, obs: seq<Observation>)
    requires l.path == JournalPath
    ensures var (s, p) := Prepare(w, l, obs);
      w.log <= s.w.log && OnlyJournal(NewChanges(w, s.w)) && (p == Go ==> s.lease.path == JournalPath)
  {
    var (w1, p1) := AssertLease(w, l, JournalPath);
    RecheckChangesNothing(w1, obs, 0);
    var (w2, p2) := Recheck(w1, obs, 0);
    var (w3, p3) := AssertLease(w2, l, JournalPath);
    RevokeChangesJournal(w3, l, obs, 0);
  }

  // ----- main results -----

  /** Whatever outsiders do between our steps, recovery changes a target only from the
      exact state it observed there, only to undo that after-state, and otherwise
      writes nothing but its journal. */
  lemma RecoveryChangesAreJustified(w: World, l: Lease, obs: seq<Observation>)
    requires l.path == JournalPath
    ensures var w1 := ApplyRecovery(w, l, obs).0;
      w.log <= w1.log && OnlyJustified(NewChanges(w, w1), obs)
  {
    PrepareChangesJournal(w, l, obs);
    var (s, p) := Prepare(w, l, obs);
    if p == Go {
      SettleJustified(s.w, s.lease, obs);
      ChangesCompose(w, s.w, Settle(s.w, s.lease, obs).0);
    }
  }

  /** What preflight has established about an observation it let through. */
  predicate Cleared(o: Observation) {
    && Assess(o).Clear?
    && (OwnsCreate(o.entry) ==>
          IdentityOf(o.entry.provenance).Some? && o.target.seen.Some?
          && IdentityOf(o.entry.provenance).value.inode == o.target.seen.value.inode)
  }

  /** The world in which preflight turns to the entry `k`. */
  function Observing(w: World, entries: seq<Entry>, k: nat): World
    requires k < |entries|
    decreases k
  {
    if k == 0 then w else Observing(ObserveEntry(w, entries[0]).0, entries[1..], k - 1)
  }

  /** `o` is what `e`'s target and backup held, each at the step that leased it. */
  predicate ObservedFrom(w: World, e: Entry, o: Observation) {
    && o.entry == e
    && o.target == Look(Tick(w).0.disk, e.path)
    && o.backup == match e.backup
       case None => None
       case Some(b) => Some(Look(Tick(Open(w, e.path).w).0.disk, b))
  }

  lemma ClearIsObserved(w: World, e: Entry)
    ensures var f := ObserveEntry(w, e).1;
      f.Clear? ==> ObservedFrom(w, e, f.observation) && Cleared(f.observation)
  {
  }

  lemma {:induction false} SurveyedIsCleared(w: World, entries: seq<Entry>)
    ensures var s := ObserveAll(w, entries).1;
      s.Surveyed? ==>
        && |s.observations| == |entries|
        && forall k :: 0 <= k < |entries| ==>
             ObservedFrom(Observing(w, entries, k), entries[k], s.observations[k]) && Cleared(s.observations[k])
    decreases |entries|
  {
    if entries == [] {
    } else {
      var (w1, f) := ObserveEntry(w, entries[0]);
      ClearIsObserved(w, entries[0]);
      SurveyedIsCleared(w1, entries[1..]);
      var s := ObserveAll(w, entries).1;
      if s.Surveyed? {
        forall k | 0 < k < |entries|
          ensures Observing(w, entries, k) == Observing(w1, entries[1..], k - 1)
          ensures entries[k] == entries[1..][k - 1] && s.observations[k] == ObserveAll(w1, entries[1..]).1.observations[k - 1]
        {
        }
      }
    }
  }

  /** What preflight observes when it leases and decodes the journal and lets every entry through. */
  function Preflight(w: World): Option<seq<Observation>> {
    var s := Open(w, JournalPath);
    match ContentAt(s.w.disk.files, JournalPath)
    case Some(Encoded(j)) =>
      if s.signal != Done || !Decodes(j) then None
      else
        (match ObserveAll(s.w, j.entries).1
         case Surveyed(obs) => Some(obs)
         case _ => None)
    case _ => None
  }

  lemma PreflightIsObserved(w: World)
    requires Preflight(w).Some?
    ensures var s, obs := Open(w, JournalPath), Preflight(w).value;
      && s.signal == Done && ContentAt(s.w.disk.files, JournalPath).Some?
      && ContentAt(s.w.disk.files, JournalPath).value.Encoded?
      && var j := ContentAt(s.w.disk.files, JournalPath).value.journal;
      && Decodes(j) && |obs| == |j.entries|
      && forall k :: 0 <= k < |obs| ==>
           ObservedFrom(Observing(s.w, j.entries, k), j.entries[k], obs[k]) && Cleared(obs[k])
  {
    var s := Open(w, JournalPath);
    SurveyedIsCleared(s.w, ContentAt(s.w.disk.files, JournalPath).value.journal.entries);
  }

  /** Every mutation recovery makes, under any interference.  Unless preflight read a
      decodable journal from the disk and cleared every entry of it, no file changes at all:
      so none does with a target in neither state, a bad or missing backup, or an unconfirmed
      create anywhere.  Otherwise each change is to the journal, or undoes one entry's
      after-state from exactly the bytes and identity preflight found at its path. */
  lemma RecoverUnderInterference(w: World)
    ensures var w1 := Recover(w).0;
      && w.log <= w1.log
      && (Preflight(w).None? ==> w1.log == w.log)
      && (Preflight(w).Some? ==> OnlyJustified(NewChanges(w, w1), Preflight(w).value))
  {
    var s := Open(w, JournalPath);
    assert LeaseContent(s.lease) == ContentAt(s.w.disk.files, JournalPath);
    if s.signal == Done && LeaseContent(s.lease).Some? && LeaseContent(s.lease).value.Encoded? {
      var j := LeaseContent(s.lease).value.journal;
      if Decodes(j) {
        ObserveChangesNothing(s.w, j.entries);
        var (w1, survey) := ObserveAll(s.w, j.entries);
        if survey.Surveyed? {
          RecoveryChangesAreJustified(w1, s.lease, survey.observations);
        }
      }
    }
  }
}
