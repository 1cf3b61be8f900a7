/** What recovery does when its inputs change after preflight: nothing is restored. */
module RecoveryChecks {
  import opened Options
  import opened ConfinedIo
  import opened TransactionJournal
  import opened Recovery
  import opened Interference
  import opened RemovalStamps

  // ----- paths nobody touches any more -----

  lemma {:induction false} UntouchedNode(d: Disk, edits: seq<Edit>, p: Path)
    requires !Touches(edits, p)
    ensures NodeAt(Meddled(d, edits), p) == NodeAt(d, p)
    decreases |edits|
  {
    if edits == [] {
    } else {
      var d1 := match edits[0]
        case Write(q, c, i) => Put(d, q, c, i)
        case Delete(q) => Dropped(d, q);
      assert edits[0].path != p;
      assert forall i :: 0 <= i < |edits[1..]| ==> edits[1..][i] == edits[i + 1];
      UntouchedNode(d1, edits[1..], p);
    }
  }

  /** What the lease saw is not there, and nobody will put it back. */
  predicate GoneForGood(w: World, l: Lease) {
    !Current(w.disk, l) && !TouchedIn(w.schedule, l.path)
  }

  lemma TickKeepsGone(w: World, l: Lease)
    requires GoneForGood(w, l)
    ensures GoneForGood(Tick(w).0, l)
  {
    if w.schedule != [] {
      assert !Touches(w.schedule[0].edits, l.path);
      UntouchedNode(w.disk, w.schedule[0].edits, l.path);
      forall i | 0 <= i < |w.schedule[1..]| ensures !Touches(w.schedule[1..][i].edits, l.path) {
        assert w.schedule[1..][i] == w.schedule[i + 1];
      }
    }
  }

  /** Asserting a lease that is gone is a conflict, unless the process dies on the way. */
  lemma AssertGone(w: World, l: Lease, blame: Path)
    requires GoneForGood(w, l)
    ensures AssertLease(w, l, blame).1 in {Stop(Conflict(blame)), Stop(Died)}
  {
    TickKeepsGone(w, l);
  }

  // ----- the last check before anything is restored -----

  /** The lease is one that `obs[k]` holds, of its target or its backup. */
  predicate HeldBy(l: Lease, o: Observation) {
    l == o.target || o.backup == Some(l)
  }

  predicate Refuses(reply: Reply) {
    reply.Conflict? || reply.Died?
  }

  lemma {:induction false} AssertAllStops(w: World, obs: seq<Observation>, i: nat, k: nat, l: Lease)
    requires i <= k < |obs| && HeldBy(l, obs[k]) && GoneForGood(w, l)
    ensures var p := AssertAll(w, obs, i).1;
      p.Stop? && Refuses(p.reply)
    decreases k - i
  {
    var (w1, p1) := AssertLease(w, obs[i].target, obs[i].entry.path);
    TickKeepsGone(w, l);
    if i == k && l == obs[i].target {
      AssertGone(w, l, obs[i].entry.path);
    } else if p1 == Go {
      if i == k {
        AssertGone(w1, l, obs[i].entry.path);
      } else {
        var (w2, p2) :=
          if obs[i].backup.Some? then AssertLease(w1, obs[i].backup.value, obs[i].entry.path) else (w1, Go);
        TickKeepsGone(w1, l);
        if p2 == Go {
          AssertAllStops(w2, obs, i + 1, k, l);
        }
      }
    }
  }

  lemma {:induction false} AssertAllKeepsGone(w: World, obs: seq<Observation>, i: nat, l: Lease)
    requires i <= |obs| && GoneForGood(w, l)
    ensures GoneForGood(AssertAll(w, obs, i).0, l)
    decreases |obs| - i
  {
    if i == |obs| {
    } else {
      var (w1, p1) := AssertLease(w, obs[i].target, obs[i].entry.path);
      TickKeepsGone(w, l);
      TickKeepsGone(w1, l);
      var (w2, p2) :=
        if obs[i].backup.Some? then AssertLease(w1, obs[i].backup.value, obs[i].entry.path) else (w1, Go);
      if p1 == Go && p2 == Go {
        AssertAllKeepsGone(w2, obs, i + 1, l);
      }
    }
  }

  /** An input of the restoration: an observed target or backup, or the journal as last written. */
  ghost predicate Input(l: Lease, journal: Lease, obs: seq<Observation>) {
    l == journal || exists k :: 0 <= k < |obs| && HeldBy(l, obs[k])
  }

  lemma SettleStops(w: World, journal: Lease, obs: seq<Observation>, l: Lease)
    requires Input(l, journal, obs) && GoneForGood(w, l)
    ensures var (w1, reply) := Settle(w, journal, obs);
      w1.log == w.log && Refuses(reply)
  {
    AssertChangesNothing(w, obs, 0);
    var (w1, p1) := AssertAll(w, obs, 0);
    if k :| 0 <= k < |obs| && HeldBy(l, obs[k]) {
      AssertAllStops(w, obs, 0, k, l);
    } else {
      AssertAllKeepsGone(w, obs, 0, l);
      AssertGone(w1, l, JournalPath);
      AssertRefuses(w, obs, 0);
    }
  }

  lemma {:induction false} AssertRefuses(w: World, obs: seq<Observation>, i: nat)
    requires i <= |obs|
    ensures var p := AssertAll(w, obs, i).1;
      p.Stop? ==> Refuses(p.reply)
    decreases |obs| - i
  {
    if i == |obs| {
    } else {
      var (w1, p1) := AssertLease(w, obs[i].target, obs[i].entry.path);
      var (w2, p2) :=
        if obs[i].backup.Some? then AssertLease(w1, obs[i].backup.value, obs[i].entry.path) else (w1, Go);
      if p1 == Go && p2 == Go {
        AssertRefuses(w2, obs, i + 1);
      }
    }
  }

  // ----- who is blamed -----

  /** Both leases of the observation still describe the disk. */
  predicate Undisturbed(d: Disk, o: Observation) {
    Current(d, o.target) && (o.backup.Some? ==> Current(d, o.backup.value))
  }

  lemma {:induction false} AssertAllBlames(w: World, obs: seq<Observation>, i: nat, k: nat)
    requires w.schedule == [] && i <= k <= |obs| && forall n :: i <= n < k ==> Undisturbed(w.disk, obs[n])
    requires k < |obs| ==> !Undisturbed(w.disk, obs[k])
    ensures AssertAll(w, obs, i) == (w, if k < |obs| then Stop(Conflict(obs[k].entry.path)) else Go)
    decreases k - i
  {
    if i < k {
      AssertAllBlames(w, obs, i + 1, k);
    }
  }

  /** Once nothing happens any more, the conflict names the first entry whose target or backup
      changed, and the journal if only that did. */
  lemma FirstChangeIsBlamed(w: World, journal: Lease, obs: seq<Observation>, k: nat)
    requires w.schedule == [] && k <= |obs| && forall n :: 0 <= n < k ==> Undisturbed(w.disk, obs[n])
    requires if k < |obs| then !Undisturbed(w.disk, obs[k]) else !Current(w.disk, journal)
    ensures Settle(w, journal, obs) == (w, Conflict(if k < |obs| then obs[k].entry.path else JournalPath))
  {
    AssertAllBlames(w, obs, 0, k);
  }

  // ----- main results -----

  /** When everything is prepared: the world the last checks start from, and the journal lease they hold. */
  function Prepared(w: World, journal: Lease, obs: seq<Observation>): (World, Lease) {
    var s := Prepare(w, journal, obs).0;
    (s.w, s.lease)
  }

  /** If some target, backup or the journal is no longer what recovery saw of it once everything is prepared,
      and nobody puts it back, then nothing is restored and the reply is a conflict; unless the process
      died, or revoking had failed already. */
  lemma ChangedInputConflicts(w: World, journal: Lease, obs: seq<Observation>, l: Lease)
    requires journal.path == JournalPath
    requires var (prepared, held) := Prepared(w, journal, obs);
      Input(l, held, obs) && GoneForGood(prepared, l)
    ensures var (w1, reply) := ApplyRecovery(w, journal, obs);
      && w.log <= w1.log && OnlyJournal(NewChanges(w, w1))
      && (Refuses(reply) || (reply.Invalid? && Prepare(w, journal, obs).1 == Stop(Invalid)))
  {
    PrepareChangesJournal(w, journal, obs);
    PrepareRefuses(w, journal, obs);
    var (s, p) := Prepare(w, journal, obs);
    if p == Go {
      SettleStops(s.w, s.lease, obs, l);
      ChangesCompose(w, s.w, Settle(s.w, s.lease, obs).0);
    }
  }

  lemma {:induction false} RevokeRefuses(w: World, journal: Lease, obs: seq<Observation>, i: nat)
    requires i <= |obs|
    ensures var p := RevokeAll(w, journal, obs, i).1;
      p in {Go, Stop(Died), Stop(Invalid)}
    decreases |obs| - i
  {
    if i == |obs| {
    } else if !ToRevoke(obs[i]) {
      RevokeRefuses(w, journal, obs, i + 1);
    } else {
      var s := SetState(w, journal, obs[i].entry.path, Revoked);
      if s.signal == Done {
        RevokeRefuses(s.w, s.lease, obs, i + 1);
      }
    }
  }

  lemma {:induction false} RecheckRefuses(w: World, obs: seq<Observation>, i: nat)
    requires i <= |obs|
    ensures var p := Recheck(w, obs, i).1;
      p.Stop? ==> Refuses(p.reply)
    decreases |obs| - i
  {
    if i == |obs| {
    } else if !OwnsCreate(obs[i].entry) {
      RecheckRefuses(w, obs, i + 1);
    } else {
      RecheckRefuses(FingerprintOf(w, obs[i].target).0.w, obs, i + 1);
    }
  }

  lemma PrepareRefuses(w: World, journal: Lease, obs: seq<Observation>)
    ensures var p := Prepare(w, journal, obs).1;
      p.Stop? ==> Refuses(p.reply) || p.reply.Invalid?
  {
    var (w1, p1) := AssertLease(w, journal, JournalPath);
    RecheckRefuses(w1, obs, 0);
    RevokeRefuses(CheckAll(w, journal, obs).0, journal, obs, 0);
  }

  // ----- before anything is even revoked -----

  /** The file is not the one whose fingerprint was recorded, and nobody will put that back. */
  predicate StampGoneForGood(w: World, o: Observation) {
    && !TouchedIn(w.schedule, o.target.path)
    && (!Current(w.disk, o.target) || o.target.path !in w.disk.files
        || IdentityOf(o.entry.provenance)
           != Some(Fingerprint(w.disk.files[o.target.path].inode, w.disk.files[o.target.path].stamp)))
  }

  lemma TickKeepsStampGone(w: World, o: Observation)
    requires StampGoneForGood(w, o)
    ensures StampGoneForGood(Tick(w).0, o)
  {
    if w.schedule != [] {
      assert !Touches(w.schedule[0].edits, o.target.path);
      UntouchedNode(w.disk, w.schedule[0].edits, o.target.path);
      forall i | 0 <= i < |w.schedule[1..]| ensures !Touches(w.schedule[1..][i].edits, o.target.path) {
        assert w.schedule[1..][i] == w.schedule[i + 1];
      }
    }
  }

  lemma {:induction false} RecheckStops(w: World, obs: seq<Observation>, i: nat, k: nat)
    requires i <= k < |obs| && OwnsCreate(obs[k].entry) && StampGoneForGood(w, obs[k])
    ensures Recheck(w, obs, i).1.Stop?
    decreases k - i
  {
    TickKeepsStampGone(w, obs[k]);
    if i < k {
      RecheckStops(if OwnsCreate(obs[i].entry) then FingerprintOf(w, obs[i].target).0.w else w, obs, i + 1, k);
    }
  }

  /** If the journal changed since it was leased, or an owned create no longer carries its recorded
      fingerprint, and nobody puts that back, recovery changes nothing at all, not even its journal. */
  lemma ChangedBeforeRevocation(w: World, journal: Lease, obs: seq<Observation>)
    requires GoneForGood(w, journal)
          || exists k :: 0 <= k < |obs| && OwnsCreate(obs[k].entry) && StampGoneForGood(w, obs[k])
    ensures var (w1, reply) := ApplyRecovery(w, journal, obs);
      w1.log == w.log && Refuses(reply)
  {
    var (w1, p1) := AssertLease(w, journal, JournalPath);
    RecheckChangesNothing(w1, obs, 0);
    RecheckRefuses(w1, obs, 0);
    if GoneForGood(w, journal) {
      AssertGone(w, journal, JournalPath);
    } else {
      var k :| 0 <= k < |obs| && OwnsCreate(obs[k].entry) && StampGoneForGood(w, obs[k]);
      TickKeepsStampGone(w, obs[k]);
      RecheckStops(w1, obs, 0, k);
    }
  }

  /** If the journal changed while the fingerprints were read again, nothing is revoked or restored either. */
  lemma ChangedDuringRecheck(w: World, journal: Lease, obs: seq<Observation>)
    requires GoneForGood(Recheck(AssertLease(w, journal, JournalPath).0, obs, 0).0, journal)
    ensures var (w1, reply) := ApplyRecovery(w, journal, obs);
      w1.log == w.log && Refuses(reply)
  {
    var (w1, p1) := AssertLease(w, journal, JournalPath);
    RecheckChangesNothing(w1, obs, 0);
    RecheckRefuses(w1, obs, 0);
    AssertGone(Recheck(w1, obs, 0).0, journal, JournalPath);
  }

  // ----- for the whole of recovery -----

  /** The same for a call of `recover`, whose observations are those of its own preflight. */
  lemma RecoverChecksLast(w: World, l: Lease)
    requires Preflight(w).Some?
    requires var (prepared, held) := Prepared(AfterPreflight(w), Open(w, JournalPath).lease, Preflight(w).value);
      Input(l, held, Preflight(w).value) && GoneForGood(prepared, l)
    ensures var (w1, reply) := Recover(w);
      && w.log <= w1.log && OnlyJournal(NewChanges(w, w1)) && (Refuses(reply) || reply.Invalid?)
      && (reply.Invalid? ==> Prepare(AfterPreflight(w), Open(w, JournalPath).lease, Preflight(w).value).1 == Stop(Invalid))
  {
    RecoverApplies(w);
    ChangedInputConflicts(AfterPreflight(w), Open(w, JournalPath).lease, Preflight(w).value, l);
  }
}
