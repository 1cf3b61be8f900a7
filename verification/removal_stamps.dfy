/** The change stamp of a create that recovery removes. */
module RemovalStamps {
  import opened Options
  import opened Hosts
  import opened ConfinedIo
  import opened TransactionJournal
  import opened Recovery
  import opened Interference

  predicate Touches(edits: seq<Edit>, p: Path) {
    exists i :: 0 <= i < |edits| && edits[i].path == p
  }

  /** Stamps are handed out in order, so no two writes share one. */
  predicate Stamped(d: Disk) {
    forall p :: p in d.files ==> d.files[p].stamp < d.clock
  }

  /** After any edits a path holds its old node, nothing, or a node stamped since. */
  lemma {:induction false} MeddledNode(d: Disk, edits: seq<Edit>, p: Path)
    requires Stamped(d)
    ensures var d1 := Meddled(d, edits);
      && Stamped(d1) && d.clock <= d1.clock
      && (!Touches(edits, p) ==> NodeAt(d1, p) == NodeAt(d, p))
      && (Touches(edits, p) ==> p in d1.files ==> d1.files[p].stamp >= d.clock)
    decreases |edits|
  {
    if edits == [] {
    } else {
      var d1 := match edits[0]
        case Write(q, c, i) => Put(d, q, c, i)
        case Delete(q) => Dropped(d, q);
      assert Stamped(d1);
      MeddledNode(d1, edits[1..], p);
      if edits[0].path == p {
        assert Touches(edits, p);
        if !Touches(edits[1..], p) {
          assert NodeAt(Meddled(d, edits), p) == NodeAt(d1, p);
        }
      } else {
        assert Touches(edits, p) <==> Touches(edits[1..], p) by {
          if Touches(edits, p) {
            var i :| 0 <= i < |edits| && edits[i].path == p;
            assert edits[1..][i - 1].path == p;
          }
          if Touches(edits[1..], p) {
            var i :| 0 <= i < |edits[1..]| && edits[1..][i].path == p;
            assert edits[i + 1].path == p;
          }
        }
      }
    }
  }

  // ----- what happens to a path between two moments of recovery -----

  predicate TouchedIn(events: seq<Event>, p: Path) {
    exists i :: 0 <= i < |events| && Touches(events[i].edits, p)
  }

  /** The events that took place between two moments of one run. */
  function Between(w: World, w1: World): seq<Event>
    requires |w1.schedule| <= |w.schedule|
  {
    w.schedule[..|w.schedule| - |w1.schedule|]
  }

  predicate Later(w: World, w1: World) {
    |w1.schedule| <= |w.schedule| && w1.schedule == w.schedule[|w.schedule| - |w1.schedule|..]
  }

  /** This program did not write `p` in between: it holds its old node if no outsider
      touched it either, and otherwise nothing or a node stamped since. */
  ghost predicate Passed(w: World, w1: World, p: Path) {
    && Later(w, w1)
    && (Stamped(w.disk) ==>
          && Stamped(w1.disk) && w.disk.clock <= w1.disk.clock
          && (if TouchedIn(Between(w, w1), p) then p in w1.disk.files ==> w1.disk.files[p].stamp >= w.disk.clock
              else NodeAt(w1.disk, p) == NodeAt(w.disk, p)))
  }

  lemma TouchedInAppend(a: seq<Event>, b: seq<Event>, p: Path)
    ensures TouchedIn(a + b, p) <==> TouchedIn(a, p) || TouchedIn(b, p)
  {
    var s := a + b;
    if i :| 0 <= i < |a| && Touches(a[i].edits, p) {
      assert s[i] == a[i];
    }
    if i :| 0 <= i < |b| && Touches(b[i].edits, p) {
      assert s[|a| + i] == b[i];
    }
    if i :| 0 <= i < |s| && Touches(s[i].edits, p) {
      assert i < |a| ==> s[i] == a[i];
      assert i >= |a| ==> s[i] == b[i - |a|];
    }
  }

  lemma LaterCompose(w: World, w1: World, w2: World)
    requires Later(w, w1) && Later(w1, w2)
    ensures Later(w, w2) && Between(w, w2) == Between(w, w1) + Between(w1, w2)
  {
  }

  lemma PassedCompose(w: World, w1: World, w2: World, p: Path)
    requires Passed(w, w1, p) && Passed(w1, w2, p)
    ensures Passed(w, w2, p)
  {
    LaterCompose(w, w1, w2);
    TouchedInAppend(Between(w, w1), Between(w1, w2), p);
  }

  lemma PassedSelf(w: World, p: Path)
    ensures Passed(w, w, p)
  {
  }

  lemma TouchedInOne(e: Event, p: Path)
    ensures TouchedIn([e], p) <==> Touches(e.edits, p)
  {
    assert [e][0] == e;
  }

  lemma TickIsLater(w: World)
    requires w.schedule != []
    ensures Later(w, Tick(w).0) && Between(w, Tick(w).0) == [w.schedule[0]]
  {
  }

  lemma TickPassed(w: World, p: Path)
    ensures Passed(w, Tick(w).0, p)
  {
    if w.schedule == [] {
      PassedSelf(w, p);
    } else {
      TickIsLater(w);
      TouchedInOne(w.schedule[0], p);
      if Stamped(w.disk) {
        MeddledNode(w.disk, w.schedule[0].edits, p);
      }
    }
  }

  /** At most one step was taken, and of files it may have written only `q`. */
  ghost predicate StepOn(w: World, w1: World, q: Option<Path>) {
    var t := Tick(w).0;
    || (w1.schedule == w.schedule && w1.disk == w.disk)
    || (w1.schedule == t.schedule
        && (w1.disk == t.disk
            || (q.Some? && (w1.disk == Dropped(t.disk, q.value) || exists c, i :: w1.disk == Put(t.disk, q.value, c, i)))))
  }

  lemma RemoveIsStep(w: World, l: Lease)
    ensures StepOn(w, Remove(w, l).w, Some(l.path))
  {
  }

  lemma ReplaceIsStep(w: World, l: Lease, content: Content)
    ensures StepOn(w, Replace(w, l, content).w, Some(l.path))
  {
  }

  lemma SetStateIsStep(w: World, l: Lease, path: Path, state: PublicationState)
    ensures StepOn(w, SetState(w, l, path, state).w, Some(l.path))
  {
    match LeaseContent(l)
    case Some(Encoded(j)) => ReplaceIsStep(w, l, Encoded(MarkedJournal(j, path, state, None)));
    case _ =>
  }

  /** A step that does not write `p` leaves it to the outsiders. */
  lemma StepPassed(w: World, w1: World, q: Option<Path>, p: Path)
    requires StepOn(w, w1, q) && q != Some(p)
    ensures Passed(w, w1, p)
  {
    TickPassed(w, p);
    var t := Tick(w).0;
    if w1.schedule == w.schedule && w1.disk == w.disk {
      PassedSelf(w, p);
      assert Later(w, w1);
    } else {
      assert Later(t, w1) && Between(t, w1) == [];
      MutationPassed(t, w1, q, p);
      PassedCompose(w, t, w1, p);
    }
  }

  lemma MutationPassed(t: World, w1: World, q: Option<Path>, p: Path)
    requires w1.schedule == t.schedule && q != Some(p)
    requires || w1.disk == t.disk
             || (q.Some? && (w1.disk == Dropped(t.disk, q.value) || exists c, i :: w1.disk == Put(t.disk, q.value, c, i)))
    ensures Passed(t, w1, p)
  {
  }

  lemma OpenPassed(w: World, q: Path, p: Path)
    ensures Passed(w, Open(w, q).w, p)
  {
    TickPassed(w, p);
  }

  /** Preflight of one entry takes up to three steps. */
  lemma ObserveEntrySteps(w: World, e: Entry)
    ensures var w1, t := ObserveEntry(w, e).0, Open(w, e.path);
      var b := if e.backup.Some? then Open(t.w, e.backup.value) else t;
      w1 == w || w1 == t.w || w1 == b.w || w1 == FingerprintOf(b.w, t.lease).0.w
  {
  }

  lemma ObserveEntryPassed(w: World, e: Entry, p: Path)
    ensures Passed(w, ObserveEntry(w, e).0, p)
  {
    ObserveEntrySteps(w, e);
    PassedSelf(w, p);
    var t := Open(w, e.path);
    OpenPassed(w, e.path, p);
    var b := t;
    if e.backup.Some? {
      b := Open(t.w, e.backup.value);
      OpenPassed(t.w, e.backup.value, p);
      PassedCompose(w, t.w, b.w, p);
    }
    assert FingerprintOf(b.w, t.lease).0.w == Tick(b.w).0;
    TickPassed(b.w, p);
    PassedCompose(w, b.w, FingerprintOf(b.w, t.lease).0.w, p);
  }

  lemma {:induction false} ObserveAllPassed(w: World, entries: seq<Entry>, p: Path)
    ensures Passed(w, ObserveAll(w, entries).0, p)
    decreases |entries|
  {
    if entries == [] {
      PassedSelf(w, p);
    } else {
      var w1 := ObserveEntry(w, entries[0]).0;
      ObserveEntryPassed(w, entries[0], p);
      ObserveAllPassed(w1, entries[1..], p);
      PassedCompose(w, w1, ObserveAll(w1, entries[1..]).0, p);
    }
  }

  lemma {:induction false} RevokeAllPassed(w: World, l: Lease, obs: seq<Observation>, i: nat, p: Path)
    requires i <= |obs| && l.path == JournalPath && p != JournalPath
    ensures Passed(w, RevokeAll(w, l, obs, i).0.w, p)
    decreases |obs| - i
  {
    if i == |obs| {
      PassedSelf(w, p);
    } else if !ToRevoke(obs[i]) {
      RevokeAllPassed(w, l, obs, i + 1, p);
    } else {
      var s := SetState(w, l, obs[i].entry.path, Revoked);
      SetStateIsStep(w, l, obs[i].entry.path, Revoked);
      StepPassed(w, SetState(w, l, obs[i].entry.path, Revoked).w, Some(l.path), p);
      if s.signal == Done {
        SetStateChangesJournal(w, l, obs[i].entry.path, Revoked);
        RevokeAllPassed(s.w, s.lease, obs, i + 1, p);
        PassedCompose(w, s.w, RevokeAll(s.w, s.lease, obs, i + 1).0.w, p);
      }
    }
  }

  lemma {:induction false} AssertAllPassed(w: World, obs: seq<Observation>, i: nat, p: Path)
    requires i <= |obs|
    ensures Passed(w, AssertAll(w, obs, i).0, p)
    decreases |obs| - i
  {
    if i == |obs| {
      PassedSelf(w, p);
    } else {
      var (w1, p1) := AssertLease(w, obs[i].target, obs[i].entry.path);
      var (w2, p2) :=
        if obs[i].backup.Some? then AssertLease(w1, obs[i].backup.value, obs[i].entry.path) else (w1, Go);
      TickPassed(w, p);
      TickPassed(w1, p);
      PassedSelf(w1, p);
      PassedCompose(w, w1, w2, p);
      AssertAllPassed(w2, obs, i + 1, p);
      PassedCompose(w, w2, AssertAll(w2, obs, i + 1).0, p);
    }
  }

  // ----- from the last check of a create to its removal -----

  /** Where the recheck of the observation `k` leaves the world, when it starts at `i`. */
  function Checking(w: World, obs: seq<Observation>, i: nat, k: nat): World
    requires i <= k < |obs|
    decreases k - i
  {
    var w1 := if OwnsCreate(obs[i].entry) then FingerprintOf(w, obs[i].target).0.w else w;
    if i == k then w1 else Checking(w1, obs, i + 1, k)
  }

  /** The world in which the restoration loop, started at `i`, turns to the observation `k`. */
  function Restoring(w: World, obs: seq<Observation>, i: nat, k: nat): World
    requires i <= k < |obs|
    decreases k - i
  {
    if i == k then w else Restoring(RestoreOne(w, obs[i]).0, obs, i + 1, k)
  }

  /** Right after the last check of the fingerprint of `obs[k]`. */
  function LastCheck(w: World, journal: Lease, obs: seq<Observation>, k: nat): World
    requires k < |obs|
  {
    Checking(AssertLease(w, journal, JournalPath).0, obs, 0, k)
  }

  /** Where the restoration loop starts. */
  function Settled(w: World, journal: Lease, obs: seq<Observation>): World {
    var s := Prepare(w, journal, obs).0;
    AssertLease(AssertAll(s.w, obs, 0).0, s.lease, JournalPath).0
  }

  /** The moment `obs[k]` is restored: outsiders have had their last turn before it. */
  function Removal(w: World, journal: Lease, obs: seq<Observation>, k: nat): World
    requires k < |obs|
  {
    Tick(Restoring(Settled(w, journal, obs), obs, 0, k)).0
  }

  /** No two observations share a target, and none is of the journal. */
  predicate SeparateTargets(obs: seq<Observation>) {
    && (forall i, k :: 0 <= i < k < |obs| ==> obs[i].target.path != obs[k].target.path)
    && (forall i :: 0 <= i < |obs| ==> obs[i].target.path != JournalPath)
  }

  /** The world right after the check of `obs[k]` shows its recorded fingerprint. */
  predicate Checked(w: World, o: Observation) {
    && o.target.path in w.disk.files && Current(w.disk, o.target)
    && IdentityOf(o.entry.provenance)
       == Some(Fingerprint(w.disk.files[o.target.path].inode, w.disk.files[o.target.path].stamp))
  }

  lemma {:induction false} RecheckPassed(w: World, obs: seq<Observation>, i: nat, k: nat, p: Path)
    requires i <= k < |obs| && Recheck(w, obs, i).1 == Go
    ensures Passed(Checking(w, obs, i, k), Recheck(w, obs, i).0, p)
    ensures OwnsCreate(obs[k].entry) ==> Checked(Checking(w, obs, i, k), obs[k])
    decreases k - i
  {
    var w1 := if OwnsCreate(obs[i].entry) then FingerprintOf(w, obs[i].target).0.w else w;
    if i == k {
      RestPassed(w1, obs, i + 1, p);
    } else {
      RecheckPassed(w1, obs, i + 1, k, p);
    }
  }

  lemma {:induction false} RestPassed(w: World, obs: seq<Observation>, i: nat, p: Path)
    requires i <= |obs|
    ensures Passed(w, Recheck(w, obs, i).0, p)
    decreases |obs| - i
  {
    if i == |obs| {
      PassedSelf(w, p);
    } else if !OwnsCreate(obs[i].entry) {
      RestPassed(w, obs, i + 1, p);
    } else {
      var w1 := FingerprintOf(w, obs[i].target).0.w;
      TickPassed(w, p);
      RestPassed(w1, obs, i + 1, p);
      PassedCompose(w, w1, Recheck(w1, obs, i + 1).0, p);
    }
  }

  lemma RestoreOneIsStep(w: World, o: Observation)
    ensures StepOn(w, RestoreOne(w, o).0, Some(o.target.path))
  {
    RemoveIsStep(w, o.target);
    if Saved(o).Some? {
      ReplaceIsStep(w, o.target, Saved(o).value);
    }
  }

  lemma RestoreOnePassed(w: World, o: Observation, p: Path)
    requires o.target.path != p
    ensures Passed(w, RestoreOne(w, o).0, p)
  {
    RestoreOneIsStep(w, o);
    StepPassed(w, RestoreOne(w, o).0, Some(o.target.path), p);
  }

  lemma {:induction false} RestoringPassed(w: World, obs: seq<Observation>, i: nat, k: nat)
    requires i <= k < |obs| && SeparateTargets(obs)
    ensures Passed(w, Restoring(w, obs, i, k), obs[k].target.path)
    decreases k - i
  {
    var p := obs[k].target.path;
    if i == k {
      PassedSelf(w, p);
    } else {
      var w1 := RestoreOne(w, obs[i]).0;
      RestoreOnePassed(w, obs[i], p);
      RestoringPassed(w1, obs, i + 1, k);
      PassedCompose(w, w1, Restoring(w1, obs, i + 1, k), p);
    }
  }

  /** Between the last check of a create and its restoration this program leaves its path alone. */
  lemma CheckToRemoval(w: World, l: Lease, obs: seq<Observation>, k: nat)
    requires l.path == JournalPath && SeparateTargets(obs) && k < |obs| && Prepare(w, l, obs).1 == Go
    ensures Passed(LastCheck(w, l, obs, k), Removal(w, l, obs, k), obs[k].target.path)
    ensures OwnsCreate(obs[k].entry) ==> Checked(LastCheck(w, l, obs, k), obs[k])
  {
    var p, c := obs[k].target.path, LastCheck(w, l, obs, k);
    var w1 := AssertLease(w, l, JournalPath).0;
    RecheckPassed(w1, obs, 0, k, p);
    var w2 := Recheck(w1, obs, 0).0;
    TickPassed(w2, p);
    var w3 := AssertLease(w2, l, JournalPath).0;
    PassedCompose(c, w2, w3, p);
    RevokeAllPassed(w3, l, obs, 0, p);
    var s := Prepare(w, l, obs).0;
    assert s == RevokeAll(w3, l, obs, 0).0;
    PassedCompose(c, w3, s.w, p);
    AssertAllPassed(s.w, obs, 0, p);
    var w4 := AssertAll(s.w, obs, 0).0;
    PassedCompose(c, s.w, w4, p);
    TickPassed(w4, p);
    var w5 := Settled(w, l, obs);
    PassedCompose(c, w4, w5, p);
    RestoringPassed(w5, obs, 0, k);
    var w6 := Restoring(w5, obs, 0, k);
    PassedCompose(c, w5, w6, p);
    TickPassed(w6, p);
    PassedCompose(c, w6, Removal(w, l, obs, k), p);
  }

  // ----- which step a logged change belongs to -----

  /** The change `n` of the restoration loop was made by the restoration of one observation. */
  lemma {:induction false} RestoredBy(w: World, obs: seq<Observation>, i: nat, n: nat) returns (k: nat)
    requires i <= |obs| && |w.log| <= n < |RestoreAll(w, obs, i).0.log|
    ensures i <= k < |obs|
    ensures var w1 := Restoring(w, obs, i, k);
      && |w1.log| == n && RestoreOne(w1, obs[k]).0.log == w1.log + [RestoreAll(w, obs, i).0.log[n]]
    decreases |obs| - i
  {
    var (w1, p) := RestoreOne(w, obs[i]);
    RestoreOneJustified(w, obs[i]);
    if p == Go {
      RestoreJustified(w1, obs, i + 1);
    }
    if n < |w1.log| {
      k := i;
    } else {
      k := RestoredBy(w1, obs, i + 1, n);
    }
  }

  lemma JournalChanges(w: World, w1: World)
    requires w.log <= w1.log && OnlyJournal(NewChanges(w, w1))
    ensures forall m :: |w.log| <= m < |w1.log| ==> w1.log[m].path == JournalPath
  {
    forall m | |w.log| <= m < |w1.log| ensures w1.log[m].path == JournalPath {
      assert w1.log[m] == NewChanges(w, w1)[m - |w.log|];
    }
  }

  /** A change of `ApplyRecovery` to anything but the journal is one of the restoration loop. */
  lemma ChangedByLoop(w: World, l: Lease, obs: seq<Observation>, n: nat)
    requires l.path == JournalPath
    requires var w1 := ApplyRecovery(w, l, obs).0;
      |w.log| <= n < |w1.log| && w1.log[n].path != JournalPath
    ensures Prepare(w, l, obs).1 == Go
    ensures var w1, start := ApplyRecovery(w, l, obs).0, Settled(w, l, obs);
      var w2 := RestoreAll(start, obs, 0).0;
      |start.log| <= n < |w2.log| && w2.log[n] == w1.log[n]
  {
    var (s, p) := Prepare(w, l, obs);
    PrepareChangesJournal(w, l, obs);
    JournalChanges(w, s.w);
    if p == Go {
      SettleJustified(s.w, s.lease, obs);
      AssertChangesNothing(s.w, obs, 0);
      RestoreJustified(Settled(w, l, obs), obs, 0);
    }
  }

  /** A create checked at one moment and removed at a later one carries its recorded
      fingerprint exactly when outsiders left its path alone in between. */
  lemma StampAtRemoval(c: World, w: World, o: Observation, node: Node)
    requires Stamped(c.disk) && Checked(c, o) && Passed(c, Tick(w).0, o.target.path)
    requires RestoreOne(w, o).0.log == w.log + [Change(o.target.path, Some(node), None)]
    ensures IdentityOf(o.entry.provenance) == Some(Fingerprint(node.inode, node.stamp))
      <==> !TouchedIn(Between(c, Tick(w).0), o.target.path)
  {
    var p, w1 := o.target.path, Tick(w).0;
    assert RestoreOne(w, o).0.log[|w.log|] == Change(p, Some(node), None);
    assert Current(w1.disk, o.target) && p in w1.disk.files && node == w1.disk.files[p];
  }

  // ----- main results -----

  /** Every removal `ApplyRecovery` makes is of a create this program owns, and the removed file
      carries the fingerprint recorded for it exactly when no outside edit in the events from
      the last check of that fingerprint up to the removal touches its path. */
  lemma RemovalStampExact(w: World, l: Lease, obs: seq<Observation>, n: nat) returns (k: nat)
    requires l.path == JournalPath && SeparateTargets(obs) && Stamped(w.disk)
    requires var w1 := ApplyRecovery(w, l, obs).0;
      |w.log| <= n < |w1.log| && w1.log[n].path != JournalPath && w1.log[n].next.None?
    ensures k < |obs| && OwnsCreate(obs[k].entry) && Later(LastCheck(w, l, obs, k), Removal(w, l, obs, k))
    ensures Later(w, LastCheck(w, l, obs, k))
    ensures var c := ApplyRecovery(w, l, obs).0.log[n];
      && c.path == obs[k].target.path && c.prior.Some?
      && (IdentityOf(obs[k].entry.provenance) == Some(Fingerprint(c.prior.value.inode, c.prior.value.stamp))
          <==> !TouchedIn(Between(LastCheck(w, l, obs, k), Removal(w, l, obs, k)), c.path))
  {
    ChangedByLoop(w, l, obs, n);
    var start := Settled(w, l, obs);
    k := RestoredBy(start, obs, 0, n);
    var w1, c := Restoring(start, obs, 0, k), ApplyRecovery(w, l, obs).0.log[n];
    RestoreOneJustified(w1, obs[k]);
    assert RestoreOne(w1, obs[k]).0.log[|w1.log|] == c;
    CheckToRemoval(w, l, obs, k);
    CheckIsLater(w, l, obs, k);
    StampAtRemoval(LastCheck(w, l, obs, k), w1, obs[k], c.prior.value);
  }

  lemma CheckIsLater(w: World, l: Lease, obs: seq<Observation>, k: nat)
    requires k < |obs|
    ensures Later(w, LastCheck(w, l, obs, k)) && (Stamped(w.disk) ==> Stamped(LastCheck(w, l, obs, k).disk))
  {
    var w1 := AssertLease(w, l, JournalPath).0;
    TickPassed(w, JournalPath);
    CheckingPassed(w1, obs, 0, k, JournalPath);
    PassedCompose(w, w1, LastCheck(w, l, obs, k), JournalPath);
  }

  lemma {:induction false} CheckingPassed(w: World, obs: seq<Observation>, i: nat, k: nat, p: Path)
    requires i <= k < |obs|
    ensures Passed(w, Checking(w, obs, i, k), p)
    decreases k - i
  {
    var w1 := if OwnsCreate(obs[i].entry) then FingerprintOf(w, obs[i].target).0.w else w;
    TickPassed(w, p);
    PassedSelf(w, p);
    if i < k {
      CheckingPassed(w1, obs, i + 1, k, p);
      PassedCompose(w, w1, Checking(w1, obs, i + 1, k), p);
    }
  }

  /** The world preflight hands over to the rest of recovery. */
  function AfterPreflight(w: World): World
    requires Preflight(w).Some?
  {
    var s := Open(w, JournalPath);
    ObserveAll(s.w, ContentAt(s.w.disk.files, JournalPath).value.journal.entries).0
  }

  lemma RecoverApplies(w: World)
    requires Preflight(w).Some?
    ensures var w1, l, obs := AfterPreflight(w), Open(w, JournalPath).lease, Preflight(w).value;
      && Recover(w).0 == ApplyRecovery(w1, l, obs).0 && l.path == JournalPath
      && w1.log == w.log && Later(w, w1) && (Stamped(w.disk) ==> Stamped(w1.disk)) && SeparateTargets(obs)
  {
    var s := Open(w, JournalPath);
    var j := ContentAt(s.w.disk.files, JournalPath).value.journal;
    assert LeaseContent(s.lease) == Some(Encoded(j));
    OpenPassed(w, JournalPath, JournalPath);
    ObserveAllPassed(s.w, j.entries, JournalPath);
    PassedCompose(w, s.w, AfterPreflight(w), JournalPath);
    ObserveChangesNothing(s.w, j.entries);
    PreflightIsObserved(w);
    var obs := Preflight(w).value;
    forall i | 0 <= i < |obs| ensures obs[i].target.path == j.entries[i].path && obs[i].target.path.Managed? {
      assert ObservedFrom(Observing(s.w, j.entries, i), j.entries[i], obs[i]) && EntryDecodes(j, j.entries[i]);
    }
  }

  /** The same for the whole of recovery, from preflight's own observations. */
  lemma RecoverStampExact(w: World, n: nat) returns (k: nat)
    requires Stamped(w.disk)
    requires var w1 := Recover(w).0;
      |w.log| <= n < |w1.log| && w1.log[n].path != JournalPath && w1.log[n].next.None?
    ensures Preflight(w).Some? && k < |Preflight(w).value|
    ensures var w0, l, obs := AfterPreflight(w), Open(w, JournalPath).lease, Preflight(w).value;
      var c, check, removal := Recover(w).0.log[n], LastCheck(w0, l, obs, k), Removal(w0, l, obs, k);
      && OwnsCreate(obs[k].entry) && c.path == obs[k].target.path == obs[k].entry.path && c.prior.Some?
      && Later(w, check) && Later(check, removal)
      && (IdentityOf(obs[k].entry.provenance) == Some(Fingerprint(c.prior.value.inode, c.prior.value.stamp))
          <==> !TouchedIn(Between(check, removal), c.path))
  {
    RecoverUnderInterference(w);
    RecoverApplies(w);
    PreflightIsObserved(w);
    var w0, l, obs := AfterPreflight(w), Open(w, JournalPath).lease, Preflight(w).value;
    k := RemovalStampExact(w0, l, obs, n);
    LaterCompose(w, w0, LastCheck(w0, l, obs, k));
  }

  lemma BetweenIsScheduled(w: World, c: World, r: World, p: Path)
    requires Later(w, c) && Later(c, r) && TouchedIn(Between(c, r), p)
    ensures TouchedIn(w.schedule, p)
  {
    var i :| 0 <= i < |Between(c, r)| && Touches(Between(c, r)[i].edits, p);
    assert c.schedule[i] == w.schedule[|w.schedule| - |c.schedule| + i];
  }

  /** In particular, a create nobody else touches is removed only under its recorded fingerprint. */
  lemma UntouchedKeepsFingerprint(w: World, n: nat) returns (k: nat)
    requires Stamped(w.disk)
    requires var w1 := Recover(w).0;
      && |w.log| <= n < |w1.log| && w1.log[n].path != JournalPath && w1.log[n].next.None?
      && !TouchedIn(w.schedule, w1.log[n].path)
    ensures Preflight(w).Some? && k < |Preflight(w).value|
    ensures var e, c := Preflight(w).value[k].entry, Recover(w).0.log[n];
      && c.path == e.path && OwnsCreate(e) && c.prior.Some?
      && IdentityOf(e.provenance) == Some(Fingerprint(c.prior.value.inode, c.prior.value.stamp))
  {
    k := RecoverStampExact(w, n);
    var w0, l, obs := AfterPreflight(w), Open(w, JournalPath).lease, Preflight(w).value;
    var check, removal, p := LastCheck(w0, l, obs, k), Removal(w0, l, obs, k), Recover(w).0.log[n].path;
    if TouchedIn(Between(check, removal), p) {
      BetweenIsScheduled(w, check, removal, p);
    }
  }

  // A concrete run: a confirmed create, and an outsider who rewrites the same bytes in
  // place between the last fingerprint check and the removal.
  const P := Managed(Codex, Config)
  const BYTES := Raw([])
  const OWNED := Entry(P, None, Some(Sha256(BYTES)), None, Identified(Some(Confirmed), Some(Fingerprint(5, 9))))
  const PENDING := Journal(2, "install", "t", [OWNED])
  const DISK := Disk(map[JournalPath := Node(Encoded(PENDING), 6, 10), P := Node(BYTES, 5, 9)], 11)
  const CALM := Event([], Proceeds)
  const REWRITE := Event([Write(P, BYTES, 5)], Proceeds)
  const SEEN := [Observation(OWNED, Look(DISK, P), None)]

  lemma StampPreflight()
    ensures Recover(World(DISK, [CALM, CALM, CALM, CALM, CALM, CALM, CALM, CALM, CALM, REWRITE], []))
         == ApplyRecovery(World(DISK, [CALM, CALM, CALM, CALM, CALM, CALM, REWRITE], []), Look(DISK, JournalPath), SEEN)
  {
    var w := World(DISK, [CALM, CALM, CALM, CALM, CALM, CALM, CALM, CALM, CALM, REWRITE], []);
    var s := Open(w, JournalPath);
    assert Decodes(PENDING);
    var w1 := World(DISK, [CALM, CALM, CALM, CALM, CALM, CALM, REWRITE], []);
    assert Open(s.w, P).w.schedule == [CALM] + w1.schedule;
    assert ObserveEntry(s.w, OWNED) == (w1, Clear(SEEN[0]));
    var none: seq<Entry> := PENDING.entries[1..];
    assert none == [];
    assert ObserveAll(w1, none) == (w1, Surveyed([]));
    assert SEEN == [SEEN[0]] + [];
  }

  lemma StampPrepare() returns (s: Step)
    ensures Prepare(World(DISK, [CALM, CALM, CALM, CALM, CALM, CALM, REWRITE], []), Look(DISK, JournalPath), SEEN) == (s, Go)
    ensures s.w.schedule == [CALM, CALM, REWRITE] && s.lease == Look(s.w.disk, JournalPath)
    ensures NodeAt(s.w.disk, P) == NodeAt(DISK, P) && s.w.disk.clock == 12 && s.lease.seen.Some?
  {
    var w := World(DISK, [CALM, CALM, CALM, CALM, CALM, CALM, REWRITE], []);
    var l := Look(DISK, JournalPath);
    var w1 := AssertLease(w, l, JournalPath).0;
    assert w1 == World(DISK, [CALM, CALM, CALM, CALM, CALM, REWRITE], []);
    var w2 := World(DISK, [CALM, CALM, CALM, CALM, REWRITE], []);
    assert Recheck(w1, SEEN, 0) == (w2, Go) by {
      assert Recheck(w2, SEEN, 1) == (w2, Go);
    }
    var w3 := AssertLease(w2, l, JournalPath).0;
    assert w3 == World(DISK, [CALM, CALM, CALM, REWRITE], []);
    s := SetState(w3, l, P, Revoked);
    assert s.signal == Done && s.w.schedule == [CALM, CALM, REWRITE];
    assert RevokeAll(w3, l, SEEN, 0) == RevokeAll(s.w, s.lease, SEEN, 1) == (s, Go);
  }

  lemma StampSettle(w: World, l: Lease)
    requires w.schedule == [CALM, CALM, REWRITE] && l == Look(w.disk, JournalPath) && l.seen.Some?
    requires NodeAt(w.disk, P) == NodeAt(DISK, P) && w.disk.clock == 12
    ensures var (w1, r) := Settle(w, l, SEEN);
      r == Recovered && |w1.log| > |w.log| && w1.log[|w.log|] == Change(P, Some(Node(BYTES, 5, 12)), None)
  {
    var w1 := World(w.disk, [CALM, REWRITE], w.log);
    assert AssertAll(w, SEEN, 0) == AssertAll(w1, SEEN, 1) == (w1, Go);
    var w2 := World(w.disk, [REWRITE], w.log);
    assert AssertLease(w1, l, JournalPath) == (w2, Go);
    assert Meddled(w2.disk, REWRITE.edits) == Put(w2.disk, P, BYTES, 5) by {
      assert REWRITE.edits[1..] == [];
    }
    var (w3, p3) := RestoreOne(w2, SEEN[0]);
    assert p3 == Go && w3.log == w.log + [Change(P, Some(Node(BYTES, 5, 12)), None)];
    assert RestoreAll(w2, SEEN, 0) == RestoreAll(w3, SEEN, 1) == (w3, Go);
    assert RemoveJournal(w3, l).1 == Recovered;
  }

  /** Hence a created file can be removed under a stamp that was never recorded. */
  lemma RemovesUnderAnotherStamp() returns (w: World)
    ensures Stamped(w.disk) && ContentAt(w.disk.files, JournalPath) == Some(Encoded(PENDING))
    ensures var (w1, r) := Recover(w);
      && r == Recovered
      && exists n, node :: 0 <= n < |w1.log| && w1.log[n] == Change(P, Some(node), None)
           && IdentityOf(OWNED.provenance) != Some(Fingerprint(node.inode, node.stamp))
  {
    w := World(DISK, [CALM, CALM, CALM, CALM, CALM, CALM, CALM, CALM, CALM, REWRITE], []);
    StampPreflight();
    var s := StampPrepare();
    StampSettle(s.w, s.lease);
    var w1 := Recover(w).0;
    assert w1.log[|s.w.log|] == Change(P, Some(Node(BYTES, 5, 12)), None);
  }
}
