/** The whole transaction: every crash point, every failure, and the run that completes. */
module CrashAtomicity {
  import opened ConfinedIo
  import opened TransactionJournal
  import opened Transaction
  import opened Recovery
  import opened RecoverySafety
  import opened TransactionSafety
  import opened Mishaps

  /** Where a run that has begun can end, on disk. */
  ghost predicate EndsWell(d: Disk, ops: seq<Op>, tag: string, ended: Ended, j: Journal, stop: nat) {
    && ((JournalPath !in d.files && AfterBytes(d, ops)) || Pending(d, ops, tag, j))
    && (ended == Completed ==> JournalPath !in d.files && AfterBytes(d, ops))
    && (ended == RolledBack([]) ==>
          && Pending(d, ops, tag, j)
          && forall k :: 0 <= k < |ops| && k != stop ==> UndoneOp(d.files, ops[k], j.entries[k], tag))
  }

  ghost predicate OnlyOneExposed(d: Disk, ops: seq<Op>, tag: string, j: Journal, stop: nat) {
    Pending(d, ops, tag, j) ==>
      forall k :: 0 <= k < |ops| && k != stop ==> !Exposed(d.files, j.entries[k])
  }

  lemma ProceedKeepsInvariant(t: Txn, ops: seq<Op>, tag: string, j0: Journal) returns (j: Journal, stop: nat)
    requires Quiet(t.w) && WellLeased(t) && ChangingOps(ops) && InProgress(t.w.disk, ops, tag, j0, 0)
    requires HasLeases(ops, tag, t.leases) && t.written == []
    ensures var (w1, ended) := Proceed(t, ops, tag);
      && Quiet(w1) && EndsWell(w1.disk, ops, tag, ended, j, stop)
      && (ApplyAll(t, ops, tag).1 != Raised ==> OnlyOneExposed(w1.disk, ops, tag, j, stop))
  {
    assert ops[0..] == ops && ops[..0] == [];
    j, stop := ApplyAllQuiet(t, ops, tag, j0, 0);
    var (t1, signal) := ApplyAll(t, ops, tag);
    if signal == Done {
      AllFinished(t1.w, t1.journal, ops, tag, j);
    } else {
      InterruptedIsRolling(t1.w.disk, ops, tag, j, stop);
      if signal == Raised {
        WrittenIsLeased(t, ops, tag);
        assert ops[0..stop] == ops[..stop];
        var j1 := RollBackAllQuiet(t1, ops, tag, j, 0, stop);
        var (t2, unresolved, dead) := RollBackAll(t1, t1.written);
        RolledBackFromHere(t1.w.disk, t2.w.disk, ops, tag, j, j1, stop, unresolved, dead);
        j := j1;
      }
    }
  }

  lemma ProceedSkipsUnchanged(t: Txn, ops: seq<Op>, tag: string)
    requires (forall op :: op in ops ==> op.path.Managed?) && HasLeases(ops, tag, t.leases) && t.written == []
    ensures HasLeases(Changing(ops), tag, t.leases)
    ensures Proceed(t, ops, tag) == Proceed(t, Changing(ops), tag)
  {
    ApplySkipsUnchanged(t, ops, tag);
  }

  /** Where a quiet run can end: nothing done, everything done, or a journal whose
      entries are all sound. */
  lemma RunKeepsInvariant(w: World, plan: Plan) returns (j: Journal, stop: nat)
    requires Quiet(w) && PlannedOn(plan, w.disk)
    ensures var (w1, ended) := Run(w, plan);
      var ops := Changing(plan.ops);
      && Quiet(w1)
      && ((w1.disk == w.disk && ended != Completed) || EndsWell(w1.disk, ops, plan.tag, ended, j, stop))
      && (NeverRaises(w, plan) ==> OnlyOneExposed(w1.disk, ops, plan.tag, j, stop))
  {
    var ops := Changing(plan.ops);
    JournalForDecodes(plan, w.disk);
    j, stop := JournalFor(plan), 0;
    BeginQuiet(w, plan, ops);
    var b := Begin(w, plan);
    if b.w.disk != w.disk {
      AtStart(b.w.disk, ops, plan.tag, j);
    }
    if b.signal == Done {
      var t := Txn(b.w, b.lease, plan.leases, []);
      ProceedSkipsUnchanged(t, plan.ops, plan.tag);
      ApplySkipsUnchanged(t, plan.ops, plan.tag);
      j, stop := ProceedKeepsInvariant(t, ops, plan.tag, j);
    }
  }

  /** No step of the apply loop raises. */
  predicate NeverRaises(w: World, plan: Plan)
    requires ManagedOps(plan.ops) && Leased(plan.ops, plan.tag, plan.leases)
  {
    var b := Begin(w, plan);
    b.signal == Done ==> ApplyAll(Txn(b.w, b.lease, plan.leases, []), plan.ops, plan.tag).1 != Raised
  }

  lemma AtStart(d: Disk, ops: seq<Op>, tag: string, j: Journal)
    requires ChangingOps(ops) && InProgress(d, ops, tag, j, 0)
    ensures Pending(d, ops, tag, j)
    ensures forall k :: 0 <= k < |ops| ==>
      UndoneOp(d.files, ops[k], j.entries[k], tag) && !Exposed(d.files, j.entries[k])
  {
  }

  lemma InterruptedIsRolling(d: Disk, ops: seq<Op>, tag: string, j: Journal, stop: nat)
    requires ChangingOps(ops) && Interrupted(d, ops, tag, j, stop)
    ensures Rolling(d, ops, tag, j, 0, stop) && Pending(d, ops, tag, j)
    ensures forall k :: 0 <= k < |ops| && k != stop ==> !Exposed(d.files, j.entries[k])
    ensures forall k :: stop < k < |ops| ==> UndoneOp(d.files, ops[k], j.entries[k], tag)
  {
  }

  lemma RolledBackFromHere(
    d: Disk, d1: Disk, ops: seq<Op>, tag: string, j: Journal, j1: Journal, stop: nat,
    unresolved: seq<Path>, dead: bool)
    requires ChangingOps(ops) && Interrupted(d, ops, tag, j, stop)
    requires RolledTo(d, d1, ops, tag, j, j1, 0, stop, unresolved, dead)
    ensures !dead && unresolved == [] ==>
      forall k :: 0 <= k < |ops| && k != stop ==> UndoneOp(d1.files, ops[k], j1.entries[k], tag)
  {
  }

  lemma AllFinished(w: World, journal: Lease, ops: seq<Op>, tag: string, j: Journal)
    requires Quiet(w) && journal.path == JournalPath && ChangingOps(ops) && InProgress(w.disk, ops, tag, j, |ops|)
    ensures Pending(w.disk, ops, tag, j)
    ensures forall k :: 0 <= k < |ops| ==> !Exposed(w.disk.files, j.entries[k])
    ensures var (w1, ended) := Complete(w, journal);
      && Quiet(w1) && !ended.RolledBack?
      && (w1.disk == w.disk || (JournalPath !in w1.disk.files && AfterBytes(w1.disk, ops)))
      && (ended == Completed ==> w1.disk != w.disk)
  {
  }

  // ----- runs in which nothing but the process itself can stop the transaction -----

  /** No outsiders and no failing step; the process may still die at any point. */
  ghost predicate OnlyCrashes(w: World) {
    forall i :: 0 <= i < |w.schedule| ==> w.schedule[i].edits == [] && !w.schedule[i].fate.Fails?
  }

  lemma {:induction false} NoFailures(schedule: seq<Event>)
    requires forall i :: 0 <= i < |schedule| ==> !schedule[i].fate.Fails?
    ensures Failures(schedule) == 0
  {
    if schedule == [] {
    } else {
      NoFailures(schedule[1..]);
    }
  }

  // ----- main results -----

  /** A transaction nobody disturbs completes: every target at its after-bytes, no journal. */
  lemma UndisturbedRunCompletes(w: World, plan: Plan)
    requires w.schedule == [] && PlannedOn(plan, w.disk) && FreshPlan(plan, w.disk)
    ensures var (w1, ended) := Run(w, plan);
      ended == Completed && JournalPath !in w1.disk.files && AfterBytes(w1.disk, Changing(plan.ops))
  {
    var j, stop := RunKeepsInvariant(w, plan);
    CrashOnlyNeverRaises(w, plan);
  }

  lemma ProceedNeverRaises(t: Txn, ops: seq<Op>, tag: string, j: Journal)
    requires Quiet(t.w) && Failures(t.w.schedule) == 0 && t.written == []
    requires WellLeased(t) && ChangingOps(ops) && InProgress(t.w.disk, ops, tag, j, 0)
    requires Ready(t, ops, tag, 0) && HasLeases(ops, tag, t.leases)
    ensures ApplyAll(t, ops, tag).1 != Raised && Proceed(t, ops, tag).1 in {Completed, Dead}
    ensures Deaths(t.w.schedule) == 0 ==> Proceed(t, ops, tag).1 == Completed
  {
    assert ops[0..] == ops && ops[..0] == [];
    SureAll(t, ops, tag, j, 0);
    var (t1, signal) := ApplyAll(t, ops, tag);
    if signal == Done {
      var j1, stop := ApplyAllQuiet(t, ops, tag, j, 0);
      SureRemove(t1.w, t1.journal);
    }
  }

  lemma CrashOnlyNeverRaises(w: World, plan: Plan)
    requires OnlyCrashes(w) && PlannedOn(plan, w.disk) && FreshPlan(plan, w.disk)
    ensures NeverRaises(w, plan) && Begin(w, plan).signal != Raised
    ensures Run(w, plan).1 in {Completed, Dead}
    ensures w.schedule == [] ==> Run(w, plan).1 == Completed
  {
    var ops := Changing(plan.ops);
    JournalForDecodes(plan, w.disk);
    BeginQuiet(w, plan, ops);
    NoFailures(w.schedule);
    SureReplace(w, plan.journal, Encoded(JournalFor(plan)));
    var b := Begin(w, plan);
    if b.signal == Done {
      var t := Txn(b.w, b.lease, plan.leases, []);
      ProceedSkipsUnchanged(t, plan.ops, plan.tag);
      ApplySkipsUnchanged(t, plan.ops, plan.tag);
      ReadyAfterBegin(w, plan, b, ops);
      ProceedNeverRaises(t, ops, plan.tag, JournalFor(plan));
    }
  }

  /** Restoring the journal's entries restores the operations' bytes. */
  lemma BeforeFromDigests(d: Disk, ops: seq<Op>, tag: string, d0: Disk, j: Journal)
    requires Pending(d0, ops, tag, j) && AllBefore(d.files, j.entries)
    ensures BeforeBytes(d, ops)
  {
  }

  lemma StrandedIffBlocked(d: Disk, ops: seq<Op>, tag: string, j: Journal)
    requires Pending(d, ops, tag, j) && ChangingOps(ops)
    ensures Stranded(d, j) <==> exists k :: 0 <= k < |j.entries| && !Restorable(d.files, j.entries[k])
  {
  }

  /** Crash atomicity.  Let the process die anywhere in begin, apply or complete, and run
      `recover` afterwards.  Either there is no journal, and the targets hold all their
      before-bytes or all their after-bytes; or every target gets its before-bytes back
      and the journal goes; or recovery changes nothing and reports a conflict, and that
      happens exactly when the crash fell between publishing a create and confirming it. */
  lemma CrashAtomic(w: World, plan: Plan) returns (j: Journal, stop: nat)
    requires OnlyCrashes(w) && PlannedOn(plan, w.disk) && FreshPlan(plan, w.disk)
    ensures var ops := Changing(plan.ops);
      var crashed := Run(w, plan).0.(schedule := []);
      var (w2, r) := Recover(crashed);
      && (r == NothingPending <==> JournalPath !in crashed.disk.files)
      && (r == NothingPending ==> w2 == crashed && (BeforeBytes(w2.disk, ops) || AfterBytes(w2.disk, ops)))
      && (r == Recovered ==> JournalPath !in w2.disk.files && BeforeBytes(w2.disk, ops))
      && (r.Conflict? ==> w2 == crashed)
      && !r.Invalid? && !r.Died?
      && (r != NothingPending ==>
            && Pending(crashed.disk, ops, plan.tag, j)
            && (r.Conflict? <==> Stranded(crashed.disk, j))
            && forall k :: 0 <= k < |ops| && k != stop ==> !Exposed(crashed.disk.files, j.entries[k]))
  {
    CrashOnlyNeverRaises(w, plan);
    j, stop := RunKeepsInvariant(w, plan);
    AfterRun(w, plan, j);
  }

  /** Recovery after a quiet run that ended in any way. */
  lemma AfterRun(w: World, plan: Plan, j: Journal)
    requires Quiet(w) && PlannedOn(plan, w.disk)
    requires var d := Run(w, plan).0.disk;
      d == w.disk || (JournalPath !in d.files && AfterBytes(d, Changing(plan.ops)))
      || Pending(d, Changing(plan.ops), plan.tag, j)
    ensures var ops := Changing(plan.ops);
      var ended := Run(w, plan).0.(schedule := []);
      var (w2, r) := Recover(ended);
      && (r == NothingPending <==> JournalPath !in ended.disk.files)
      && (r == NothingPending ==> w2 == ended && (BeforeBytes(w2.disk, ops) || AfterBytes(w2.disk, ops)))
      && (r == Recovered ==> JournalPath !in w2.disk.files && BeforeBytes(w2.disk, ops))
      && (r.Conflict? ==> w2 == ended)
      && !r.Invalid? && !r.Died?
      && (r != NothingPending ==>
            Pending(ended.disk, ops, plan.tag, j) && (r.Conflict? <==> Stranded(ended.disk, j)))
  {
    JournalForDecodes(plan, w.disk);
    var ops := Changing(plan.ops);
    var ended := Run(w, plan).0.(schedule := []);
    if Pending(ended.disk, ops, plan.tag, j) {
      RecoverDecides(ended, j);
      StrandedIffBlocked(ended.disk, ops, plan.tag, j);
      var (w2, r) := Recover(ended);
      if r == Recovered {
        BeforeFromDigests(w2.disk, ops, plan.tag, ended.disk, j);
      }
    } else {
      assert Recover(ended) == (ended, NothingPending);
      if ended.disk == w.disk {
        assert forall op :: op in ops ==> op in plan.ops;
      }
    }
  }

  /** Error path.  If a step of apply raises and rollback leaves nothing unresolved, every
      target but possibly the failing one holds its before-bytes already, and a following
      `recover` ends with every target at its before-bytes and no journal, unless the
      failing step was a create published but not confirmed; then it changes nothing. */
  lemma ErrorPath(w: World, plan: Plan) returns (j: Journal, stop: nat)
    requires Quiet(w) && PlannedOn(plan, w.disk) && Run(w, plan).1 == RolledBack([])
    ensures var ops := Changing(plan.ops);
      var failed := Run(w, plan).0.(schedule := []);
      var (w2, r) := Recover(failed);
      && (forall k :: 0 <= k < |ops| && k != stop ==> ContentAt(failed.disk.files, ops[k].path) == ops[k].before)
      && (r in {Recovered, NothingPending} ==> JournalPath !in w2.disk.files && BeforeBytes(w2.disk, ops))
      && (r !in {Recovered, NothingPending} ==>
            && r.Conflict? && w2 == failed && Pending(failed.disk, ops, plan.tag, j)
            && stop < |ops| && Exposed(failed.disk.files, j.entries[stop]))
  {
    j, stop := RunKeepsInvariant(w, plan);
    AfterRun(w, plan, j);
    var ops := Changing(plan.ops);
    var failed := Run(w, plan).0.(schedule := []);
    if failed.disk == w.disk {
      forall k | 0 <= k < |ops| ensures ContentAt(failed.disk.files, ops[k].path) == ops[k].before {
        assert ops[k] in plan.ops;
      }
      forall op | op in ops ensures ContentAt(failed.disk.files, op.path) == op.before {
        assert op in plan.ops;
      }
    } else {
      forall k | 0 <= k < |ops| && k != stop ensures !Exposed(failed.disk.files, j.entries[k]) {
        assert UndoneOp(failed.disk.files, ops[k], j.entries[k], plan.tag);
        assert ops[k] in ops && Changes(ops[k]);
      }
    }
  }
}
