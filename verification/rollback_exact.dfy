/** Rollback undoes: after a single failure every written target is back at its before-bytes,
    and what is reported unresolved is exactly what a stale journal lease keeps from being undone. */
module RollbackExact {
  import opened Options
  import opened ConfinedIo
  import opened TransactionJournal
  import opened Transaction
  import opened RecoverySafety
  import opened TransactionSafety
  import opened Mishaps
  import opened CrashAtomicity

  /** Nothing is left to go wrong. */
  ghost predicate Calm(w: World) {
    Quiet(w) && Failures(w.schedule) == 0 && Deaths(w.schedule) == 0
  }

  /** The written creates, in order. */
  function CreatedPaths(ops: seq<Op>): seq<Path> {
    if ops == [] then []
    else (if ops[0].before.None? then [ops[0].path] else []) + CreatedPaths(ops[1..])
  }

  // ----- undoing one operation -----

  predicate Undoable(t: Txn, op: Op) {
    op.before.Some? || Current(t.w.disk, t.journal)
  }

  /** What undoing one operation does while nothing goes wrong: it succeeds unless a create cannot be
      revoked first, and touches the journal and its target only. */
  ghost predicate UndoneExactly(t: Txn, t1: Txn, undone: bool, dead: bool, op: Op) {
    && Calm(t1.w) && !dead && t1.journal.path == JournalPath
    && (undone <==> Undoable(t, op))
    && ContentAt(t1.w.disk.files, op.path) == (if undone then op.before else op.after)
    && (Current(t1.w.disk, t1.journal) <==> Current(t.w.disk, t.journal))
    && forall q :: q != JournalPath && q != op.path ==>
         && NodeAt(t1.w.disk, q) == NodeAt(t.w.disk, q)
         && (q in t1.leases <==> q in t.leases) && (q in t.leases ==> t1.leases[q] == t.leases[q])
  }

  /** The second half: the target is asserted, then taken back. */
  lemma UndoCalm(t: Txn, op: Op)
    requires Calm(t.w) && Changes(op) && op.path.Managed? && t.journal.path == JournalPath
    requires op.path in t.leases && t.leases[op.path] == Look(t.w.disk, op.path)
    requires ContentAt(t.w.disk.files, op.path) == op.after && Undoable(t, op)
    ensures var (t1, undone, dead) := Undo(t, op);
      UndoneExactly(t, t1, undone, dead, op)
  {
    var l := t.leases[op.path];
    SureTick(t.w);
    var a := AssertCurrent(t.w, l);
    if op.before.Some? {
      SureReplace(a.w, l, op.before.value);
      assert NodeAt(Replace(a.w, l, op.before.value).w.disk, JournalPath) == NodeAt(t.w.disk, JournalPath);
    } else {
      SureRemove(a.w, l);
      assert NodeAt(Remove(a.w, l).w.disk, JournalPath) == NodeAt(t.w.disk, JournalPath);
    }
  }

  /** Whatever the lease of a target retains, while nothing happens any more: a target that changed since is
      left and unresolved; one seen with its before-bytes needs nothing; one seen with its after-bytes is
      taken back; any other is left and unresolved. */
  lemma UndoDecides(t: Txn, op: Op)
    requires t.w.schedule == [] && Changes(op) && op.path in t.leases && t.leases[op.path].path == op.path
    ensures var (t1, undone, dead) := Undo(t, op);
      var l := t.leases[op.path];
      && !dead
      && if Current(t.w.disk, l) && LeaseContent(l) == op.after then
           undone && ContentAt(t1.w.disk.files, op.path) == op.before && SameElsewhere(t.w.disk, t1.w.disk, op.path)
         else t1 == t && (undone <==> Current(t.w.disk, l) && LeaseContent(l) == op.before)
  {
  }

  /** A create is first revoked, which its journal lease must allow. */
  lemma RevokeCalm(t: Txn, j: Journal, path: Path)
    requires Calm(t.w) && t.journal.path == JournalPath && JournalOn(t.w.disk, j)
    ensures var m := SetState(t.w, t.journal, path, Revoked);
      && Calm(m.w) && m.lease.path == JournalPath && SameElsewhere(t.w.disk, m.w.disk, JournalPath)
      && m.signal == (if Current(t.w.disk, t.journal) then Done else Raised)
      && (Current(m.w.disk, m.lease) <==> Current(t.w.disk, t.journal))
  {
    SureTick(t.w);
    if Current(t.w.disk, t.journal) {
      SureReplace(t.w, t.journal, Encoded(MarkedJournal(j, path, Revoked, None)));
    }
  }

  lemma RollBackOneCalm(t: Txn, j: Journal, op: Op)
    requires Calm(t.w) && Changes(op) && op.path.Managed? && t.journal.path == JournalPath && JournalOn(t.w.disk, j)
    requires op.path in t.leases && t.leases[op.path] == Look(t.w.disk, op.path)
    requires ContentAt(t.w.disk.files, op.path) == op.after
    ensures var (t1, undone, dead) := RollBackOne(t, op);
      UndoneExactly(t, t1, undone, dead, op)
  {
    if op.before.Some? {
      UndoCalm(t, op);
    } else {
      RevokeCalm(t, j, op.path);
      var m := SetState(t.w, t.journal, op.path, Revoked);
      assert NodeAt(m.w.disk, op.path) == NodeAt(t.w.disk, op.path);
      if m.signal == Done {
        UndoCalm(t.(w := m.w, journal := m.lease), op);
      }
    }
  }

  // ----- the rollback loop -----

  /** Operations `[r, stop)` are undone, except creates the journal lease keeps from being revoked. */
  ghost predicate RolledExactly(t: Txn, d1: Disk, unresolved: seq<Path>, dead: bool, ops: seq<Op>, r: nat, stop: nat)
    requires r <= stop <= |ops|
  {
    && !dead && unresolved == (if Current(t.w.disk, t.journal) then [] else CreatedPaths(ops[r..stop]))
    && (forall k :: r <= k < stop ==>
          ContentAt(d1.files, ops[k].path) == if Undoable(t, ops[k]) then ops[k].before else ops[k].after)
    && (forall k :: 0 <= k < |ops| && !(r <= k < stop) ==>
          ContentAt(d1.files, ops[k].path) == ContentAt(t.w.disk.files, ops[k].path))
  }

  lemma HoldingStays(t: Txn, t1: Txn, ops: seq<Op>, r: nat, stop: nat)
    requires ManagedOps(ops) && r < stop <= |ops|
    requires forall k :: r <= k < stop ==> ops[k].path in t.leases && t.leases[ops[k].path] == Look(t.w.disk, ops[k].path)
    requires forall q :: q != JournalPath && q != ops[r].path ==>
      && NodeAt(t1.w.disk, q) == NodeAt(t.w.disk, q)
      && (q in t1.leases <==> q in t.leases) && (q in t.leases ==> t1.leases[q] == t.leases[q])
    ensures forall k :: r < k < stop ==> ops[k].path in t1.leases && t1.leases[ops[k].path] == Look(t1.w.disk, ops[k].path)
    ensures forall k :: 0 <= k < |ops| && k != r ==>
      ContentAt(t1.w.disk.files, ops[k].path) == ContentAt(t.w.disk.files, ops[k].path)
  {
    forall k | 0 <= k < |ops| && k != r
      ensures ContentAt(t1.w.disk.files, ops[k].path) == ContentAt(t.w.disk.files, ops[k].path)
      ensures r < k < stop ==> ops[k].path in t1.leases && t1.leases[ops[k].path] == Look(t1.w.disk, ops[k].path)
    {
      assert ops[k] in ops && ops[k].path != ops[r].path && NodeAt(t1.w.disk, ops[k].path) == NodeAt(t.w.disk, ops[k].path);
    }
  }

  lemma {:induction false} RollBackAllCalm(t: Txn, ops: seq<Op>, tag: string, j: Journal, r: nat, stop: nat)
    requires Calm(t.w) && WellLeased(t) && ChangingOps(ops) && Rolling(t.w.disk, ops, tag, j, r, stop)
    requires forall op :: op in ops[..stop] ==> op.path in t.leases
    requires forall k :: r <= k < stop ==> t.leases[ops[k].path] == Look(t.w.disk, ops[k].path)
    ensures var (t1, unresolved, dead) := RollBackAll(t, ops[r..stop]);
      RolledExactly(t, t1.w.disk, unresolved, dead, ops, r, stop)
    decreases stop - r
  {
    if r == stop {
      assert ops[r..stop] == [];
    } else {
      assert ops[r..stop][1..] == ops[r + 1..stop] && ops[r..stop][0] == ops[r];
      assert ops[r] in ops[..stop] && ops[r] in ops;
      var (t1, undone, dead) := RollBackOne(t, ops[r]);
      RollBackOneCalm(t, j, ops[r]);
      var j1 := RollBackOneQuiet(t, j, r, ops[r], tag);
      RollingStep(t.w.disk, t1.w.disk, ops, tag, j, j1, r, stop);
      HoldingStays(t, t1, ops, r, stop);
      RollBackAllCalm(t1, ops, tag, j1, r + 1, stop);
      RolledOnce(t, t1, ops, r, stop);
    }
  }

  lemma RolledOnce(t: Txn, t1: Txn, ops: seq<Op>, r: nat, stop: nat)
    requires ChangingOps(ops) && r < stop <= |ops| && (forall op :: op in ops[..stop] ==> op.path in t.leases)
    requires ops[r].path in t.leases && RollBackOne(t, ops[r]).0 == t1
    requires UndoneExactly(t, t1, RollBackOne(t, ops[r]).1, RollBackOne(t, ops[r]).2, ops[r])
    requires forall k :: 0 <= k < |ops| && k != r ==>
      ContentAt(t1.w.disk.files, ops[k].path) == ContentAt(t.w.disk.files, ops[k].path)
    requires forall op :: op in ops[r + 1..stop] ==> op.path in t1.leases
    requires var (t2, unresolved, dead) := RollBackAll(t1, ops[r + 1..stop]);
      RolledExactly(t1, t2.w.disk, unresolved, dead, ops, r + 1, stop)
    ensures forall op :: op in ops[r..stop] ==> op.path in t.leases
    ensures var (t2, unresolved, dead) := RollBackAll(t, ops[r..stop]);
      RolledExactly(t, t2.w.disk, unresolved, dead, ops, r, stop)
  {
    var rest := ops[r..stop];
    assert rest[1..] == ops[r + 1..stop] && rest[0] == ops[r];
  }

  // ----- main result -----

  /** The transaction where its apply loop ends. */
  function Applied(w: World, plan: Plan): (Txn, Signal)
    requires ManagedOps(plan.ops) && Leased(plan.ops, plan.tag, plan.leases)
  {
    var b := Begin(w, plan);
    ApplyAll(Txn(b.w, b.lease, plan.leases, []), plan.ops, plan.tag)
  }

  lemma {:induction false} CreatedPathsHas(ops: seq<Op>, p: Path)
    ensures p in CreatedPaths(ops) <==> exists op :: op in ops && op.before.None? && op.path == p
  {
    if ops == [] {
    } else {
      CreatedPathsHas(ops[1..], p);
      assert forall op :: op in ops <==> op == ops[0] || op in ops[1..];
    }
  }

  /** Every target but the failing one is back at its before-bytes, unless it is reported. */
  ghost predicate BackAgain(d: Disk, ops: seq<Op>, stop: nat, unresolved: seq<Path>) {
    forall k :: 0 <= k < |ops| ==>
      var held := ContentAt(d.files, ops[k].path);
      if k == stop then held == ops[k].before || held == ops[k].after
      else held == if ops[k].path in unresolved then ops[k].after else ops[k].before
  }

  lemma StoppedHoldsOne(files: map<Path, Node>, op: Op, e: Entry, tag: string)
    requires SoundOp(files, op, e, tag)
    ensures ContentAt(files, op.path) == op.before || ContentAt(files, op.path) == op.after
  {
  }

  lemma UnresolvedAre(t: Txn, d1: Disk, ops: seq<Op>, tag: string, j: Journal, stop: nat, unresolved: seq<Path>, dead: bool)
    requires ChangingOps(ops) && Interrupted(t.w.disk, ops, tag, j, stop)
    requires RolledExactly(t, d1, unresolved, dead, ops, 0, stop)
    ensures BackAgain(d1, ops, stop, unresolved)
  {
    assert ops[0..stop] == ops[..stop];
    StoppedHoldsOne(t.w.disk.files, ops[stop], j.entries[stop], tag);
    forall k | 0 <= k < |ops| && k != stop
      ensures ContentAt(d1.files, ops[k].path) == if ops[k].path in unresolved then ops[k].after else ops[k].before
    {
      CreatedPathsHas(ops[..stop], ops[k].path);
      if k < stop {
        assert ops[..stop][k] == ops[k];
      }
      forall i | 0 <= i < stop && ops[..stop][i].path == ops[k].path ensures i == k {
        assert ops[..stop][i] == ops[i];
      }
    }
  }

  /** The rollback after the apply loop raised, while nothing more goes wrong. */
  lemma RollbackUndoes(t: Txn, ops: seq<Op>, tag: string, j: Journal, stop: nat)
    requires Calm(t.w) && ChangingOps(ops) && AppliedTo(t, Raised, ops, tag, j, stop) && Holding(t, ops, stop)
    ensures forall op :: op in t.written ==> op.path in t.leases
    ensures var (t1, unresolved, dead) := RollBackAll(t, t.written);
      && !dead && BackAgain(t1.w.disk, ops, stop, unresolved)
      && unresolved == if Current(t.w.disk, t.journal) then [] else CreatedPaths(t.written)
  {
    InterruptedIsRolling(t.w.disk, ops, tag, j, stop);
    assert ops[0..stop] == ops[..stop] == t.written;
    forall op | op in ops[..stop] ensures op.path in t.leases {
      var k :| 0 <= k < stop && ops[..stop][k] == op;
      assert ops[k] == op;
    }
    RollBackAllCalm(t, ops, tag, j, 0, stop);
    var (t1, unresolved, dead) := RollBackAll(t, t.written);
    UnresolvedAre(t, t1.w.disk, ops, tag, j, stop, unresolved, dead);
  }

  /** How a run with at most one failure ends: complete, or with every target but the failing one back at its
      before-bytes, except creates that a torn journal write keeps from being revoked. */
  ghost predicate RolledBackBut(w: World, plan: Plan, w1: World, ended: Ended, stop: nat)
    requires ManagedOps(plan.ops) && Leased(plan.ops, plan.tag, plan.leases)
  {
    var ops := Changing(plan.ops);
    match ended
    case Completed => JournalPath !in w1.disk.files && AfterBytes(w1.disk, ops)
    case JournalKept => AfterBytes(w1.disk, ops)
    case Dead => false
    case RolledBack(unresolved) =>
      if Begin(w, plan).signal == Raised then unresolved == [] && BeforeBytes(w1.disk, ops)
      else
        var t := Applied(w, plan).0;
        && stop < |ops| && t.written == ops[..stop] && BackAgain(w1.disk, ops, stop, unresolved)
        && unresolved == (if Current(t.w.disk, t.journal) then [] else CreatedPaths(ops[..stop]))
        && (Torn(w.schedule) == 0 ==> unresolved == [])
  }

  lemma ProceedRollsBack(t: Txn, ops: seq<Op>, tag: string, j: Journal) returns (stop: nat)
    requires Quiet(t.w) && Failures(t.w.schedule) <= 1 && Deaths(t.w.schedule) == 0
    requires WellLeased(t) && ChangingOps(ops) && InProgress(t.w.disk, ops, tag, j, 0) && t.written == []
    requires Ready(t, ops, tag, 0) && HasLeases(ops, tag, t.leases)
    ensures var (t1, signal) := ApplyAll(t, ops, tag);
      var (w1, ended) := Proceed(t, ops, tag);
      match ended
      case Completed => JournalPath !in w1.disk.files && AfterBytes(w1.disk, ops)
      case JournalKept => AfterBytes(w1.disk, ops)
      case Dead => false
      case RolledBack(unresolved) =>
        && stop < |ops| && t1.written == ops[..stop] && BackAgain(w1.disk, ops, stop, unresolved)
        && unresolved == (if Current(t1.w.disk, t1.journal) then [] else CreatedPaths(ops[..stop]))
        && (Torn(t.w.schedule) == 0 ==> unresolved == [])
  {
    assert ops[0..] == ops && ops[..0] == [];
    SureAll(t, ops, tag, j, 0);
    var j1;
    j1, stop := ApplyAllQuiet(t, ops, tag, j, 0);
    var (t1, signal) := ApplyAll(t, ops, tag);
    if signal == Done {
      AllFinished(t1.w, t1.journal, ops, tag, j1);
      SureRemove(t1.w, t1.journal);
    } else {
      assert signal == Raised && |ops[..stop]| == stop;
      RollbackUndoes(t1, ops, tag, j1, stop);
    }
  }

  /** At most one step fails, wherever it is, nobody interferes and the process lives: rollback puts every
      written target back and reports nothing unresolved, except the written creates after a journal write
      that was published without its lease noticing. */
  lemma FailureRollsBack(w: World, plan: Plan) returns (stop: nat)
    requires Quiet(w) && PlannedOn(plan, w.disk) && FreshPlan(plan, w.disk)
    requires Failures(w.schedule) <= 1 && Deaths(w.schedule) == 0
    ensures var (w1, ended) := Run(w, plan);
      RolledBackBut(w, plan, w1, ended, stop)
  {
    var ops := Changing(plan.ops);
    stop := 0;
    JournalForDecodes(plan, w.disk);
    BeginQuiet(w, plan, ops);
    SureReplace(w, plan.journal, Encoded(JournalFor(plan)));
    var b := Begin(w, plan);
    if b.signal == Done {
      var t := Txn(b.w, b.lease, plan.leases, []);
      ProceedSkipsUnchanged(t, plan.ops, plan.tag);
      ApplySkipsUnchanged(t, plan.ops, plan.tag);
      ReadyAfterBegin(w, plan, b, ops);
      stop := ProceedRollsBack(t, ops, plan.tag, JournalFor(plan));
    } else {
      BegunIsBefore(w.disk, b.w.disk, plan, ops);
    }
  }

  lemma BegunIsBefore(d: Disk, d1: Disk, plan: Plan, ops: seq<Op>)
    requires PlannedOn(plan, d) && ops == Changing(plan.ops)
    requires d1 == d || InProgress(d1, ops, plan.tag, JournalFor(plan), 0)
    ensures BeforeBytes(d1, ops)
  {
    forall op | op in ops ensures ContentAt(d1.files, op.path) == op.before {
      var k :| 0 <= k < |ops| && ops[k] == op;
      assert op in plan.ops;
    }
  }
}
