/** What goes wrong, step by step: with fresh leases and no outsiders a step of the transaction
    raises only by using up a failure of its schedule, and dies only by using up a crash. */
module Mishaps {
  import opened Options
  import opened ConfinedIo
  import opened TransactionJournal
  import opened Transaction
  import opened RecoverySafety
  import opened TransactionSafety

  // ----- counting what is still to go wrong -----

  function Failures(schedule: seq<Event>): nat {
    if schedule == [] then 0 else (if schedule[0].fate.Fails? then 1 else 0) + Failures(schedule[1..])
  }

  function Deaths(schedule: seq<Event>): nat {
    if schedule == [] then 0 else (if schedule[0].fate.Crashes? then 1 else 0) + Deaths(schedule[1..])
  }

  /** Failures that publish without refreshing the lease they published under. */
  function Torn(schedule: seq<Event>): nat {
    if schedule == [] then 0 else (if schedule[0].fate == Fails(true, false) then 1 else 0) + Torn(schedule[1..])
  }

  /** Between two moments: nothing new to go wrong, and what was used up accounts for the signal. */
  ghost predicate Accounted(w: World, w1: World, signal: Signal) {
    && Quiet(w1)
    && Failures(w1.schedule) <= Failures(w.schedule) && Deaths(w1.schedule) <= Deaths(w.schedule)
    && Torn(w1.schedule) <= Torn(w.schedule)
    && (signal == Raised ==> Failures(w1.schedule) < Failures(w.schedule))
    && (signal == Crashed ==> Deaths(w1.schedule) < Deaths(w.schedule))
  }

  /** The lease is current, unless a torn failure was used up. */
  predicate CurrentUnlessTorn(w: World, w1: World, l: Lease) {
    Current(w1.disk, l) || Torn(w1.schedule) < Torn(w.schedule)
  }

  lemma SureTick(w: World)
    requires Quiet(w)
    ensures var (w1, fate) := Tick(w);
      && Quiet(w1) && w1.disk == w.disk
      && Failures(w.schedule) == Failures(w1.schedule) + (if fate.Fails? then 1 else 0)
      && Deaths(w.schedule) == Deaths(w1.schedule) + (if fate.Crashes? then 1 else 0)
      && Torn(w.schedule) == Torn(w1.schedule) + (if fate == Fails(true, false) then 1 else 0)
  {
  }

  /** A mutation under a current lease. */
  ghost predicate Mutated(w: World, s: Step, l: Lease, d: Disk) {
    && Accounted(w, s.w, s.signal) && s.lease.path == l.path && SameElsewhere(w.disk, s.w.disk, l.path)
    && CurrentUnlessTorn(w, s.w, s.lease)
    && (s.signal == Done ==> s.w.disk == d && s.lease == Look(s.w.disk, l.path))
  }

  lemma SureReplace(w: World, l: Lease, content: Content)
    requires Quiet(w) && Current(w.disk, l)
    ensures Mutated(w, Replace(w, l, content), l, Put(w.disk, l.path, content, w.disk.clock))
  {
    SureTick(w);
  }

  lemma SureRemove(w: World, l: Lease)
    requires Quiet(w) && Current(w.disk, l) && l.seen.Some?
    ensures Mutated(w, Remove(w, l), l, Dropped(w.disk, l.path))
  {
    SureTick(w);
  }

  // ----- one operation -----

  predicate ReadyOp(t: Txn, op: Op, tag: string)
    requires op.path.Managed?
  {
    && (op.path in t.leases ==> t.leases[op.path] == Look(t.w.disk, op.path))
    && (op.before.Some? ==>
          && op.path in t.leases && BackupOf(op.path, tag) in t.leases
          && t.leases[BackupOf(op.path, tag)] == Look(t.w.disk, BackupOf(op.path, tag)))
  }

  /** The leases still to be used describe the disk. */
  predicate Ready(t: Txn, ops: seq<Op>, tag: string, i: nat)
    requires ManagedOps(ops)
  {
    t.journal == Look(t.w.disk, JournalPath) && forall k :: i <= k < |ops| ==> ReadyOp(t, ops[k], tag)
  }

  /** One operation changed nothing the others rely on. */
  ghost predicate OnlyItsOwn(t: Txn, t1: Txn, op: Op, tag: string)
    requires op.path.Managed?
  {
    forall q :: q != JournalPath && q != op.path && q != BackupOf(op.path, tag) ==>
      && NodeAt(t1.w.disk, q) == NodeAt(t.w.disk, q)
      && (q in t1.leases <==> q in t.leases) && (q in t.leases ==> t1.leases[q] == t.leases[q])
  }

  /** Some of an operation's steps were taken; if all were, it holds its own target. */
  ghost predicate Stepped(t: Txn, t1: Txn, signal: Signal, op: Op, tag: string)
    requires op.path.Managed?
  {
    && Accounted(t.w, t1.w, signal) && OnlyItsOwn(t, t1, op, tag)
    && t1.journal.path == JournalPath && CurrentUnlessTorn(t.w, t1.w, t1.journal)
    && (signal == Done ==>
          && t1.journal == Look(t1.w.disk, JournalPath)
          && op.path in t1.leases && t1.leases[op.path] == Look(t1.w.disk, op.path))
  }

  lemma SureConfirm(w: World, l: Lease, j: Journal, k: nat, published: Lease)
    requires Quiet(w) && JournalOn(w.disk, j) && j.schema == 2 && l == Look(w.disk, JournalPath)
    requires k < |j.entries| && j.entries[k].before.None? && published.path == j.entries[k].path
    requires Current(w.disk, published) && published.seen.Some?
    requires DigestOf(LeaseContent(published)) == j.entries[k].after
    ensures var s := Confirm(w, l, j.entries[k].path, published);
      && Accounted(w, s.w, s.signal) && s.lease.path == JournalPath && SameElsewhere(w.disk, s.w.disk, JournalPath)
      && CurrentUnlessTorn(w, s.w, s.lease)
      && (s.signal == Done ==> s.lease == Look(s.w.disk, JournalPath))
  {
    FindEntryAt(j.entries, k);
    SureTick(w);
    var (s, fp) := FingerprintOf(w, published);
    if s.signal == Done {
      SureReplace(s.w, l, Encoded(MarkedJournal(j, j.entries[k].path, Confirmed, fp)));
    }
  }

  lemma SurePublish(t: Txn, l: Lease, j: Journal, k: nat, op: Op, tag: string)
    requires Quiet(t.w) && JournalOn(t.w.disk, j) && j.schema == 2 && t.journal == Look(t.w.disk, JournalPath)
    requires k < |j.entries| && op.before.None? && Changes(op) && Matches(j.entries[k], op, tag)
    requires l == Look(t.w.disk, op.path)
    ensures var (t1, signal) := PublishCreate(t, l, op.after.value);
      Stepped(t, t1, signal, op, tag)
  {
    SureReplace(t.w, l, op.after.value);
    var r := Replace(t.w, l, op.after.value);
    assert NodeAt(r.w.disk, JournalPath) == NodeAt(t.w.disk, JournalPath);
    if r.signal == Done {
      SureConfirm(r.w, t.journal, j, k, r.lease);
      var c := Confirm(r.w, t.journal, op.path, r.lease);
      assert NodeAt(c.w.disk, op.path) == NodeAt(r.w.disk, op.path);
    }
  }

  lemma SureAttempt(t: Txn, l: Lease, j: Journal, k: nat, op: Op, tag: string)
    requires Quiet(t.w) && JournalOn(t.w.disk, j) && j.schema == 2 && t.journal == Look(t.w.disk, JournalPath)
    requires k < |j.entries| && Changes(op) && op.before.None? && Untouched(t.w.disk.files, op, j.entries[k], tag)
    requires l == Look(t.w.disk, op.path)
    ensures var (t1, signal) := AttemptCreate(t, l, op.after.value);
      Stepped(t, t1, signal, op, tag)
  {
    MarkDecodes(j, k, Attempted, None);
    var j1 := MarkedJournal(j, op.path, Attempted, None);
    SureReplace(t.w, t.journal, Encoded(j1));
    var m := SetState(t.w, t.journal, op.path, Attempted);
    assert NodeAt(m.w.disk, op.path) == NodeAt(t.w.disk, op.path);
    if m.signal == Done {
      SurePublish(t.(w := m.w, journal := m.lease, leases := t.leases[op.path := l]), l, j1, k, op, tag);
    }
  }

  lemma SureCreate(t: Txn, j: Journal, k: nat, op: Op, tag: string)
    requires Quiet(t.w) && JournalOn(t.w.disk, j) && j.schema == 2 && t.journal == Look(t.w.disk, JournalPath)
    requires k < |j.entries| && Changes(op) && op.before.None? && Untouched(t.w.disk.files, op, j.entries[k], tag)
    requires op.path in t.leases ==> t.leases[op.path] == Look(t.w.disk, op.path)
    ensures var (t1, signal) := ApplyCreate(t, op.path, op.after.value);
      Stepped(t, t1, signal, op, tag)
  {
    SureTick(t.w);
    var s := LeaseForCreate(t, op.path);
    if s.signal == Done {
      SureAttempt(t.(w := s.w), s.lease, j, k, op, tag);
    }
  }

  /** Replacing or removing a target under its current lease. */
  lemma SureTarget(t: Txn, op: Op, tag: string)
    requires Quiet(t.w) && t.journal == Look(t.w.disk, JournalPath)
    requires Changes(op) && op.before.Some? && op.path.Managed?
    requires ContentAt(t.w.disk.files, op.path) == op.before
    requires op.path in t.leases && t.leases[op.path] == Look(t.w.disk, op.path)
    ensures var (t1, signal) := Publish(t, op.path, op.after);
      Stepped(t, t1, signal, op, tag)
  {
    var l := t.leases[op.path];
    if op.after.Some? {
      SureReplace(t.w, l, op.after.value);
      assert NodeAt(Replace(t.w, l, op.after.value).w.disk, JournalPath) == NodeAt(t.w.disk, JournalPath);
    } else {
      SureRemove(t.w, l);
      assert NodeAt(Remove(t.w, l).w.disk, JournalPath) == NodeAt(t.w.disk, JournalPath);
    }
  }

  lemma SureChange(t: Txn, op: Op, tag: string)
    requires Quiet(t.w) && t.journal == Look(t.w.disk, JournalPath)
    requires Changes(op) && op.before.Some? && op.path.Managed? && ContentAt(t.w.disk.files, op.path) == op.before
    requires BackupOf(op.path, tag) !in t.w.disk.files
    requires op.path in t.leases && t.leases[op.path] == Look(t.w.disk, op.path)
    requires BackupOf(op.path, tag) in t.leases
    requires t.leases[BackupOf(op.path, tag)] == Look(t.w.disk, BackupOf(op.path, tag))
    ensures var (t1, signal) := ApplyChange(t, op.path, BackupOf(op.path, tag), op.before.value, op.after);
      Stepped(t, t1, signal, op, tag)
  {
    var backup := BackupOf(op.path, tag);
    SureReplace(t.w, t.leases[backup], op.before.value);
    var (t1, signal) := Publish(t, backup, op.before);
    assert NodeAt(t1.w.disk, op.path) == NodeAt(t.w.disk, op.path);
    assert NodeAt(t1.w.disk, JournalPath) == NodeAt(t.w.disk, JournalPath);
    if signal == Done {
      SureTarget(t1, op, tag);
    }
  }

  lemma SureOne(t: Txn, ops: seq<Op>, tag: string, j: Journal, i: nat)
    requires Quiet(t.w) && ChangingOps(ops) && InProgress(t.w.disk, ops, tag, j, i) && i < |ops|
    requires Ready(t, ops, tag, i) && HasLeases(ops, tag, t.leases)
    ensures var (t1, signal) := ApplyOne(t, ops[i], tag);
      Stepped(t, t1, signal, ops[i], tag)
  {
    var op := ops[i];
    assert op in ops && ReadyOp(t, op, tag);
    if op.before.None? {
      SureCreate(t, j, i, op, tag);
    } else {
      SureChange(t, op, tag);
    }
  }

  // ----- the apply loop -----

  lemma ReadyFrame(t: Txn, t1: Txn, ops: seq<Op>, tag: string, i: nat)
    requires ManagedOps(ops) && i < |ops| && Ready(t, ops, tag, i) && OnlyItsOwn(t, t1, ops[i], tag)
    requires t1.journal == Look(t1.w.disk, JournalPath)
    ensures Ready(t1, ops, tag, i + 1)
  {
  }

  /** The leases of the operations before `i` describe the disk. */
  predicate Holding(t: Txn, ops: seq<Op>, i: nat)
    requires i <= |ops|
  {
    forall k :: 0 <= k < i ==> ops[k].path in t.leases && t.leases[ops[k].path] == Look(t.w.disk, ops[k].path)
  }

  lemma HoldingFrame(t: Txn, t1: Txn, ops: seq<Op>, tag: string, i: nat)
    requires ManagedOps(ops) && i < |ops| && Holding(t, ops, i) && OnlyItsOwn(t, t1, ops[i], tag)
    ensures Holding(t1, ops, i)
  {
    forall k | 0 <= k < i ensures ops[k].path in t1.leases && t1.leases[ops[k].path] == Look(t1.w.disk, ops[k].path) {
      assert ops[k].path != ops[i].path && NodeAt(t1.w.disk, ops[k].path) == NodeAt(t.w.disk, ops[k].path);
    }
  }

  lemma SteppedFrame(t: Txn, t1: Txn, signal: Signal, ops: seq<Op>, tag: string, i: nat)
    requires ManagedOps(ops) && i < |ops| && Ready(t, ops, tag, i) && Holding(t, ops, i)
    requires ops[i].path.Managed? && Stepped(t, t1, signal, ops[i], tag)
    ensures Holding(t1, ops, i)
    ensures signal == Done ==> Ready(t1, ops, tag, i + 1) && Holding(t1, ops, i + 1)
  {
    HoldingFrame(t, t1, ops, tag, i);
    if signal == Done {
      ReadyFrame(t, t1, ops, tag, i);
    }
  }

  /** How the loop ends: what it signals is accounted for, and what it wrote it holds. */
  ghost predicate AllStepped(t: Txn, t1: Txn, signal: Signal, ops: seq<Op>, stop: nat) {
    && Accounted(t.w, t1.w, signal) && t1.journal.path == JournalPath && CurrentUnlessTorn(t.w, t1.w, t1.journal)
    && (signal == Done ==> t1.journal == Look(t1.w.disk, JournalPath))
    && stop <= |ops| && t1.written == ops[..stop] && Holding(t1, ops, stop)
  }

  /** One round: it ends the loop, or leaves everything ready for the next. */
  lemma SureRound(t: Txn, ops: seq<Op>, tag: string, j: Journal, i: nat) returns (j1: Journal)
    requires Quiet(t.w) && ChangingOps(ops) && InProgress(t.w.disk, ops, tag, j, i) && i < |ops| && WellLeased(t)
    requires Ready(t, ops, tag, i) && HasLeases(ops, tag, t.leases) && Holding(t, ops, i) && t.written == ops[..i]
    ensures var (t1, signal) := ApplyOne(t, ops[i], tag);
      if signal != Done then AllStepped(t, t1, signal, ops, i)
      else
        && Accounted(t.w, t1.w, Done) && WellLeased(t1) && HasLeases(ops, tag, t1.leases)
        && InProgress(t1.w.disk, ops, tag, j1, i + 1) && t1.written == ops[..i + 1]
        && Ready(t1, ops, tag, i + 1) && Holding(t1, ops, i + 1)
  {
    SureOne(t, ops, tag, j, i);
    j1 := ApplyOneQuiet(t, ops, tag, j, i);
    var (t1, signal) := ApplyOne(t, ops[i], tag);
    SteppedFrame(t, t1, signal, ops, tag, i);
    assert ops[..i] + [ops[i]] == ops[..i + 1];
  }

  lemma AfterRound(t: Txn, t1: Txn, t2: Txn, signal: Signal, ops: seq<Op>, stop: nat)
    requires Accounted(t.w, t1.w, Done) && AllStepped(t1, t2, signal, ops, stop)
    ensures AllStepped(t, t2, signal, ops, stop)
  {
  }

  lemma {:induction false} SureAll(t: Txn, ops: seq<Op>, tag: string, j: Journal, i: nat)
    requires Quiet(t.w) && ChangingOps(ops) && InProgress(t.w.disk, ops, tag, j, i) && WellLeased(t)
    requires Ready(t, ops, tag, i) && HasLeases(ops, tag, t.leases) && Holding(t, ops, i) && t.written == ops[..i]
    ensures (forall op :: op in ops[i..] ==> op.path.Managed?) && HasLeases(ops[i..], tag, t.leases)
    ensures var (t1, signal) := ApplyAll(t, ops[i..], tag);
      AllStepped(t, t1, signal, ops, |t1.written|)
    decreases |ops| - i
  {
    SuffixLeased(ops, i, tag, t.leases);
    if i == |ops| {
      assert ops[i..] == [];
    } else {
      var j1 := SureRound(t, ops, tag, j, i);
      ApplyAllUnfolds(t, ops, tag, i);
      var (t1, signal) := ApplyOne(t, ops[i], tag);
      if signal == Done {
        SureAll(t1, ops, tag, j1, i + 1);
        var (t2, ended) := ApplyAll(t1, ops[i + 1..], tag);
        AfterRound(t, t1, t2, ended, ops, |t2.written|);
      }
    }
  }

  /** The journal alone is on disk: every operation is as ready as its fresh leases were. */
  lemma ReadyAfterBegin(w: World, plan: Plan, b: Step, ops: seq<Op>)
    requires PlannedOn(plan, w.disk) && FreshPlan(plan, w.disk) && ops == Changing(plan.ops)
    requires ManagedOps(ops)
    requires b.lease == Look(b.w.disk, JournalPath) && SameElsewhere(w.disk, b.w.disk, JournalPath)
    ensures Ready(Txn(b.w, b.lease, plan.leases, []), ops, plan.tag, 0)
  {
    var t := Txn(b.w, b.lease, plan.leases, []);
    forall k | 0 <= k < |ops| ensures ReadyOp(t, ops[k], plan.tag) {
      assert ops[k] in plan.ops && ops[k] in ops;
      var p, bk := ops[k].path, BackupOf(ops[k].path, plan.tag);
      assert NodeAt(b.w.disk, p) == NodeAt(w.disk, p) && NodeAt(b.w.disk, bk) == NodeAt(w.disk, bk);
    }
  }
}
