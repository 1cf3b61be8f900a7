/** Install and remove while outsiders keep editing the disk: every change a transaction
    makes is to its journal, saves, applies or undoes one planned operation, and starts
    from bytes that were planned or that it put there itself. */
module TransactionInterference {
  import opened Options
  import opened ConfinedIo
  import opened TransactionJournal
  import opened Transaction
  import opened Interference

  function ContentIn(n: Option<Node>): Option<Content> {
    match n
    case None => None
    case Some(node) => Some(node.content)
  }

  /** What planning saw at a path; a create without a retained lease was absent. */
  function PlannedSeen(plan: Plan, p: Path): Option<Seen> {
    if p in plan.leases then plan.leases[p].seen else None
  }

  /** The retained leases hold the planned before-bytes.  Nothing is asked of the disk. */
  predicate Retained(plan: Plan) {
    && ManagedOps(plan.ops) && Leased(plan.ops, plan.tag, plan.leases)
    && plan.journal.path == JournalPath
    && forall op :: op in plan.ops ==>
         op.before == match PlannedSeen(plan, op.path)
         case None => None
         case Some(s) => Some(s.content)
  }

  // ----- what one change may be -----

  /** The before-bytes are saved where nothing was. */
  predicate Saves(c: Change, op: Op, plan: Plan) {
    && op.path.Managed? && op.before.Some?
    && c.path == BackupOf(op.path, plan.tag) && c.prior == None && ContentIn(c.next) == op.before
  }

  /** The after-bytes replace exactly the bytes and identity planning saw. */
  predicate Applies(c: Change, op: Op, plan: Plan) {
    c.path == op.path && SeenIn(c.prior) == PlannedSeen(plan, op.path) && ContentIn(c.next) == op.after
  }

  ghost predicate SavedBy(log: seq<Change>, from: nat, to: nat, op: Op, plan: Plan)
    requires to <= |log|
  {
    exists m :: from <= m < to && Saves(log[m], op, plan)
  }

  /** This transaction applied `op`, and what it then put on disk is `seen`. */
  ghost predicate AppliedAs(log: seq<Change>, from: nat, to: nat, op: Op, plan: Plan, seen: Option<Seen>)
    requires to <= |log|
  {
    exists m :: from <= m < to && Applies(log[m], op, plan) && SeenIn(log[m].next) == seen
  }

  /** The change `n` saves `op`, applies it once it is saved, or undoes what was applied. */
  ghost predicate Serves(log: seq<Change>, from: nat, n: nat, op: Op, plan: Plan)
    requires n < |log|
  {
    || Saves(log[n], op, plan)
    || (Applies(log[n], op, plan) && (op.before.Some? ==> SavedBy(log, from, n, op, plan)))
    || (log[n].path == op.path && ContentIn(log[n].next) == op.before
        && AppliedAs(log, from, n, op, plan, SeenIn(log[n].prior)))
  }

  ghost predicate InPlan(log: seq<Change>, from: nat, n: nat, plan: Plan)
    requires n < |log|
  {
    log[n].path == JournalPath || exists op :: op in plan.ops && Changes(op) && Serves(log, from, n, op, plan)
  }

  ghost predicate AllPlanned(log: seq<Change>, from: nat, plan: Plan) {
    forall n :: from <= n < |log| ==> InPlan(log, from, n, plan)
  }

  lemma PlannedStays(log: seq<Change>, more: seq<Change>, from: nat, plan: Plan)
    requires AllPlanned(log, from, plan) && log <= more
    ensures forall n :: from <= n < |log| ==> InPlan(more, from, n, plan)
  {
    forall n | from <= n < |log| ensures InPlan(more, from, n, plan) {
      assert InPlan(log, from, n, plan) && more[n] == log[n];
      if log[n].path != JournalPath {
        var op :| op in plan.ops && Changes(op) && Serves(log, from, n, op, plan);
        ServesStays(log, more, from, n, op, plan);
      }
    }
  }

  lemma ServesStays(log: seq<Change>, more: seq<Change>, from: nat, n: nat, op: Op, plan: Plan)
    requires n < |log| && log <= more && Serves(log, from, n, op, plan)
    ensures Serves(more, from, n, op, plan)
  {
    assert more[n] == log[n];
    if Saves(log[n], op, plan) {
    } else if Applies(log[n], op, plan) && (op.before.Some? ==> SavedBy(log, from, n, op, plan)) {
      if op.before.Some? {
        var m :| from <= m < n && Saves(log[m], op, plan);
        assert Saves(more[m], op, plan);
      }
    } else {
      AppliedStays(log, more, from, n, op, plan, SeenIn(log[n].prior));
    }
  }

  lemma AppliedStays(log: seq<Change>, more: seq<Change>, from: nat, n: nat, op: Op, plan: Plan, seen: Option<Seen>)
    requires n <= |log| && log <= more && AppliedAs(log, from, n, op, plan, seen)
    ensures AppliedAs(more, from, n, op, plan, seen)
  {
    var m :| from <= m < n && Applies(log[m], op, plan) && SeenIn(log[m].next) == seen;
    assert more[m] == log[m];
  }

  // ----- one mutation -----

  /** The log gained one change through `l`, ending at the content `to`. */
  predicate Wrote(log: seq<Change>, more: seq<Change>, l: Lease, to: Option<Content>) {
    && |more| == |log| + 1 && log <= more
    && more[|log|].path == l.path && SeenIn(more[|log|].prior) == l.seen && ContentIn(more[|log|].next) == to
  }

  /** A step through `l` wrote at most once; if it succeeded, its lease is what it wrote. */
  predicate Through(w: World, s: Step, l: Lease, to: Option<Content>) {
    && s.lease.path == l.path
    && (s.w.log == w.log || Wrote(w.log, s.w.log, l, to))
    && (s.signal == Done ==>
          Wrote(w.log, s.w.log, l, to) && s.lease.seen == SeenIn(s.w.log[|w.log|].next))
  }

  lemma ReplaceThrough(w: World, l: Lease, content: Content)
    ensures Through(w, Replace(w, l, content), l, Some(content))
  {
  }

  lemma RemoveThrough(w: World, l: Lease)
    ensures Through(w, Remove(w, l), l, None)
  {
  }

  /** At most one change, and that to the journal. */
  predicate JournalOnly(w: World, s: Step) {
    && s.lease.path == JournalPath && w.log <= s.w.log && |s.w.log| <= |w.log| + 1
    && forall n :: |w.log| <= n < |s.w.log| ==> s.w.log[n].path == JournalPath
  }

  lemma ReplaceJournalOnly(w: World, journal: Lease, content: Content)
    requires journal.path == JournalPath
    ensures JournalOnly(w, Replace(w, journal, content))
  {
    ReplaceThrough(w, journal, content);
  }

  lemma MarkJournalOnly(w: World, journal: Lease, p: Path, state: PublicationState)
    requires journal.path == JournalPath
    ensures JournalOnly(w, SetState(w, journal, p, state))
  {
    match LeaseContent(journal)
    case Some(Encoded(j)) => ReplaceJournalOnly(w, journal, Encoded(MarkedJournal(j, p, state, None)));
    case _ =>
  }

  lemma ConfirmJournalOnly(w: World, journal: Lease, p: Path, published: Lease)
    requires journal.path == JournalPath
    ensures JournalOnly(w, Confirm(w, journal, p, published))
  {
    match LeaseContent(journal)
    case Some(Encoded(j)) =>
      var (s, fp) := FingerprintOf(w, published);
      assert s.w.log == w.log;
      ReplaceJournalOnly(w, journal, Encoded(j));
      ReplaceJournalOnly(s.w, journal, Encoded(MarkedJournal(j, p, Confirmed, fp)));
    case _ =>
  }

  lemma JournalIsPlanned(w: World, s: Step, from: nat, plan: Plan)
    requires AllPlanned(w.log, from, plan) && JournalOnly(w, s)
    ensures AllPlanned(s.w.log, from, plan)
  {
    PlannedStays(w.log, s.w.log, from, plan);
  }

  // ----- the invariant of a running transaction -----

  predicate Distinct(ops: seq<Op>) {
    forall i, j :: 0 <= i < j < |ops| ==> ops[i].path != ops[j].path
  }

  /** A written operation's lease is what this transaction put there. */
  ghost predicate Owned(t: Txn, op: Op, from: nat, plan: Plan) {
    && op in plan.ops && Changes(op) && op.path in t.leases
    && AppliedAs(t.w.log, from, |t.w.log|, op, plan, t.leases[op.path].seen)
  }

  ghost predicate Sane(t: Txn, from: nat, plan: Plan) {
    && from <= |t.w.log| && AllPlanned(t.w.log, from, plan) && t.journal.path == JournalPath
    && (forall p :: p in t.leases ==> t.leases[p].path == p)
  }

  /** Nothing has happened yet to the operations still to come. */
  predicate Ahead(t: Txn, ops: seq<Op>, plan: Plan) {
    && Distinct(ops)
    && (forall op :: op in ops ==>
          op in plan.ops && (if op.path in t.leases then t.leases[op.path].seen else None) == PlannedSeen(plan, op.path))
    && (forall op, done :: op in ops && done in t.written ==> op.path != done.path)
  }

  ghost predicate Written(t: Txn, from: nat, plan: Plan) {
    Distinct(t.written) && forall op :: op in t.written ==> Owned(t, op, from, plan)
  }

  lemma OneMorePlanned(log: seq<Change>, more: seq<Change>, from: nat, op: Op, plan: Plan)
    requires AllPlanned(log, from, plan) && log <= more && |more| == |log| + 1
    requires op in plan.ops && Changes(op) && Serves(more, from, |log|, op, plan)
    ensures AllPlanned(more, from, plan)
  {
    PlannedStays(log, more, from, plan);
    assert InPlan(more, from, |log|, plan);
  }

  // ----- apply -----

  /** `t1` is `t` after some of `op`'s steps: only its own two leases changed. */
  ghost predicate Advances(t: Txn, t1: Txn, op: Op, from: nat, plan: Plan) {
    && Sane(t1, from, plan) && t.w.log <= t1.w.log && t1.written == t.written
    && forall p: Path :: p.Managed? && p != op.path ==>
         (p in t1.leases <==> p in t.leases) && (p in t.leases ==> t1.leases[p] == t.leases[p])
  }

  /** Publishing the after-bytes is planned, once they are saved if there were any before. */
  lemma PublishingApplies(w: World, s: Step, l: Lease, op: Op, from: nat, plan: Plan)
    requires from <= |w.log| && AllPlanned(w.log, from, plan) && Through(w, s, l, op.after)
    requires op in plan.ops && Changes(op) && l.path == op.path && l.seen == PlannedSeen(plan, op.path)
    requires op.before.Some? ==> SavedBy(w.log, from, |w.log|, op, plan)
    ensures w.log <= s.w.log && AllPlanned(s.w.log, from, plan)
    ensures s.signal == Done ==> AppliedAs(s.w.log, from, |s.w.log|, op, plan, s.lease.seen)
  {
    if s.w.log != w.log {
      var n := |w.log|;
      if op.before.Some? {
        var m :| from <= m < n && Saves(w.log[m], op, plan);
        assert Saves(s.w.log[m], op, plan);
      }
      assert Applies(s.w.log[n], op, plan);
      OneMorePlanned(w.log, s.w.log, from, op, plan);
    }
  }

  lemma PublishCreatePlanned(t: Txn, l: Lease, op: Op, from: nat, plan: Plan)
    requires Sane(t, from, plan) && op in plan.ops && Changes(op) && op.before.None?
    requires l.path == op.path && l.seen == PlannedSeen(plan, op.path)
    ensures var (t1, signal) := PublishCreate(t, l, op.after.value);
      Advances(t, t1, op, from, plan) && (signal == Done ==> Owned(t1, op, from, plan))
  {
    var r := Replace(t.w, l, op.after.value);
    ReplaceThrough(t.w, l, op.after.value);
    PublishingApplies(t.w, r, l, op, from, plan);
    if r.signal == Done {
      var c := Confirm(r.w, t.journal, op.path, r.lease);
      ConfirmJournalOnly(r.w, t.journal, op.path, r.lease);
      JournalIsPlanned(r.w, c, from, plan);
      AppliedLater(r.w.log, c.w.log, from, op, plan, r.lease.seen);
    }
  }

  lemma AppliedLater(log: seq<Change>, more: seq<Change>, from: nat, op: Op, plan: Plan, seen: Option<Seen>)
    requires log <= more && AppliedAs(log, from, |log|, op, plan, seen)
    ensures AppliedAs(more, from, |more|, op, plan, seen)
  {
    AppliedStays(log, more, from, |log|, op, plan, seen);
    var m :| from <= m < |log| && Applies(more[m], op, plan) && SeenIn(more[m].next) == seen;
  }

  lemma ApplyCreatePlanned(t: Txn, op: Op, from: nat, plan: Plan)
    requires Sane(t, from, plan) && Retained(plan) && op in plan.ops && Changes(op) && op.before.None?
    requires (if op.path in t.leases then t.leases[op.path].seen else None) == PlannedSeen(plan, op.path)
    ensures var (t1, signal) := ApplyCreate(t, op.path, op.after.value);
      Advances(t, t1, op, from, plan) && (signal == Done ==> Owned(t1, op, from, plan))
  {
    var s := LeaseForCreate(t, op.path);
    if s.signal == Done {
      assert s.w.log == t.w.log && s.lease.path == op.path && s.lease.seen == None;
      var t0 := t.(w := s.w);
      var m := SetState(s.w, t0.journal, op.path, Attempted);
      MarkJournalOnly(s.w, t0.journal, op.path, Attempted);
      JournalIsPlanned(s.w, m, from, plan);
      var t1 := t0.(w := m.w, journal := m.lease, leases := t0.leases[op.path := s.lease]);
      if m.signal == Done {
        PublishCreatePlanned(t1, s.lease, op, from, plan);
      }
    }
  }

  /** The backup step: the before-bytes go where the lease saw nothing. */
  lemma SavePlanned(t: Txn, op: Op, from: nat, plan: Plan)
    requires Sane(t, from, plan) && Retained(plan) && op in plan.ops && Changes(op) && op.before.Some?
    requires BackupOf(op.path, plan.tag) in t.leases && t.leases[BackupOf(op.path, plan.tag)].seen == None
    ensures var (t1, signal) := Publish(t, BackupOf(op.path, plan.tag), op.before);
      && Advances(t, t1, op, from, plan) && t1.leases.Keys == t.leases.Keys
      && (op.path in t.leases ==> t1.leases[op.path] == t.leases[op.path])
      && (signal == Done ==> SavedBy(t1.w.log, from, |t1.w.log|, op, plan))
  {
    var l := t.leases[BackupOf(op.path, plan.tag)];
    var s := Replace(t.w, l, op.before.value);
    ReplaceThrough(t.w, l, op.before.value);
    if s.w.log != t.w.log {
      assert Saves(s.w.log[|t.w.log|], op, plan);
      OneMorePlanned(t.w.log, s.w.log, from, op, plan);
    }
  }

  lemma ApplyChangePlanned(t: Txn, op: Op, from: nat, plan: Plan)
    requires Sane(t, from, plan) && Retained(plan) && op in plan.ops && Changes(op) && op.before.Some?
    requires BackupOf(op.path, plan.tag) in t.leases
    requires op.path in t.leases && t.leases[op.path].seen == PlannedSeen(plan, op.path)
    ensures var (t1, signal) := ApplyChange(t, op.path, BackupOf(op.path, plan.tag), op.before.value, op.after);
      Advances(t, t1, op, from, plan) && (signal == Done ==> Owned(t1, op, from, plan))
  {
    var backup := BackupOf(op.path, plan.tag);
    if t.leases[backup].seen.None? {
      SavePlanned(t, op, from, plan);
      var (t1, signal) := Publish(t, backup, op.before);
      if signal == Done {
        var l := t1.leases[op.path];
        if op.after.Some? {
          ReplaceThrough(t1.w, l, op.after.value);
          PublishingApplies(t1.w, Replace(t1.w, l, op.after.value), l, op, from, plan);
        } else {
          RemoveThrough(t1.w, l);
          PublishingApplies(t1.w, Remove(t1.w, l), l, op, from, plan);
        }
      }
    }
  }

  lemma EffectPlanned(t: Txn, op: Op, from: nat, plan: Plan)
    requires Sane(t, from, plan) && Retained(plan) && op in plan.ops && Changes(op)
    requires op.before.Some? ==> op.path in t.leases && BackupOf(op.path, plan.tag) in t.leases
    requires (if op.path in t.leases then t.leases[op.path].seen else None) == PlannedSeen(plan, op.path)
    ensures var (t1, signal) := ApplyEffect(t, op, plan.tag);
      Advances(t, t1, op, from, plan) && (signal == Done ==> Owned(t1, op, from, plan))
  {
    if op.before.None? {
      ApplyCreatePlanned(t, op, from, plan);
    } else {
      ApplyChangePlanned(t, op, from, plan);
    }
  }

  lemma OwnedStays(t: Txn, t1: Txn, op: Op, done: Op, from: nat, plan: Plan)
    requires Retained(plan) && Owned(t, done, from, plan) && Advances(t, t1, op, from, plan) && done.path != op.path
    ensures Owned(t1, done, from, plan)
  {
    AppliedLater(t.w.log, t1.w.log, from, done, plan, t.leases[done.path].seen);
  }

  lemma AheadStays(t: Txn, t1: Txn, ops: seq<Op>, from: nat, plan: Plan)
    requires Retained(plan) && ops != [] && Ahead(t, ops, plan) && Advances(t, t1, ops[0], from, plan)
    ensures Ahead(t1, ops[1..], plan) && Ahead(t1.(written := t1.written + [ops[0]]), ops[1..], plan)
  {
    var rest := ops[1..];
    forall op | op in rest ensures op in plan.ops && op.path != ops[0].path && op.path.Managed? {
      var i :| 0 <= i < |rest| && rest[i] == op;
      assert ops[i + 1] == op;
    }
  }

  lemma ApplyOnePlanned(t: Txn, ops: seq<Op>, from: nat, plan: Plan)
    requires Retained(plan) && ops != [] && ops[0].path.Managed?
    requires ops[0].before.Some? ==> ops[0].path in t.leases && BackupOf(ops[0].path, plan.tag) in t.leases
    requires Sane(t, from, plan) && Written(t, from, plan) && Ahead(t, ops, plan)
    ensures var (t1, signal) := ApplyOne(t, ops[0], plan.tag);
      && Sane(t1, from, plan) && Written(t1, from, plan) && t.w.log <= t1.w.log
      && (signal == Done ==> Ahead(t1, ops[1..], plan))
  {
    var op := ops[0];
    if Changes(op) {
      EffectPlanned(t, op, from, plan);
      var (t0, signal) := ApplyEffect(t, op, plan.tag);
      forall done | done in t.written ensures Owned(t0, done, from, plan) {
        OwnedStays(t, t0, op, done, from, plan);
      }
      AheadStays(t, t0, ops, from, plan);
    } else {
      AheadStays(t, t, ops, from, plan);
    }
  }

  lemma {:induction false} ApplyAllPlanned(t: Txn, ops: seq<Op>, from: nat, plan: Plan)
    requires Retained(plan) && (forall op :: op in ops ==> op.path.Managed?) && HasLeases(ops, plan.tag, t.leases)
    requires Sane(t, from, plan) && Written(t, from, plan) && Ahead(t, ops, plan)
    ensures var t1 := ApplyAll(t, ops, plan.tag).0;
      Sane(t1, from, plan) && Written(t1, from, plan) && t.w.log <= t1.w.log
    decreases |ops|
  {
    if ops == [] {
    } else {
      ApplyOnePlanned(t, ops, from, plan);
      var (t1, signal) := ApplyOne(t, ops[0], plan.tag);
      if signal == Done {
        ApplyAllPlanned(t1, ops[1..], from, plan);
      }
    }
  }

  // ----- rollback -----

  /** Undoing puts the before-bytes back over what this transaction itself published. */
  lemma UndoingServes(w: World, s: Step, l: Lease, op: Op, from: nat, plan: Plan)
    requires from <= |w.log| && AllPlanned(w.log, from, plan) && Through(w, s, l, op.before)
    requires op in plan.ops && Changes(op) && l.path == op.path
    requires AppliedAs(w.log, from, |w.log|, op, plan, l.seen)
    ensures w.log <= s.w.log && AllPlanned(s.w.log, from, plan)
  {
    if s.w.log != w.log {
      AppliedStays(w.log, s.w.log, from, |w.log|, op, plan, l.seen);
      OneMorePlanned(w.log, s.w.log, from, op, plan);
    }
  }

  lemma UndoPlanned(w: World, l: Lease, op: Op, from: nat, plan: Plan)
    requires from <= |w.log| && AllPlanned(w.log, from, plan) && op in plan.ops && Changes(op) && l.path == op.path
    requires AppliedAs(w.log, from, |w.log|, op, plan, l.seen)
    ensures var s := match op.before
      case None => Remove(w, l)
      case Some(b) => Replace(w, l, b);
      s.lease.path == op.path && w.log <= s.w.log && AllPlanned(s.w.log, from, plan)
  {
    match op.before {
      case None =>
        RemoveThrough(w, l);
        UndoingServes(w, Remove(w, l), l, op, from, plan);
      case Some(b) =>
        ReplaceThrough(w, l, b);
        UndoingServes(w, Replace(w, l, b), l, op, from, plan);
    }
  }

  lemma RollBackOnePlanned(t: Txn, op: Op, from: nat, plan: Plan)
    requires Sane(t, from, plan) && Owned(t, op, from, plan)
    ensures Advances(t, RollBackOne(t, op).0, op, from, plan)
  {
    var m := if op.before.None? then SetState(t.w, t.journal, op.path, Revoked) else Step(t.w, t.journal, Done);
    MarkJournalOnly(t.w, t.journal, op.path, Revoked);
    JournalIsPlanned(t.w, m, from, plan);
    var l := t.leases[op.path];
    AppliedLater(t.w.log, m.w.log, from, op, plan, l.seen);
    if m.signal == Done {
      var w := AssertCurrent(m.w, l).w;
      assert w.log == m.w.log;
      UndoPlanned(w, l, op, from, plan);
    }
  }

  lemma {:induction false} RollBackAllPlanned(t: Txn, ops: seq<Op>, from: nat, plan: Plan)
    requires Retained(plan) && Sane(t, from, plan) && Distinct(ops)
    requires forall op :: op in ops ==> Owned(t, op, from, plan)
    ensures (forall op :: op in ops ==> op.path in t.leases)
      && var t1 := RollBackAll(t, ops).0;
      Sane(t1, from, plan) && t.w.log <= t1.w.log
    decreases |ops|
  {
    if ops == [] {
    } else {
      RollBackOnePlanned(t, ops[0], from, plan);
      var (t1, undone, dead) := RollBackOne(t, ops[0]);
      if !dead {
        forall op | op in ops[1..] ensures Owned(t1, op, from, plan) {
          OwnedStays(t, t1, ops[0], op, from, plan);
        }
        RollBackAllPlanned(t1, ops[1..], from, plan);
      }
    }
  }

  lemma ProceedPlanned(t: Txn, ops: seq<Op>, from: nat, plan: Plan)
    requires Retained(plan) && (forall op :: op in ops ==> op.path.Managed?) && HasLeases(ops, plan.tag, t.leases)
    requires Sane(t, from, plan) && t.written == [] && Ahead(t, ops, plan)
    ensures var w1 := Proceed(t, ops, plan.tag).0;
      t.w.log <= w1.log && AllPlanned(w1.log, from, plan)
  {
    ApplyAllPlanned(t, ops, from, plan);
    var (t1, signal) := ApplyAll(t, ops, plan.tag);
    match signal {
      case Crashed =>
      case Done =>
        var s := Remove(t1.w, t1.journal);
        RemoveThrough(t1.w, t1.journal);
        JournalIsPlanned(t1.w, s, from, plan);
      case Raised => RollBackAllPlanned(t1, t1.written, from, plan);
    }
  }

  // ----- main results -----

  /** Whatever outsiders do between our steps, and wherever the transaction crashes, fails
      or rolls back: its first change creates the planned journal, and every change is to
      the journal, saves before-bytes where nothing was, applies an operation to exactly
      what planning saw once its before-bytes are saved, or undoes what it applied itself. */
  lemma RunIsPlanned(w: World, plan: Plan)
    requires Retained(plan)
    ensures var w1 := Run(w, plan).0;
      && w.log <= w1.log && AllPlanned(w1.log, |w.log|, plan)
      && (w1.log != w.log ==>
            var first := w1.log[|w.log|];
            first.path == JournalPath && first.prior == None
            && ContentIn(first.next) == Some(Encoded(JournalFor(plan))))
  {
    if plan.journal.seen.None? {
      var b := Begin(w, plan);
      ReplaceThrough(w, plan.journal, Encoded(JournalFor(plan)));
      JournalIsPlanned(w, b, |w.log|, plan);
      if b.signal == Done {
        var t := Txn(b.w, b.lease, plan.leases, []);
        ProceedPlanned(t, plan.ops, |w.log|, plan);
      }
    }
  }

  /** One planned operation, from its before-bytes to its after-bytes or back. */
  predicate Moves(c: Change, op: Op) {
    && c.path == op.path
    && ((ContentIn(c.prior) == op.before && ContentIn(c.next) == op.after)
        || (ContentIn(c.prior) == op.after && ContentIn(c.next) == op.before))
  }

  /** So no bytes but planned ones are ever overwritten or removed: a managed file moves only
      between one operation's before-bytes and after-bytes, and a backup is only created. */
  lemma NoForeignBytesLost(w: World, plan: Plan, n: nat)
    requires Retained(plan) && |w.log| <= n < |Run(w, plan).0.log|
    ensures var c := Run(w, plan).0.log[n];
      c.path == JournalPath
      || exists op :: op in plan.ops && Changes(op) && (Moves(c, op) || Saves(c, op, plan))
  {
    RunIsPlanned(w, plan);
    var log := Run(w, plan).0.log;
    assert InPlan(log, |w.log|, n, plan);
    if log[n].path != JournalPath {
      var op :| op in plan.ops && Changes(op) && Serves(log, |w.log|, n, op, plan);
      ServingMoves(log, |w.log|, n, op, plan);
    }
  }

  lemma ServingMoves(log: seq<Change>, from: nat, n: nat, op: Op, plan: Plan)
    requires n < |log| && Retained(plan) && op in plan.ops && Serves(log, from, n, op, plan)
    ensures Moves(log[n], op) || Saves(log[n], op, plan)
  {
    if log[n].path == op.path && AppliedAs(log, from, n, op, plan, SeenIn(log[n].prior)) {
      var m :| from <= m < n && Applies(log[m], op, plan) && SeenIn(log[m].next) == SeenIn(log[n].prior);
      SameSeenSameContent(log[m].next, log[n].prior);
    }
  }

  lemma SameSeenSameContent(a: Option<Node>, b: Option<Node>)
    requires SeenIn(a) == SeenIn(b)
    ensures ContentIn(a) == ContentIn(b)
  {
  }
}
