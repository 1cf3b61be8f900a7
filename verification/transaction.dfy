/** Install and remove as one multi-file transaction: journal, apply, and either
    complete or roll back. */
module Transaction {
  import opened Options
  import opened ConfinedIo
  import opened TransactionJournal

  /** A frozen plan: its operations and the leases retained since they were planned. */
  datatype Plan = Plan(
    ops: seq<Op>, operation: string, tag: string, journal: Lease, leases: map<Path, Lease>)

  /** The running transaction: the journal lease, the file leases, and what was written. */
  datatype Txn = Txn(w: World, journal: Lease, leases: map<Path, Lease>, written: seq<Op>)

  datatype Ended =
    | Completed                       // every operation applied, journal removed
    | JournalKept                     // applied, but the journal could not be removed
    | RolledBack(unresolved: seq<Path>)
    | Dead                            // the process died

  predicate ManagedOps(ops: seq<Op>) {
    && (forall op :: op in ops ==> op.path.Managed?)
    && (forall i, j :: 0 <= i < j < |ops| ==> ops[i].path != ops[j].path)
  }

  /** Every file that exists before is leased, and so is its backup destination. */
  predicate Leased(ops: seq<Op>, tag: string, leases: map<Path, Lease>)
    requires ManagedOps(ops)
  {
    && (forall p :: p in leases ==> leases[p].path == p)
    && (forall op :: op in ops && op.before.Some? ==> op.path in leases && BackupOf(op.path, tag) in leases)
  }

  function Changing(ops: seq<Op>): (r: seq<Op>)
    ensures forall op :: op in r <==> op in ops && Changes(op)
  {
    if ops == [] then []
    else if Changes(ops[0]) then [ops[0]] + Changing(ops[1..])
    else Changing(ops[1..])
  }

  function JournalFor(plan: Plan): Journal
    requires ManagedOps(plan.ops)
  {
    Journal(2, plan.operation, plan.tag, EntriesFor(Changing(plan.ops), plan.tag))
  }

  /** Write the journal, unless one appeared since planning. */
  function Begin(w: World, plan: Plan): Step
    requires ManagedOps(plan.ops)
  {
    if plan.journal.seen.Some? then Step(w, plan.journal, Raised)
    else Replace(w, plan.journal, Encoded(JournalFor(plan)))
  }

  // ----- apply -----

  /** A create without a retained lease is leased now, and must still be absent. */
  function LeaseForCreate(t: Txn, p: Path): Step {
    if p in t.leases then Step(t.w, t.leases[p], Done)
    else
      var s := Open(t.w, p);
      if s.signal == Done && s.lease.seen.Some? then s.(signal := Raised) else s
  }

  /** Publish a create under its lease, then confirm it in the journal. */
  function PublishCreate(t: Txn, lease: Lease, after: Content): (Txn, Signal) {
    var r := Replace(t.w, lease, after);
    var t1 := t.(w := r.w, leases := t.leases[lease.path := r.lease]);
    if r.signal != Done then (t1, r.signal)
    else
      var c := Confirm(t1.w, t1.journal, lease.path, r.lease);
      (t1.(w := c.w, journal := c.lease), c.signal)
  }

  /** Announce the attempt in the journal before anything is published. */
  function AttemptCreate(t: Txn, lease: Lease, after: Content): (Txn, Signal) {
    var m := SetState(t.w, t.journal, lease.path, Attempted);
    var t1 := t.(w := m.w, journal := m.lease, leases := t.leases[lease.path := lease]);
    if m.signal != Done then (t1, m.signal) else PublishCreate(t1, lease, after)
  }

  /** planned -> attempted -> published -> confirmed: separate durable steps. */
  function ApplyCreate(t: Txn, p: Path, after: Content): (Txn, Signal) {
    var s := LeaseForCreate(t, p);
    if s.signal != Done then (t.(w := s.w), s.signal) else AttemptCreate(t.(w := s.w), s.lease, after)
  }

  /** Replace or remove a leased file. */
  function Publish(t: Txn, p: Path, after: Option<Content>): (Txn, Signal)
    requires p in t.leases
  {
    var r := match after
      case None => Remove(t.w, t.leases[p])
      case Some(a) => Replace(t.w, t.leases[p], a);
    (t.(w := r.w, leases := t.leases[p := r.lease]), r.signal)
  }

  /** Back up, then replace or remove. */
  function ApplyChange(t: Txn, p: Path, backup: Path, before: Content, after: Option<Content>): (Txn, Signal)
    requires p in t.leases && backup in t.leases
  {
    if t.leases[backup].seen.Some? then (t, Raised)
    else
      var (t1, signal) := Publish(t, backup, Some(before));
      if signal != Done then (t1, signal) else Publish(t1, p, after)
  }

  function ApplyEffect(t: Txn, op: Op, tag: string): (r: (Txn, Signal))
    requires op.path.Managed? && Changes(op)
    requires op.before.Some? ==> op.path in t.leases && BackupOf(op.path, tag) in t.leases
    ensures t.leases.Keys <= r.0.leases.Keys
  {
    match op.before
    case None => ApplyCreate(t, op.path, op.after.value)
    case Some(b) => ApplyChange(t, op.path, BackupOf(op.path, tag), b, op.after)
  }

  function ApplyOne(t: Txn, op: Op, tag: string): (r: (Txn, Signal))
    requires op.path.Managed?
    requires op.before.Some? ==> op.path in t.leases && BackupOf(op.path, tag) in t.leases
    ensures t.leases.Keys <= r.0.leases.Keys
  {
    if !Changes(op) then (t, Done)
    else
      var (t1, signal) := ApplyEffect(t, op, tag);
      (if signal == Done then t1.(written := t1.written + [op]) else t1, signal)
  }

  predicate HasLeases(ops: seq<Op>, tag: string, leases: map<Path, Lease>)
    requires forall op :: op in ops ==> op.path.Managed?
  {
    forall op :: op in ops && op.before.Some? ==> op.path in leases && BackupOf(op.path, tag) in leases
  }

  function ApplyAll(t: Txn, ops: seq<Op>, tag: string): (Txn, Signal)
    requires (forall op :: op in ops ==> op.path.Managed?) && HasLeases(ops, tag, t.leases)
    decreases |ops|
  {
    if ops == [] then (t, Done)
    else
      var (t1, signal) := ApplyOne(t, ops[0], tag);
      if signal != Done then (t1, signal) else ApplyAll(t1, ops[1..], tag)
  }

  // ----- rollback -----

  /** Take a target back from its after-bytes, if that is still what its lease retains. */
  function Undo(t: Txn, op: Op): (Txn, bool, bool)
    requires op.path in t.leases
  {
    var l := t.leases[op.path];
    var a := AssertCurrent(t.w, l);
    var t1 := t.(w := a.w);
    if a.signal != Done then (t1, false, a.signal == Crashed)
    else if LeaseContent(l) != op.after then (t1, LeaseContent(l) == op.before, false)
    else if op.before.None? && op.path !in t1.w.disk.files then (t1, true, false)
    else
      var s := match op.before
        case None => Remove(t1.w, l)
        case Some(b) => Replace(t1.w, l, b);
      (t1.(w := s.w, leases := t1.leases[op.path := s.lease]), s.signal == Done, s.signal == Crashed)
  }

  /** Undo one written operation; `false` leaves its path unresolved. */
  function RollBackOne(t: Txn, op: Op): (Txn, bool, bool)
    requires op.path in t.leases
  {
    var m := if op.before.None? then SetState(t.w, t.journal, op.path, Revoked)
             else Step(t.w, t.journal, Done);
    var t1 := t.(w := m.w, journal := m.lease);
    if m.signal != Done then (t1, false, m.signal == Crashed) else Undo(t1, op)
  }

  function RollBackAll(t: Txn, ops: seq<Op>): (Txn, seq<Path>, bool)
    requires forall op :: op in ops ==> op.path in t.leases
    decreases |ops|
  {
    if ops == [] then (t, [], false)
    else
      var (t1, undone, dead) := RollBackOne(t, ops[0]);
      if dead then (t1, [], true)
      else
        var (t2, rest, dead2) := RollBackAll(t1, ops[1..]);
        (t2, if undone then rest else [ops[0].path] + rest, dead2)
  }

  // ----- the whole transaction -----

  function Complete(w: World, journal: Lease): (World, Ended) {
    var s := Remove(w, journal);
    (s.w, match s.signal
          case Done => Completed
          case Raised => JournalKept
          case Crashed => Dead)
  }

  lemma {:induction false} WrittenIsLeased(t: Txn, ops: seq<Op>, tag: string)
    requires (forall op :: op in ops ==> op.path.Managed?) && HasLeases(ops, tag, t.leases)
    requires forall op :: op in t.written ==> op.path in t.leases
    ensures var t1 := ApplyAll(t, ops, tag).0;
      forall op :: op in t1.written ==> op.path in t1.leases
    decreases |ops|
  {
    if ops == [] {
    } else {
      var (t1, signal) := ApplyOne(t, ops[0], tag);
      if signal == Done {
        WrittenIsLeased(t1, ops[1..], tag);
      }
    }
  }

  /** Apply, then complete or roll back. */
  function Proceed(t: Txn, ops: seq<Op>, tag: string): (World, Ended)
    requires (forall op :: op in ops ==> op.path.Managed?) && HasLeases(ops, tag, t.leases) && t.written == []
  {
    var (t1, signal) := ApplyAll(t, ops, tag);
    match signal
    case Crashed => (t1.w, Dead)
    case Done => Complete(t1.w, t1.journal)
    case Raised =>
      WrittenIsLeased(t, ops, tag);
      var (t2, unresolved, dead) := RollBackAll(t1, t1.written);
      (t2.w, if dead then Dead else RolledBack(unresolved))
  }

  function Run(w: World, plan: Plan): (World, Ended)
    requires ManagedOps(plan.ops) && Leased(plan.ops, plan.tag, plan.leases)
  {
    var b := Begin(w, plan);
    if b.signal == Crashed then (b.w, Dead)
    else if b.signal == Raised then (b.w, RolledBack([]))
    else Proceed(Txn(b.w, b.lease, plan.leases, []), plan.ops, plan.tag)
  }
}
