/** What each step of the transaction keeps, on disk and in its journal, without outsiders. */
module TransactionSafety {
  import opened Options
  import opened ConfinedIo
  import opened TransactionJournal
  import opened Transaction
  import opened RecoverySafety

  // ----- plans -----

  /** What planning establishes: every operation's before-bytes were read from this disk,
      no backup destination and no journal exists yet, and something changes. */
  predicate PlannedOn(plan: Plan, d: Disk) {
    && ManagedOps(plan.ops) && Leased(plan.ops, plan.tag, plan.leases)
    && plan.operation in {"install", "remove"} && plan.tag != ""
    && plan.journal.path == JournalPath && JournalPath !in d.files
    && Changing(plan.ops) != []
    && forall op :: op in plan.ops ==>
         ContentAt(d.files, op.path) == op.before && BackupOf(op.path, plan.tag) !in d.files
  }

  /** The retained leases still describe this disk. */
  predicate FreshPlan(plan: Plan, d: Disk) {
    && Current(d, plan.journal)
    && forall p :: p in plan.leases ==> plan.leases[p].path == p && Current(d, plan.leases[p])
  }

  lemma {:induction false} ChangingDistinct(ops: seq<Op>)
    requires ManagedOps(ops)
    ensures ManagedOps(Changing(ops))
  {
    if ops == [] {
    } else {
      forall i, j | 0 <= i < j < |ops[1..]| ensures ops[1..][i].path != ops[1..][j].path {
        assert ops[i + 1].path != ops[j + 1].path;
      }
      ChangingDistinct(ops[1..]);
      forall op | op in Changing(ops[1..]) ensures op.path != ops[0].path {
        var k :| 0 <= k < |ops[1..]| && ops[1..][k] == op;
        assert ops[k + 1].path != ops[0].path;
      }
    }
  }

  /** Unchanged operations are skipped, so only the changing ones matter. */
  lemma {:induction false} ApplySkipsUnchanged(t: Txn, ops: seq<Op>, tag: string)
    requires (forall op :: op in ops ==> op.path.Managed?) && HasLeases(ops, tag, t.leases)
    ensures HasLeases(Changing(ops), tag, t.leases)
    ensures ApplyAll(t, ops, tag) == ApplyAll(t, Changing(ops), tag)
    decreases |ops|
  {
    if ops == [] {
    } else {
      var (t1, signal) := ApplyOne(t, ops[0], tag);
      if signal == Done {
        ApplySkipsUnchanged(t1, ops[1..], tag);
      }
      if Changes(ops[0]) {
        assert Changing(ops)[1..] == Changing(ops[1..]);
      }
    }
  }

  // ----- the state of one operation on disk -----

  predicate Matches(e: Entry, op: Op, tag: string) {
    op.path.Managed? && e == EntryFor(op, tag).(provenance := e.provenance)
  }

  predicate Untouched(files: map<Path, Node>, op: Op, e: Entry, tag: string) {
    && Matches(e, op, tag) && e == EntryFor(op, tag)
    && ContentAt(files, op.path) == op.before && BackupOf(op.path, tag) !in files
  }

  predicate Finished(files: map<Path, Node>, op: Op, e: Entry, tag: string) {
    Matches(e, op, tag) && ContentAt(files, op.path) == op.after && AtAfter(files, e)
  }

  predicate SoundOp(files: map<Path, Node>, op: Op, e: Entry, tag: string) {
    Matches(e, op, tag) && Sound(files, e)
  }

  predicate UndoneOp(files: map<Path, Node>, op: Op, e: Entry, tag: string) {
    Matches(e, op, tag) && ContentAt(files, op.path) == op.before && AtBefore(files, e)
  }

  lemma StagesAreSound(files: map<Path, Node>, op: Op, e: Entry, tag: string)
    requires Changes(op)
    ensures Untouched(files, op, e, tag) ==> UndoneOp(files, op, e, tag)
    ensures UndoneOp(files, op, e, tag) || Finished(files, op, e, tag) ==> SoundOp(files, op, e, tag)
  {
  }

  /** A step about operation `k`: it may write the journal, its target and its backup,
      and of the journal it may change only entry `k`. */
  ghost predicate Local(d: Disk, d1: Disk, j: Journal, j1: Journal, k: nat) {
    && k < |j.entries| && JournalOn(d1, j1) && SameTargets(j, j1)
    && (forall i :: 0 <= i < |j.entries| && i != k ==> j1.entries[i] == j.entries[i])
    && (forall q :: q != JournalPath && q != j.entries[k].path && Some(q) != j.entries[k].backup
          ==> NodeAt(d1, q) == NodeAt(d, q))
  }

  lemma LocalTransitive(d: Disk, d1: Disk, d2: Disk, j: Journal, j1: Journal, j2: Journal, k: nat)
    requires Local(d, d1, j, j1, k) && Local(d1, d2, j1, j2, k)
    ensures Local(d, d2, j, j2, k)
  {
    assert j1.entries[k].path == j.entries[k].path && j1.entries[k].backup == j.entries[k].backup;
  }

  lemma LocalFrame(d: Disk, d1: Disk, j: Journal, j1: Journal, k: nat, i: nat, op: Op, tag: string)
    requires Decodes(j) && j.tag == tag && Local(d, d1, j, j1, k) && i < |j.entries| && i != k
    requires Matches(j.entries[i], op, tag)
    ensures Untouched(d.files, op, j.entries[i], tag) ==> Untouched(d1.files, op, j1.entries[i], tag)
    ensures Finished(d.files, op, j.entries[i], tag) ==> Finished(d1.files, op, j1.entries[i], tag)
    ensures SoundOp(d.files, op, j.entries[i], tag) ==> SoundOp(d1.files, op, j1.entries[i], tag)
    ensures UndoneOp(d.files, op, j.entries[i], tag) ==> UndoneOp(d1.files, op, j1.entries[i], tag)
    ensures Exposed(d1.files, j1.entries[i]) ==> Exposed(d.files, j.entries[i])
    ensures ContentAt(d1.files, op.path) == ContentAt(d.files, op.path)
  {
    var e := j.entries[i];
    assert EntryDecodes(j, e) && EntryDecodes(j, j.entries[k]);
    assert NodeAt(d1, e.path) == NodeAt(d, e.path);
    var b := BackupOf(e.path, tag);
    assert NodeAt(d1, b) == NodeAt(d, b);
  }

  // ----- one operation, step by step -----

  /** Under a lease that no longer holds the journal on disk, nothing is confirmed. */
  lemma ConfirmStale(w: World, l: Lease, j: Journal, path: Path, published: Lease)
    requires Quiet(w) && JournalOn(w.disk, j) && l.path == JournalPath && LeaseContent(l) != Some(Encoded(j))
    ensures var s := Confirm(w, l, path, published);
      Quiet(s.w) && s.lease.path == JournalPath && s.w.disk == w.disk && s.signal != Done
  {
    if LeaseContent(l).Some? && LeaseContent(l).value.Encoded? {
      var seen := LeaseContent(l).value.journal;
      QuietTick(w);
      var (s, fp) := FingerprintOf(w, published);
      QuietReplace(w, l, Encoded(seen));
      QuietReplace(s.w, l, Encoded(MarkedJournal(seen, path, Confirmed, fp)));
    }
  }

  lemma ConfirmQuiet(w: World, l: Lease, j: Journal, k: nat, published: Lease) returns (j1: Journal)
    requires Quiet(w) && JournalOn(w.disk, j) && l.path == JournalPath && j.schema == 2
    requires k < |j.entries| && j.entries[k].before.None? && IdentityOf(j.entries[k].provenance).None?
    requires published.path == j.entries[k].path
    ensures var s := Confirm(w, l, j.entries[k].path, published);
      && Quiet(s.w) && s.lease.path == JournalPath && SameElsewhere(w.disk, s.w.disk, JournalPath)
      && ((s.w.disk == w.disk && j1 == j) ||
          (Local(w.disk, s.w.disk, j, j1, k) && AtAfter(s.w.disk.files, j1.entries[k])))
      && (s.signal == Done ==> s.w.disk != w.disk && Current(s.w.disk, s.lease))
      && (s.signal == Crashed ==> s.w.disk == w.disk)
  {
    j1 := j;
    var path := j.entries[k].path;
    if LeaseContent(l) != Some(Encoded(j)) {
      ConfirmStale(w, l, j, path, published);
    } else {
      FindEntryAt(j.entries, k);
      QuietTick(w);
      var (s, fp) := FingerprintOf(w, published);
      assert EntryDecodes(j, j.entries[k]);
      if s.signal == Done && DigestOf(LeaseContent(published)) == j.entries[k].after {
        QuietReplace(s.w, l, Encoded(MarkedJournal(j, path, Confirmed, fp)));
        MarkDecodes(j, k, Confirmed, fp);
        var r := Replace(s.w, l, Encoded(MarkedJournal(j, path, Confirmed, fp)));
        if r.w.disk != w.disk {
          j1 := MarkedJournal(j, path, Confirmed, fp);
          assert NodeAt(r.w.disk, path) == NodeAt(w.disk, path);
          assert IsConfirmed(j1.entries[k].provenance);
        }
      }
    }
  }

  predicate WellLeased(t: Txn) {
    t.journal.path == JournalPath && forall p :: p in t.leases ==> t.leases[p].path == p
  }

  lemma LocalRefl(d: Disk, j: Journal, k: nat)
    requires JournalOn(d, j) && k < |j.entries|
    ensures Local(d, d, j, j, k)
  {
  }

  lemma PublishCreateQuiet(t: Txn, l: Lease, j: Journal, k: nat, op: Op, tag: string) returns (j1: Journal)
    requires Quiet(t.w) && JournalOn(t.w.disk, j) && j.schema == 2 && WellLeased(t)
    requires k < |j.entries| && Changes(op) && op.before.None? && l.path == op.path
    requires UndoneOp(t.w.disk.files, op, j.entries[k], tag) && IdentityOf(j.entries[k].provenance).None?
    ensures var (t1, signal) := PublishCreate(t, l, op.after.value);
      && Quiet(t1.w) && WellLeased(t1) && t1.written == t.written && t.leases.Keys <= t1.leases.Keys
      && Local(t.w.disk, t1.w.disk, j, j1, k) && SoundOp(t1.w.disk.files, op, j1.entries[k], tag)
      && (signal == Done ==> Finished(t1.w.disk.files, op, j1.entries[k], tag))
  {
    j1 := j;
    LocalRefl(t.w.disk, j, k);
    var d := t.w.disk;
    var r := Replace(t.w, l, op.after.value);
    QuietReplace(t.w, l, op.after.value);
    if r.w.disk != d {
      assert NodeAt(r.w.disk, JournalPath) == NodeAt(d, JournalPath);
      assert Local(d, r.w.disk, j, j, k);
    }
    if r.signal == Done {
      j1 := ConfirmQuiet(r.w, t.journal, j, k, r.lease);
      var c := Confirm(r.w, t.journal, l.path, r.lease);
      assert NodeAt(c.w.disk, op.path) == NodeAt(r.w.disk, op.path);
      if c.w.disk != r.w.disk {
        LocalTransitive(d, r.w.disk, c.w.disk, j, j, j1, k);
      }
    }
  }

  lemma AttemptQuiet(w: World, l: Lease, j: Journal, k: nat, op: Op, tag: string) returns (j1: Journal)
    requires Quiet(w) && JournalOn(w.disk, j) && j.schema == 2 && l.path == JournalPath
    requires k < |j.entries| && Changes(op) && op.before.None? && Untouched(w.disk.files, op, j.entries[k], tag)
    ensures var s := SetState(w, l, op.path, Attempted);
      && Quiet(s.w) && s.lease.path == JournalPath && Local(w.disk, s.w.disk, j, j1, k)
      && UndoneOp(s.w.disk.files, op, j1.entries[k], tag) && IdentityOf(j1.entries[k].provenance).None?
  {
    j1 := j;
    LocalRefl(w.disk, j, k);
    StagesAreSound(w.disk.files, op, j.entries[k], tag);
    var m := SetState(w, l, op.path, Attempted);
    SetStateQuiet(w, l, j, k, Attempted);
    MarkDecodes(j, k, Attempted, None);
    assert NodeAt(m.w.disk, op.path) == NodeAt(w.disk, op.path);
    if m.w.disk != w.disk {
      j1 := MarkedJournal(j, op.path, Attempted, None);
    }
  }

  lemma ApplyCreateQuiet(t: Txn, j: Journal, k: nat, op: Op, tag: string) returns (j1: Journal)
    requires Quiet(t.w) && JournalOn(t.w.disk, j) && j.schema == 2 && WellLeased(t)
    requires k < |j.entries| && Changes(op) && op.before.None? && Untouched(t.w.disk.files, op, j.entries[k], tag)
    ensures var (t1, signal) := ApplyCreate(t, op.path, op.after.value);
      && Quiet(t1.w) && WellLeased(t1) && t1.written == t.written && t.leases.Keys <= t1.leases.Keys
      && Local(t.w.disk, t1.w.disk, j, j1, k) && SoundOp(t1.w.disk.files, op, j1.entries[k], tag)
      && (signal == Done ==> Finished(t1.w.disk.files, op, j1.entries[k], tag))
  {
    j1 := j;
    LocalRefl(t.w.disk, j, k);
    StagesAreSound(t.w.disk.files, op, j.entries[k], tag);
    QuietTick(t.w);
    var s := LeaseForCreate(t, op.path);
    if s.signal == Done {
      var m := SetState(s.w, t.journal, op.path, Attempted);
      j1 := AttemptQuiet(s.w, t.journal, j, k, op, tag);
      StagesAreSound(m.w.disk.files, op, j1.entries[k], tag);
      if m.signal == Done {
        var t1 := t.(w := m.w, journal := m.lease, leases := t.leases[op.path := s.lease]);
        var j2 := PublishCreateQuiet(t1, s.lease, j1, k, op, tag);
        var d2 := PublishCreate(t1, s.lease, op.after.value).0.w.disk;
        LocalTransitive(t.w.disk, m.w.disk, d2, j, j1, j2, k);
        j1 := j2;
      }
    }
  }

  /** A change of nothing but the target leaves the journal and the backup. */
  lemma TargetIsLocal(d: Disk, d1: Disk, j: Journal, k: nat)
    requires JournalOn(d, j) && k < |j.entries| && j.entries[k].backup.Some?
    requires SameElsewhere(d, d1, j.entries[k].path)
    ensures Local(d, d1, j, j, k) && NodeAt(d1, j.entries[k].backup.value) == NodeAt(d, j.entries[k].backup.value)
  {
    assert EntryDecodes(j, j.entries[k]);
    assert NodeAt(d1, JournalPath) == NodeAt(d, JournalPath);
  }

  lemma ApplyChangeQuiet(t: Txn, j: Journal, k: nat, op: Op, tag: string)
    requires Quiet(t.w) && JournalOn(t.w.disk, j) && j.tag == tag && WellLeased(t)
    requires k < |j.entries| && Changes(op) && op.before.Some? && Untouched(t.w.disk.files, op, j.entries[k], tag)
    requires op.path in t.leases && BackupOf(op.path, tag) in t.leases
    ensures var (t1, signal) := ApplyChange(t, op.path, BackupOf(op.path, tag), op.before.value, op.after);
      && Quiet(t1.w) && WellLeased(t1) && t1.written == t.written && t.leases.Keys <= t1.leases.Keys
      && Local(t.w.disk, t1.w.disk, j, j, k) && SoundOp(t1.w.disk.files, op, j.entries[k], tag)
      && (signal == Done ==> Finished(t1.w.disk.files, op, j.entries[k], tag))
  {
    LocalRefl(t.w.disk, j, k);
    StagesAreSound(t.w.disk.files, op, j.entries[k], tag);
    var p, backup, d := op.path, BackupOf(op.path, tag), t.w.disk;
    if t.leases[backup].seen.None? {
      var b := Replace(t.w, t.leases[backup], op.before.value);
      QuietReplace(t.w, t.leases[backup], op.before.value);
      if b.w.disk != d {
        assert NodeAt(b.w.disk, JournalPath) == NodeAt(d, JournalPath);
        assert NodeAt(b.w.disk, p) == NodeAt(d, p);
        assert Local(d, b.w.disk, j, j, k);
      }
      if b.signal == Done {
        if op.after.Some? {
          QuietReplace(b.w, t.leases[p], op.after.value);
        } else {
          QuietRemove(b.w, t.leases[p]);
        }
        var r := if op.after.Some? then Replace(b.w, t.leases[p], op.after.value) else Remove(b.w, t.leases[p]);
        if r.w.disk != b.w.disk {
          assert SameElsewhere(b.w.disk, r.w.disk, p);
          TargetIsLocal(b.w.disk, r.w.disk, j, k);
          LocalTransitive(d, b.w.disk, r.w.disk, j, j, j, k);
        }
      }
    }
  }

  // ----- the apply loop -----

  /** The journal on disk is this transaction's, one entry per changing operation. */
  predicate Ours(d: Disk, ops: seq<Op>, tag: string, j: Journal) {
    JournalOn(d, j) && j.schema == 2 && j.tag == tag && |j.entries| == |ops|
  }

  /** Operations before `i` are finished, those from `i` on are untouched. */
  predicate InProgress(d: Disk, ops: seq<Op>, tag: string, j: Journal, i: nat) {
    && Ours(d, ops, tag, j) && i <= |ops|
    && (forall k :: 0 <= k < i ==> Finished(d.files, ops[k], j.entries[k], tag))
    && (forall k :: i <= k < |ops| ==> Untouched(d.files, ops[k], j.entries[k], tag))
  }

  /** Stopped inside operation `i`. */
  predicate Interrupted(d: Disk, ops: seq<Op>, tag: string, j: Journal, i: nat) {
    && Ours(d, ops, tag, j) && i < |ops|
    && (forall k :: 0 <= k < i ==> Finished(d.files, ops[k], j.entries[k], tag))
    && SoundOp(d.files, ops[i], j.entries[i], tag)
    && (forall k :: i < k < |ops| ==> Untouched(d.files, ops[k], j.entries[k], tag))
  }

  predicate ChangingOps(ops: seq<Op>) {
    ManagedOps(ops) && forall op :: op in ops ==> Changes(op)
  }

  lemma ApplyOneQuiet(t: Txn, ops: seq<Op>, tag: string, j: Journal, i: nat) returns (j1: Journal)
    requires Quiet(t.w) && WellLeased(t) && ChangingOps(ops) && InProgress(t.w.disk, ops, tag, j, i) && i < |ops|
    requires HasLeases(ops, tag, t.leases)
    ensures var (t1, signal) := ApplyOne(t, ops[i], tag);
      && Quiet(t1.w) && WellLeased(t1) && t.leases.Keys <= t1.leases.Keys
      && (if signal == Done
          then InProgress(t1.w.disk, ops, tag, j1, i + 1) && t1.written == t.written + [ops[i]]
          else Interrupted(t1.w.disk, ops, tag, j1, i) && t1.written == t.written)
  {
    var op := ops[i];
    assert Changes(op) && op.path.Managed?;
    if op.before.None? {
      j1 := ApplyCreateQuiet(t, j, i, op, tag);
    } else {
      j1 := j;
      ApplyChangeQuiet(t, j, i, op, tag);
    }
    var t1 := ApplyOne(t, op, tag).0;
    forall k | 0 <= k < |ops| && k != i
      ensures k < i ==> Finished(t1.w.disk.files, ops[k], j1.entries[k], tag)
      ensures k > i ==> Untouched(t1.w.disk.files, ops[k], j1.entries[k], tag)
    {
      LocalFrame(t.w.disk, t1.w.disk, j, j1, i, k, ops[k], tag);
    }
  }

  lemma SuffixLeased(ops: seq<Op>, i: nat, tag: string, leases: map<Path, Lease>)
    requires ManagedOps(ops) && HasLeases(ops, tag, leases) && i <= |ops|
    ensures (forall op :: op in ops[i..] ==> op.path.Managed?) && HasLeases(ops[i..], tag, leases)
  {
    forall op | op in ops[i..] ensures op in ops {}
  }

  /** What the apply loop leaves behind when it ends with `signal` at operation `stop`. */
  predicate AppliedTo(t: Txn, signal: Signal, ops: seq<Op>, tag: string, j: Journal, stop: nat) {
    && WellLeased(t) && stop <= |ops| && t.written == ops[..stop]
    && (if signal == Done then stop == |ops| && InProgress(t.w.disk, ops, tag, j, |ops|)
        else Interrupted(t.w.disk, ops, tag, j, stop))
  }

  /** One round of the loop: where it stands afterwards. */
  lemma ApplyRound(t: Txn, ops: seq<Op>, tag: string, j: Journal, i: nat)
    returns (t1: Txn, signal: Signal, j1: Journal)
    requires Quiet(t.w) && WellLeased(t) && ChangingOps(ops) && InProgress(t.w.disk, ops, tag, j, i) && i < |ops|
    requires HasLeases(ops, tag, t.leases) && t.written == ops[..i]
    ensures ops[i].path.Managed? && (t1, signal) == ApplyOne(t, ops[i], tag)
    ensures Quiet(t1.w) && WellLeased(t1) && HasLeases(ops, tag, t1.leases)
    ensures if signal == Done then InProgress(t1.w.disk, ops, tag, j1, i + 1) && t1.written == ops[..i + 1]
            else AppliedTo(t1, signal, ops, tag, j1, i)
  {
    var applied := ApplyOne(t, ops[i], tag);
    t1, signal := applied.0, applied.1;
    j1 := ApplyOneQuiet(t, ops, tag, j, i);
    assert ops[..i] + [ops[i]] == ops[..i + 1];
  }

  lemma {:induction false} ApplyAllQuiet(t: Txn, ops: seq<Op>, tag: string, j: Journal, i: nat)
    returns (j1: Journal, stop: nat)
    requires Quiet(t.w) && WellLeased(t) && ChangingOps(ops) && InProgress(t.w.disk, ops, tag, j, i)
    requires HasLeases(ops, tag, t.leases) && t.written == ops[..i]
    ensures (forall op :: op in ops[i..] ==> op.path.Managed?) && HasLeases(ops[i..], tag, t.leases)
    ensures var (t1, signal) := ApplyAll(t, ops[i..], tag);
      Quiet(t1.w) && AppliedTo(t1, signal, ops, tag, j1, stop)
    decreases |ops| - i
  {
    j1, stop := j, i;
    SuffixLeased(ops, i, tag, t.leases);
    if i < |ops| {
      var t1, signal;
      t1, signal, j1 := ApplyRound(t, ops, tag, j, i);
      ApplyAllUnfolds(t, ops, tag, i);
      if signal == Done {
        j1, stop := ApplyAllQuiet(t1, ops, tag, j1, i + 1);
      }
    }
  }

  lemma ApplyAllUnfolds(t: Txn, ops: seq<Op>, tag: string, i: nat)
    requires ManagedOps(ops) && HasLeases(ops, tag, t.leases) && i < |ops|
    ensures var (t1, signal) := ApplyOne(t, ops[i], tag);
      && (forall op :: op in ops[i..] ==> op.path.Managed?) && HasLeases(ops[i..], tag, t.leases)
      && (forall op :: op in ops[i + 1..] ==> op.path.Managed?) && HasLeases(ops[i + 1..], tag, t1.leases)
      && ApplyAll(t, ops[i..], tag) == if signal != Done then (t1, signal) else ApplyAll(t1, ops[i + 1..], tag)
  {
  }

  // ----- rollback -----

  /** While rolling back operation `r` of the `stop` written ones: what is behind `r` is
      sound, and undone unless reported; what is ahead is still finished. */
  predicate Rolling(d: Disk, ops: seq<Op>, tag: string, j: Journal, r: nat, stop: nat) {
    && Ours(d, ops, tag, j) && r <= stop <= |ops|
    && (forall k :: 0 <= k < r ==> SoundOp(d.files, ops[k], j.entries[k], tag))
    && (forall k :: r <= k < stop ==> Finished(d.files, ops[k], j.entries[k], tag))
    && (stop < |ops| ==> SoundOp(d.files, ops[stop], j.entries[stop], tag))
    && (forall k :: stop < k < |ops| ==> Untouched(d.files, ops[k], j.entries[k], tag))
  }

  /** What rolling back operation `k` may leave behind. */
  ghost predicate RolledBack(t: Txn, t1: Txn, undone: bool, j: Journal, j1: Journal, k: nat, op: Op, tag: string) {
    && k < |j.entries| && Quiet(t1.w) && WellLeased(t1) && t1.leases.Keys == t.leases.Keys
    && Local(t.w.disk, t1.w.disk, j, j1, k)
    && SoundOp(t1.w.disk.files, op, j1.entries[k], tag)
    && (undone ==> UndoneOp(t1.w.disk.files, op, j1.entries[k], tag))
  }

  lemma RollBackOneQuiet(t: Txn, j: Journal, k: nat, op: Op, tag: string) returns (j1: Journal)
    requires Quiet(t.w) && WellLeased(t) && JournalOn(t.w.disk, j) && j.schema == 2 && j.tag == tag
    requires k < |j.entries| && Changes(op) && Finished(t.w.disk.files, op, j.entries[k], tag)
    requires op.path in t.leases
    ensures RolledBack(t, RollBackOne(t, op).0, RollBackOne(t, op).1, j, j1, k, op, tag)
  {
    j1 := j;
    if op.before.None? {
      j1 := RollBackOwnCreate(t, j, k, op, tag);
    } else {
      LocalRefl(t.w.disk, j, k);
      StagesAreSound(t.w.disk.files, op, j.entries[k], tag);
      RollBackChangeQuiet(t.w, t.leases[op.path], j, k, op, tag);
    }
  }

  lemma RollBackOwnCreate(t: Txn, j: Journal, k: nat, op: Op, tag: string) returns (j1: Journal)
    requires Quiet(t.w) && WellLeased(t) && JournalOn(t.w.disk, j) && j.schema == 2 && j.tag == tag
    requires k < |j.entries| && Changes(op) && Finished(t.w.disk.files, op, j.entries[k], tag)
    requires op.path in t.leases && op.before.None?
    ensures RolledBack(t, RollBackOne(t, op).0, RollBackOne(t, op).1, j, j1, k, op, tag)
  {
    j1 := j;
    LocalRefl(t.w.disk, j, k);
    StagesAreSound(t.w.disk.files, op, j.entries[k], tag);
    var l, m := t.leases[op.path], SetState(t.w, t.journal, op.path, Revoked);
    SetStateQuiet(t.w, t.journal, j, k, Revoked);
    MarkDecodes(j, k, Revoked, None);
    assert NodeAt(m.w.disk, op.path) == NodeAt(t.w.disk, op.path);
    if m.w.disk != t.w.disk {
      j1 := MarkedJournal(j, op.path, Revoked, None);
      assert SoundOp(m.w.disk.files, op, j1.entries[k], tag);
    }
    if m.signal == Done {
      RollBackCreateQuiet(m.w, l, j1, k, op, tag);
      LocalTransitive(t.w.disk, m.w.disk, UndoCreate(m.w, l).0.w.disk, j, j1, j1, k);
    }
  }

  /** The removal part of rolling back a create whose journal entry is already revoked. */
  function UndoCreate(w: World, l: Lease): (Step, bool) {
    var a := AssertCurrent(w, l);
    if a.signal != Done then (Step(a.w, l, a.signal), false)
    else if l.path !in a.w.disk.files then (Step(a.w, l, Done), true)
    else var s := Remove(a.w, l); (s, s.signal == Done)
  }

  lemma RollBackCreateQuiet(w: World, l: Lease, j: Journal, k: nat, op: Op, tag: string)
    requires Quiet(w) && JournalOn(w.disk, j) && k < |j.entries| && l.path == op.path
    requires op.before.None? && Changes(op) && Matches(j.entries[k], op, tag)
    requires ContentAt(w.disk.files, op.path) == op.after
    requires StateOf(j.entries[k].provenance) == Some(Revoked)
    ensures var (s, undone) := UndoCreate(w, l);
      && Quiet(s.w) && s.lease.path == op.path && Local(w.disk, s.w.disk, j, j, k)
      && SoundOp(s.w.disk.files, op, j.entries[k], tag)
      && (undone ==> UndoneOp(s.w.disk.files, op, j.entries[k], tag))
      && (AssertCurrent(w, l).signal == Done ==> LeaseContent(l) == op.after)
  {
    LocalRefl(w.disk, j, k);
    QuietTick(w);
    var a := AssertCurrent(w, l);
    QuietRemove(a.w, l);
    var s := Remove(a.w, l);
    if s.w.disk != w.disk {
      assert NodeAt(s.w.disk, JournalPath) == NodeAt(w.disk, JournalPath);
    }
  }

  lemma RollBackChangeQuiet(w: World, l: Lease, j: Journal, k: nat, op: Op, tag: string)
    requires Quiet(w) && JournalOn(w.disk, j) && k < |j.entries| && l.path == op.path
    requires op.before.Some? && Changes(op) && Finished(w.disk.files, op, j.entries[k], tag)
    ensures var a := AssertCurrent(w, l);
      var s := Replace(a.w, l, op.before.value);
      && Quiet(a.w) && a.w.disk == w.disk && (a.signal == Done ==> LeaseContent(l) == op.after)
      && Quiet(s.w) && s.lease.path == op.path && Local(w.disk, s.w.disk, j, j, k)
      && SoundOp(s.w.disk.files, op, j.entries[k], tag)
      && (s.signal == Done ==> UndoneOp(s.w.disk.files, op, j.entries[k], tag))
  {
    LocalRefl(w.disk, j, k);
    QuietTick(w);
    var a := AssertCurrent(w, l);
    QuietReplace(a.w, l, op.before.value);
    var s := Replace(a.w, l, op.before.value);
    var b := BackupOf(op.path, tag);
    if s.w.disk != w.disk {
      assert NodeAt(s.w.disk, JournalPath) == NodeAt(w.disk, JournalPath);
      assert NodeAt(s.w.disk, b) == NodeAt(w.disk, b);
      assert Local(w.disk, s.w.disk, j, j, k);
    }
  }

  lemma RollingIsSound(d: Disk, ops: seq<Op>, tag: string, j: Journal, r: nat, stop: nat)
    requires ChangingOps(ops) && Rolling(d, ops, tag, j, r, stop)
    ensures Pending(d, ops, tag, j)
  {
  }

  /** Operations outside `[r, stop)` are kept. */
  ghost predicate KeptOutside(
    d: Disk, d1: Disk, ops: seq<Op>, tag: string, j: Journal, j1: Journal, r: nat, stop: nat)
    requires |j.entries| == |j1.entries| == |ops|
  {
    forall k :: 0 <= k < |ops| && (k < r || stop <= k) ==> KeptOp(d, d1, ops[k], j.entries[k], j1.entries[k], tag)
  }

  /** What rolling back `ops[r..stop]` guarantees. */
  ghost predicate RolledTo(
    d: Disk, d1: Disk, ops: seq<Op>, tag: string, j: Journal, j1: Journal, r: nat, stop: nat,
    unresolved: seq<Path>, dead: bool)
  {
    && |j.entries| == |ops| && Pending(d1, ops, tag, j1)
    && KeptOutside(d, d1, ops, tag, j, j1, r, stop)
    && (!dead ==> forall k :: r <= k < stop <= |ops| && ops[k].path !in unresolved ==>
          UndoneOp(d1.files, ops[k], j1.entries[k], tag))
  }

  lemma RolledCompose(
    d: Disk, d1: Disk, d2: Disk, ops: seq<Op>, tag: string, j: Journal, j1: Journal, j2: Journal,
    r: nat, stop: nat, undone: bool, rest: seq<Path>, dead: bool)
    requires r < stop <= |ops| && |j.entries| == |j1.entries| == |ops|
    requires forall k :: 0 <= k < |ops| && k != r ==> KeptOp(d, d1, ops[k], j.entries[k], j1.entries[k], tag)
    requires undone ==> UndoneOp(d1.files, ops[r], j1.entries[r], tag)
    requires RolledTo(d1, d2, ops, tag, j1, j2, r + 1, stop, rest, dead)
    ensures RolledTo(d, d2, ops, tag, j, j2, r, stop, if undone then rest else [ops[r].path] + rest, dead)
  {
  }

  lemma {:induction false} RollBackAllQuiet(t: Txn, ops: seq<Op>, tag: string, j: Journal, r: nat, stop: nat)
    returns (j1: Journal)
    requires Quiet(t.w) && WellLeased(t) && ChangingOps(ops) && Rolling(t.w.disk, ops, tag, j, r, stop)
    requires forall op :: op in ops[..stop] ==> op.path in t.leases
    ensures var (t1, unresolved, dead) := RollBackAll(t, ops[r..stop]);
      && Quiet(t1.w) && RolledTo(t.w.disk, t1.w.disk, ops, tag, j, j1, r, stop, unresolved, dead)
    decreases stop - r
  {
    j1 := j;
    RollingIsSound(t.w.disk, ops, tag, j, r, stop);
    if r < stop {
      assert ops[r..stop][1..] == ops[r + 1..stop] && ops[r..stop][0] == ops[r];
      assert ops[r] in ops[..stop] && ops[r] in ops;
      var (t1, undone, dead) := RollBackOne(t, ops[r]);
      j1 := RollBackOneQuiet(t, j, r, ops[r], tag);
      RollingStep(t.w.disk, t1.w.disk, ops, tag, j, j1, r, stop);
      RollingIsSound(t1.w.disk, ops, tag, j1, r + 1, stop);
      if !dead {
        var j2 := RollBackAllQuiet(t1, ops, tag, j1, r + 1, stop);
        var (t2, rest, dead2) := RollBackAll(t1, ops[r + 1..stop]);
        RolledCompose(t.w.disk, t1.w.disk, t2.w.disk, ops, tag, j, j1, j2, r, stop, undone, rest, dead2);
        j1 := j2;
      }
    }
  }

  /** Operation untouched by what happened between the two disks. */
  ghost predicate KeptOp(d: Disk, d1: Disk, op: Op, e: Entry, e1: Entry, tag: string) {
    && (UndoneOp(d.files, op, e, tag) ==> UndoneOp(d1.files, op, e1, tag))
    && (Exposed(d1.files, e1) ==> Exposed(d.files, e))
    && ContentAt(d1.files, op.path) == ContentAt(d.files, op.path)
  }

  lemma RollingStep(d: Disk, d1: Disk, ops: seq<Op>, tag: string, j: Journal, j1: Journal, r: nat, stop: nat)
    requires ChangingOps(ops) && Rolling(d, ops, tag, j, r, stop) && r < stop
    requires Local(d, d1, j, j1, r) && SoundOp(d1.files, ops[r], j1.entries[r], tag)
    ensures Rolling(d1, ops, tag, j1, r + 1, stop)
    ensures forall k :: 0 <= k < |ops| && k != r ==>
      KeptOp(d, d1, ops[k], j.entries[k], j1.entries[k], tag)
  {
    forall k | 0 <= k < |ops| && k != r
      ensures KeptOp(d, d1, ops[k], j.entries[k], j1.entries[k], tag)
      ensures k < r || k == stop ==> SoundOp(d1.files, ops[k], j1.entries[k], tag)
      ensures r < k < stop ==> Finished(d1.files, ops[k], j1.entries[k], tag)
      ensures k > stop ==> Untouched(d1.files, ops[k], j1.entries[k], tag)
    {
      LocalFrame(d, d1, j, j1, r, k, ops[k], tag);
    }
  }

  // ----- before and after a transaction -----

  /** Every operation's target holds its before-bytes. */
  predicate BeforeBytes(d: Disk, ops: seq<Op>) {
    forall op :: op in ops ==> ContentAt(d.files, op.path) == op.before
  }

  predicate AfterBytes(d: Disk, ops: seq<Op>) {
    forall op :: op in ops ==> ContentAt(d.files, op.path) == op.after
  }

  /** The pending journal covers exactly the changing operations, and all are sound. */
  predicate Pending(d: Disk, ops: seq<Op>, tag: string, j: Journal) {
    Ours(d, ops, tag, j) && forall k :: 0 <= k < |ops| ==> SoundOp(d.files, ops[k], j.entries[k], tag)
  }

  /** A create is published on disk while its journal entry is not confirmed. */
  predicate Stranded(d: Disk, j: Journal) {
    exists k :: 0 <= k < |j.entries| && Exposed(d.files, j.entries[k])
  }

  lemma JournalForDecodes(plan: Plan, d: Disk)
    requires PlannedOn(plan, d)
    ensures var ops := Changing(plan.ops);
      var j := JournalFor(plan);
      && ChangingOps(ops) && Decodes(j) && |j.entries| == |ops|
      && forall k :: 0 <= k < |ops| ==> j.entries[k] == EntryFor(ops[k], plan.tag)
  {
    ChangingDistinct(plan.ops);
    var ops := Changing(plan.ops);
    var j := JournalFor(plan);
    forall k | 0 <= k < |ops| ensures EntryDecodes(j, j.entries[k]) {
      assert ops[k] in ops;
    }
  }

  /** What the journal of a plan says: whose it is, and of each changing operation its path, the digests
      before and after, where the bytes are saved, and that nothing was published yet. */
  lemma JournalForSays(plan: Plan)
    requires ManagedOps(plan.ops)
    ensures var j, ops := JournalFor(plan), Changing(plan.ops);
      && j.schema == 2 && j.operation == plan.operation && j.tag == plan.tag && |j.entries| == |ops|
      && forall k :: 0 <= k < |ops| ==>
           var e := j.entries[k];
           && e.path == ops[k].path
           && (match ops[k].before case None => e.before == None case Some(b) => e.before == Some(Sha256(b)))
           && (match ops[k].after case None => e.after == None case Some(a) => e.after == Some(Sha256(a)))
           && e.backup == (if ops[k].before.None? then None else Some(Backup(ops[k].path.host, ops[k].path.file, plan.tag)))
           && e.provenance == Identified(Some(if ops[k].before.None? then Planned else NotApplicable), None)
  {
  }

  lemma AllUntouched(d: Disk, d1: Disk, plan: Plan, ops: seq<Op>)
    requires PlannedOn(plan, d) && ops == Changing(plan.ops) && SameElsewhere(d, d1, JournalPath)
    ensures |JournalFor(plan).entries| == |ops|
    ensures forall k :: 0 <= k < |ops| ==> Untouched(d1.files, ops[k], JournalFor(plan).entries[k], plan.tag)
  {
    JournalForDecodes(plan, d);
    forall k | 0 <= k < |ops| ensures Untouched(d1.files, ops[k], JournalFor(plan).entries[k], plan.tag) {
      assert ops[k] in plan.ops;
      assert NodeAt(d1, ops[k].path) == NodeAt(d, ops[k].path);
      assert NodeAt(d1, BackupOf(ops[k].path, plan.tag)) == NodeAt(d, BackupOf(ops[k].path, plan.tag));
    }
  }

  lemma BeginQuiet(w: World, plan: Plan, ops: seq<Op>)
    requires Quiet(w) && PlannedOn(plan, w.disk) && ops == Changing(plan.ops)
    ensures var b := Begin(w, plan);
      && Quiet(b.w) && b.lease.path == JournalPath
      && (b.w.disk == w.disk || InProgress(b.w.disk, ops, plan.tag, JournalFor(plan), 0))
      && (b.signal == Done ==> b.w.disk != w.disk && Current(b.w.disk, b.lease))
  {
    JournalForDecodes(plan, w.disk);
    var j := JournalFor(plan);
    if plan.journal.seen.None? {
      QuietReplace(w, plan.journal, Encoded(j));
      var b := Begin(w, plan);
      if b.w.disk != w.disk {
        AllUntouched(w.disk, b.w.disk, plan, ops);
      }
    }
  }
}
