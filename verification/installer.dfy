/** The transaction as the installer runs it, over mutable leases and the `written` list.
    Each method is tied to its step function, about which the safety results are proved. */
module Installer {
  import opened Options
  import Io = ConfinedIo
  import opened TransactionJournal
  import Tx = Transaction
  import opened LeaseObjects

  type FileLeases = map<Io.Path, ConfinedFileLease>

  ghost function Views(leases: FileLeases): map<Io.Path, Io.Lease>
    reads leases.Values
  {
    map p | p in leases :: leases[p].View()
  }

  /** Set a publication state other than confirmed. */
  method SetCreatePublicationState(journal: ConfinedFileLease, path: Io.Path, state: Io.PublicationState)
    returns (signal: Io.Signal)
    requires journal.Whole()
    modifies journal, journal.machine
    ensures journal.Whole()
    ensures Io.Step(journal.machine.World(), journal.View(), signal)
         == SetState(old(journal.machine.World()), old(journal.View()), path, state)
  {
    if journal.content == None || journal.content.value.Raw? {
      return Io.Raised;
    }
    var payload := journal.content.value.journal;
    signal := journal.Replace(Io.Encoded(MarkedJournal(payload, path, state, None)));
  }

  /** Confirm a create through the lease that published it. */
  method ConfirmCreatePublication(journal: ConfinedFileLease, path: Io.Path, published: ConfinedFileLease)
    returns (signal: Io.Signal)
    requires journal.Whole() && published.Whole() && journal.machine == published.machine
    modifies journal, journal.machine
    ensures journal.Whole()
    ensures Io.Step(journal.machine.World(), journal.View(), signal)
         == Confirm(old(journal.machine.World()), old(journal.View()), path, old(published.View()))
  {
    if journal.content == None || journal.content.value.Raw? {
      return Io.Raised;
    }
    var payload := journal.content.value.journal;
    var entry := FindEntry(payload.entries, path);
    if entry == None {
      signal := journal.Replace(Io.Encoded(payload));
      return;
    }
    if payload.schema != 2 || published.path != path || entry.value.before.Some?
       || Io.DigestOf(published.content) != entry.value.after {
      return Io.Raised;
    }
    var fingerprint;
    signal, fingerprint := published.PublicationFingerprint();
    if signal == Io.Done {
      signal := journal.Replace(Io.Encoded(MarkedJournal(payload, path, Io.Confirmed, fingerprint)));
    }
  }

  /** Attempting a create records its lease, whether or not it was recorded before. */
  lemma AttemptLeasesAnyway(t: Tx.Txn, l: Io.Lease, after: Io.Content)
    ensures Tx.AttemptCreate(t.(leases := t.leases[l.path := l]), l, after) == Tx.AttemptCreate(t, l, after)
  {
    assert t.leases[l.path := l][l.path := l] == t.leases[l.path := l];
  }

  class InstallTransaction {
    const machine: Machine
    const journal: ConfinedFileLease
    const tag: string
    var leases: FileLeases
    var written: seq<Op>

    ghost predicate Valid()
      reads this, journal, leases.Values
    {
      && journal.machine == machine && journal.path == Io.JournalPath && journal.Whole()
      && Io.JournalPath !in leases
      && forall p :: p in leases ==> leases[p].path == p && leases[p].machine == machine && leases[p].Whole()
    }

    ghost function State(): Tx.Txn
      reads this, machine, journal, leases.Values
    {
      Tx.Txn(machine.World(), journal.View(), Views(leases), written)
    }

    constructor (machine: Machine, journal: ConfinedFileLease, leases: FileLeases, tag: string)
      requires journal.machine == machine && journal.path == Io.JournalPath && journal.Whole()
      requires Io.JournalPath !in leases
      requires forall p :: p in leases ==> leases[p].path == p && leases[p].machine == machine && leases[p].Whole()
      ensures Valid() && this.machine == machine && this.journal == journal && this.leases == leases
      ensures this.tag == tag && written == []
    {
      this.machine, this.journal, this.leases, this.tag, written := machine, journal, leases, tag, [];
    }

    /** Replace or remove a leased target. */
    method Publish(target: ConfinedFileLease, after: Option<Io.Content>) returns (signal: Io.Signal)
      requires Valid() && target.path in leases && leases[target.path] == target
      modifies machine, target
      ensures Valid() && leases == old(leases) && written == old(written)
      ensures (State(), signal) == Tx.Publish(old(State()), target.path, after)
    {
      ghost var t := State();
      if after == None {
        signal := target.Remove();
      } else {
        signal := target.Replace(after.value);
      }
      assert Views(leases) == t.leases[target.path := target.View()];
    }

    /** Back up, then replace or remove, each through its own lease. */
    method ApplyChange(op: Op) returns (signal: Io.Signal)
      requires Valid() && op.path.Managed? && op.before.Some?
      requires op.path in leases && BackupOf(op.path, tag) in leases
      modifies machine, leases.Values
      ensures Valid() && leases == old(leases) && written == old(written)
      ensures (State(), signal)
           == Tx.ApplyChange(old(State()), op.path, BackupOf(op.path, tag), op.before.value, op.after)
    {
      var backup := leases[BackupOf(op.path, tag)];
      if backup.identity != None {
        return Io.Raised;
      }
      signal := Publish(backup, Some(op.before.value));
      if signal == Io.Done {
        signal := Publish(leases[op.path], op.after);
      }
    }

    /** Lease a create that planning could not lease; it must still be absent. */
    method LeaseForCreate(path: Io.Path) returns (target: ConfinedFileLease, signal: Io.Signal)
      requires Valid() && path.Managed?
      modifies machine
      ensures Valid() && written == old(written) && leases == old(leases)
      ensures target.path == path && target.machine == machine && target.Whole()
      ensures path in leases ==> target == leases[path]
      ensures path !in leases ==> fresh(target)
      ensures Io.Step(machine.World(), target.View(), signal) == Tx.LeaseForCreate(old(State()), path)
      ensures State() == old(State()).(w := machine.World())
    {
      ghost var t := State();
      if path in leases {
        target, signal := leases[path], Io.Done;
      } else {
        target, signal := LeaseConfinedFile(machine, path);
        if signal == Io.Done && target.identity != None {
          signal := Io.Raised;
        }
      }
      assert Views(leases) == t.leases;
    }

    method PublishCreate(target: ConfinedFileLease, after: Io.Content) returns (signal: Io.Signal)
      requires Valid() && target.path in leases && leases[target.path] == target
      modifies machine, journal, target
      ensures Valid() && leases == old(leases) && written == old(written)
      ensures (State(), signal) == Tx.PublishCreate(old(State()), old(target.View()), after)
    {
      ghost var t := State();
      signal := target.Replace(after);
      assert Views(leases) == t.leases[target.path := target.View()];
      if signal == Io.Done {
        ghost var t1 := State();
        signal := ConfirmCreatePublication(journal, target.path, target);
        assert Views(leases) == t1.leases;
      }
    }

    method AttemptCreate(target: ConfinedFileLease, after: Io.Content) returns (signal: Io.Signal)
      requires Valid() && target.path in leases && leases[target.path] == target
      modifies machine, journal, target
      ensures Valid() && leases == old(leases) && written == old(written)
      ensures (State(), signal) == Tx.AttemptCreate(old(State()), old(target.View()), after)
    {
      ghost var t := State();
      signal := SetCreatePublicationState(journal, target.path, Io.Attempted);
      assert Views(leases) == t.leases[target.path := target.View()];
      if signal == Io.Done {
        signal := PublishCreate(target, after);
      }
    }

    method ApplyCreate(op: Op) returns (signal: Io.Signal)
      requires Valid() && op.path.Managed? && op.before.None? && op.after.Some?
      modifies this`leases, machine, journal, leases.Values
      ensures Valid() && written == old(written)
      ensures old(leases.Keys) <= leases.Keys
      ensures fresh(leases.Values - old(leases.Values))
      ensures (State(), signal) == Tx.ApplyCreate(old(State()), op.path, op.after.value)
    {
      var target;
      target, signal := LeaseForCreate(op.path);
      if signal == Io.Done {
        signal := AttemptLeased(target, op.after.value);
      }
    }

    /** Record the lease the create will be published under, then attempt it. */
    method AttemptLeased(target: ConfinedFileLease, after: Io.Content) returns (signal: Io.Signal)
      requires Valid() && target.path.Managed? && target.machine == machine && target.Whole()
      modifies this`leases, machine, journal, target
      ensures Valid() && leases == old(leases)[target.path := target] && written == old(written)
      ensures (State(), signal) == Tx.AttemptCreate(old(State()), old(target.View()), after)
    {
      ghost var t, l := State(), target.View();
      leases := leases[target.path := target];
      assert State() == t.(leases := t.leases[target.path := l]) by {
        assert Views(leases) == t.leases[target.path := l];
      }
      AttemptLeasesAnyway(t, l, after);
      signal := AttemptCreate(target, after);
    }

    method ApplyEffect(op: Op) returns (signal: Io.Signal)
      requires Valid() && op.path.Managed? && Changes(op)
      requires op.before.Some? ==> op.path in leases && BackupOf(op.path, tag) in leases
      modifies this`leases, machine, journal, leases.Values
      ensures Valid() && old(leases.Keys) <= leases.Keys && written == old(written)
      ensures fresh(leases.Values - old(leases.Values))
      ensures (State(), signal) == Tx.ApplyEffect(old(State()), op, tag)
    {
      if op.before == None {
        signal := ApplyCreate(op);
      } else {
        signal := ApplyChange(op);
      }
    }

    method RecordWritten(op: Op)
      requires Valid()
      modifies this`written
      ensures Valid() && State() == old(State()).(written := old(written) + [op])
    {
      ghost var views := Views(leases);
      written := written + [op];
      assert Views(leases) == views;
    }

    method ApplyOne(op: Op) returns (signal: Io.Signal)
      requires Valid() && op.path.Managed?
      requires op.before.Some? ==> op.path in leases && BackupOf(op.path, tag) in leases
      modifies this`leases, this`written, machine, journal, leases.Values
      ensures Valid() && old(leases.Keys) <= leases.Keys
      ensures fresh(leases.Values - old(leases.Values))
      ensures (State(), signal) == Tx.ApplyOne(old(State()), op, tag)
    {
      if op.before == op.after {
        return Io.Done;
      }
      signal := ApplyEffect(op);
      ghost var t1 := State();
      if signal == Io.Done {
        RecordWritten(op);
        assert State() == t1.(written := t1.written + [op]);
      }
    }

    /** The apply loop: stop at the first operation that does not go through. */
    method ApplyFrozenOperations(ops: seq<Op>) returns (signal: Io.Signal)
      requires Valid() && (forall op :: op in ops ==> op.path.Managed?) && Tx.HasLeases(ops, tag, Views(leases))
      modifies this`leases, this`written, machine, journal, leases.Values
      ensures Valid()
      ensures fresh(leases.Values - old(leases.Values))
      ensures (State(), signal) == Tx.ApplyAll(old(State()), ops, tag)
    {
      ghost var start := State();
      signal := Io.Done;
      var rest := ops;
      while rest != []
        invariant Valid() && signal == Io.Done
        invariant fresh(leases.Values - old(leases.Values))
        invariant (forall op :: op in rest ==> op.path.Managed?) && Tx.HasLeases(rest, tag, Views(leases))
        invariant Tx.ApplyAll(State(), rest, tag) == Tx.ApplyAll(start, ops, tag)
        decreases |rest|
      {
        signal := ApplyOne(rest[0]);
        if signal != Io.Done {
          return;
        }
        rest := rest[1..];
      }
    }

    /** Undo one written operation; a create is revoked in the journal before it is removed. */
    method RollBackOne(op: Op) returns (undone: bool, dead: bool)
      requires Valid() && op.path in leases
      modifies machine, journal, leases.Values
      ensures Valid() && leases == old(leases)
      ensures (State(), undone, dead) == Tx.RollBackOne(old(State()), op)
    {
      ghost var t := State();
      if op.before == None {
        var marked := SetCreatePublicationState(journal, op.path, Io.Revoked);
        assert Views(leases) == t.leases;
        if marked != Io.Done {
          return false, marked == Io.Crashed;
        }
      }
      undone, dead := Undo(op);
    }

    /** Take a target back from its after-bytes, if that is still what its lease retains. */
    method Undo(op: Op) returns (undone: bool, dead: bool)
      requires Valid() && op.path in leases
      modifies machine, leases.Values
      ensures Valid() && leases == old(leases)
      ensures (State(), undone, dead) == Tx.Undo(old(State()), op)
    {
      ghost var t := State();
      var target := leases[op.path];
      var asserted := target.AssertCurrent();
      assert Views(leases) == t.leases;
      if asserted != Io.Done {
        return false, asserted == Io.Crashed;
      }
      if target.content != op.after {
        return target.content == op.before, false;
      }
      if op.before == None && op.path !in machine.disk.files {
        return true, false;
      }
      var signal := Publish(target, op.before);
      return signal == Io.Done, signal == Io.Crashed;
    }

    /** Roll back everything written, in the order it was written. */
    method RollBack() returns (unresolved: seq<Io.Path>, dead: bool)
      requires Valid() && forall op :: op in written ==> op.path in leases
      modifies machine, journal, leases.Values
      ensures Valid() && leases == old(leases)
      ensures (State(), if dead then [] else unresolved, dead)
           == (var (t, paths, d) := Tx.RollBackAll(old(State()), old(written)); (t, if d then [] else paths, d))
    {
      ghost var start := State();
      unresolved, dead := [], false;
      var rest := written;
      while rest != []
        invariant Valid() && leases == old(leases) && !dead
        invariant forall op :: op in rest ==> op.path in leases
        invariant var (t, paths, d) := Tx.RollBackAll(State(), rest);
          var (t0, paths0, d0) := Tx.RollBackAll(start, old(written));
          t == t0 && d == d0 && (!d ==> unresolved + paths == paths0)
        decreases |rest|
      {
        ghost var t := State();
        var undone;
        undone, dead := RollBackOne(rest[0]);
        assert (State(), undone, dead) == Tx.RollBackOne(t, rest[0]);
        if dead {
          return;
        }
        if !undone {
          unresolved := unresolved + [rest[0].path];
        }
        rest := rest[1..];
      }
      assert unresolved + [] == unresolved;
    }
  }

  /** Begin, apply, and complete or roll back: the body of an install or a remove. */
  method RunTransaction(
    machine: Machine, ops: seq<Op>, operation: string, tag: string,
    journal: ConfinedFileLease, leases: FileLeases)
    returns (ended: Tx.Ended)
    requires Tx.ManagedOps(ops) && Tx.Leased(ops, tag, Views(leases))
    requires journal.machine == machine && journal.path == Io.JournalPath && journal.Whole()
    requires Io.JournalPath !in leases
    requires forall p :: p in leases ==> leases[p].path == p && leases[p].machine == machine && leases[p].Whole()
    modifies machine, journal, leases.Values
    ensures (machine.World(), ended)
         == Tx.Run(old(machine.World()), Tx.Plan(ops, operation, tag, old(journal.View()), old(Views(leases))))
  {
    ghost var plan := Tx.Plan(ops, operation, tag, journal.View(), Views(leases));
    ghost var w := machine.World();
    if journal.identity != None {
      return Tx.RolledBack([]);
    }
    var document := Io.Journal(2, operation, tag, EntriesFor(Tx.Changing(ops), tag));
    var begun := journal.Replace(Io.Encoded(document));
    assert Views(leases) == plan.leases;
    if begun != Io.Done {
      return if begun == Io.Crashed then Tx.Dead else Tx.RolledBack([]);
    }
    var transaction := new InstallTransaction(machine, journal, leases, tag);
    assert Views(leases) == plan.leases;
    ended := Proceed(transaction, ops);
  }

  method Proceed(transaction: InstallTransaction, ops: seq<Op>) returns (ended: Tx.Ended)
    requires transaction.Valid() && transaction.written == []
    requires (forall op :: op in ops ==> op.path.Managed?)
    requires Tx.HasLeases(ops, transaction.tag, Views(transaction.leases))
    modifies transaction, transaction.machine, transaction.journal, transaction.leases.Values
    ensures (transaction.machine.World(), ended) == Tx.Proceed(old(transaction.State()), ops, transaction.tag)
  {
    ghost var t := transaction.State();
    Tx.WrittenIsLeased(t, ops, transaction.tag);
    var applied := transaction.ApplyFrozenOperations(ops);
    if applied == Io.Crashed {
      return Tx.Dead;
    }
    if applied == Io.Raised {
      var unresolved, dead := transaction.RollBack();
      return if dead then Tx.Dead else Tx.RolledBack(unresolved);
    }
    var completed := transaction.journal.Remove();
    match completed {
      case Done => return Tx.Completed;
      case Raised => return Tx.JournalKept;
      case Crashed => return Tx.Dead;
    }
  }
}
