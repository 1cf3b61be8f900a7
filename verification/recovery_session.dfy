/** Recovery as it runs, over the leases held from preflight to the last restored file. */
module RecoverySession {
  import opened Options
  import Io = ConfinedIo
  import opened TransactionJournal
  import Rec = Recovery
  import opened LeaseObjects
  import opened Installer

  /** One journal entry with the leases preflight holds for it. */
  datatype Held = Held(entry: Io.Entry, target: ConfinedFileLease, backup: Option<ConfinedFileLease>)

  ghost function Own(h: Held): set<ConfinedFileLease> {
    if h.backup.Some? then {h.target, h.backup.value} else {h.target}
  }

  ghost predicate Usable(h: Held, machine: Machine)
    reads Own(h)
  {
    && h.target.machine == machine && h.target.Whole()
    && (h.backup.Some? ==> h.backup.value.machine == machine && h.backup.value.Whole())
  }

  ghost function ViewOf(h: Held): Rec.Observation
    reads Own(h)
  {
    Rec.Observation(h.entry, h.target.View(), if h.backup.Some? then Some(h.backup.value.View()) else None)
  }

  /** Lease and judge one target and its backup; keep the leases only if it is clear. */
  method ObserveEntry(machine: Machine, e: Io.Entry) returns (finding: Rec.Finding, held: Option<Held>)
    modifies machine
    ensures (machine.World(), finding) == Rec.ObserveEntry(old(machine.World()), e)
    ensures finding.Clear? <==> held.Some?
    ensures held.Some? ==>
      && fresh(Own(held.value)) && Usable(held.value, machine) && ViewOf(held.value) == finding.observation
      && held.value.backup != Some(held.value.target)
  {
    held := None;
    if Rec.OwnsCreate(e) && IdentityOf(e.provenance) == None {
      return Rec.Conflicts(e.path), None;
    }
    var target, signal := LeaseConfinedFile(machine, e.path);
    if signal != Io.Done {
      return Rec.Halts(signal), None;
    }
    var backup: Option<ConfinedFileLease> := None;
    if e.backup.Some? {
      var lease;
      lease, signal := LeaseConfinedFile(machine, e.backup.value);
      if signal != Io.Done {
        return Rec.Halts(signal), None;
      }
      backup := Some(lease);
    }
    var h := Held(e, target, backup);
    if Rec.OwnsCreate(e) {
      var fingerprint;
      signal, fingerprint := target.PublicationFingerprint();
      if signal == Io.Crashed {
        return Rec.Halts(Io.Crashed), None;
      }
      if signal != Io.Done || fingerprint != IdentityOf(e.provenance) {
        return Rec.Conflicts(e.path), None;
      }
    }
    finding := Rec.Assess(Rec.Observation(e, target.View(), if backup.Some? then Some(backup.value.View()) else None));
    if finding.Clear? {
      held := Some(h);
    }
  }

  /** The leases of a session all lie in its footprint, and no two entries share one. */
  ghost predicate Session(machine: Machine, held: seq<Held>, footprint: set<ConfinedFileLease>)
    reads footprint
  {
    && (forall i :: 0 <= i < |held| ==>
          Own(held[i]) <= footprint && Usable(held[i], machine) && held[i].backup != Some(held[i].target))
    && (forall i, j :: 0 <= i < j < |held| ==> Own(held[i]) !! Own(held[j]))
  }

  ghost function ViewsOf(held: seq<Held>, footprint: set<ConfinedFileLease>): (r: seq<Rec.Observation>)
    requires forall i :: 0 <= i < |held| ==> Own(held[i]) <= footprint
    reads footprint
    ensures |r| == |held| && forall i :: 0 <= i < |held| ==> r[i] == ViewOf(held[i])
  {
    if held == [] then []
    else ViewsOf(held[..|held| - 1], footprint) + [ViewOf(held[|held| - 1])]
  }

  /** Put the findings made so far in front of what remains to be surveyed. */
  ghost function Prepended(front: seq<Rec.Observation>, survey: Rec.Survey): Rec.Survey {
    match survey
    case Surveyed(o) => Rec.Surveyed(front + o)
    case _ => survey
  }

  function Outcome(trouble: Rec.Finding): Rec.Survey
    requires !trouble.Clear?
  {
    if trouble.Conflicts? then Rec.Blocked(trouble.path) else Rec.Cut(trouble.signal)
  }

  /** One round of the survey, with the findings made so far in front. */
  lemma ObserveStep(w: Io.World, entries: seq<Io.Entry>, front: seq<Rec.Observation>)
    requires entries != []
    ensures var (w1, f) := Rec.ObserveEntry(w, entries[0]);
      var (w2, survey) := Rec.ObserveAll(w, entries);
      if f.Clear? then
        var (w3, rest) := Rec.ObserveAll(w1, entries[1..]);
        w2 == w3 && Prepended(front, survey) == Prepended(front + [f.observation], rest)
      else (w2, survey) == (w1, Outcome(f)) && Prepended(front, survey) == survey
  {
  }

  /** Leases of one more entry, shared with no other, extend a session. */
  lemma SessionGrows(machine: Machine, held: seq<Held>, footprint: set<ConfinedFileLease>, more: Held)
    requires Session(machine, held, footprint)
    requires Usable(more, machine) && more.backup != Some(more.target) && Own(more) !! footprint
    ensures Session(machine, held + [more], footprint + Own(more))
    ensures ViewsOf(held + [more], footprint + Own(more)) == ViewsOf(held, footprint) + [ViewOf(more)]
  {
  }

  /** Observe every entry in order, holding its leases; the first trouble ends the survey. */
  method ObserveRecoveryTargets(machine: Machine, entries: seq<Io.Entry>)
    returns (held: seq<Held>, trouble: Option<Rec.Finding>, ghost footprint: set<ConfinedFileLease>)
    modifies machine
    ensures fresh(footprint) && Session(machine, held, footprint)
    ensures trouble.Some? ==> !trouble.value.Clear?
    ensures Rec.ObserveAll(old(machine.World()), entries)
         == (machine.World(),
             if trouble.Some? then Outcome(trouble.value) else Rec.Surveyed(ViewsOf(held, footprint)))
  {
    ghost var whole := Rec.ObserveAll(machine.World(), entries);
    assert whole.1.Surveyed? ==> [] + whole.1.observations == whole.1.observations;
    ghost var views: seq<Rec.Observation> := [];
    held, footprint := [], {};
    var rest := entries;
    while rest != []
      invariant fresh(footprint) && Session(machine, held, footprint) && ViewsOf(held, footprint) == views
      invariant whole.0 == Rec.ObserveAll(machine.World(), rest).0
      invariant whole.1 == Prepended(views, Rec.ObserveAll(machine.World(), rest).1)
      decreases |rest|
    {
      ObserveStep(machine.World(), rest, views);
      var finding, more := ObserveEntry(machine, rest[0]);
      if more == None {
        return held, Some(finding), footprint;
      }
      SessionGrows(machine, held, footprint, more.value);
      held, footprint, views := held + [more.value], footprint + Own(more.value), views + [finding.observation];
      rest := rest[1..];
    }
    assert views + [] == views;
    trouble := None;
  }

  /** Undo one after-state through the lease that observed it. */
  method RestoreOne(h: Held) returns (phase: Rec.Phase)
    requires Usable(h, h.target.machine) && h.backup != Some(h.target)
    modifies h.target, h.target.machine
    ensures Usable(h, h.target.machine)
    ensures (h.target.machine.World(), phase) == Rec.RestoreOne(old(h.target.machine.World()), old(ViewOf(h)))
  {
    var current := h.target.content;
    if Io.DigestOf(current) != h.entry.after {
      return Rec.Go;
    }
    var signal;
    if h.entry.before == None {
      if !Rec.OwnsCreate(h.entry) {
        return Rec.Stop(Rec.Conflict(h.entry.path));
      }
      signal := h.target.Remove();
    } else {
      if h.backup == None || h.backup.value.content == None {
        return Rec.Stop(Rec.Invalid);
      }
      signal := h.target.Replace(h.backup.value.content.value);
    }
    return if signal == Io.Done then Rec.Go else Rec.Stop(Rec.Halted(signal));
  }

  /** The restoration loop: stop at the first entry that cannot be undone. */
  method RestoreAll(machine: Machine, held: seq<Held>, ghost footprint: set<ConfinedFileLease>)
    returns (phase: Rec.Phase)
    requires Session(machine, held, footprint)
    modifies machine, footprint
    ensures (machine.World(), phase) == Rec.RestoreAll(old(machine.World()), old(ViewsOf(held, footprint)), 0)
  {
    ghost var start := machine.World();
    ghost var obs := ViewsOf(held, footprint);
    phase := Rec.Go;
    for i := 0 to |held|
      invariant Session(machine, held, footprint) && phase == Rec.Go
      invariant forall k :: i <= k < |held| ==> ViewOf(held[k]) == obs[k]
      invariant Rec.RestoreAll(machine.World(), obs, i) == Rec.RestoreAll(start, obs, 0)
    {
      phase := RestoreOne(held[i]);
      if phase.Stop? {
        return;
      }
    }
  }

  method AssertLease(lease: ConfinedFileLease, blame: Io.Path) returns (phase: Rec.Phase)
    requires lease.Whole()
    modifies lease.machine
    ensures (lease.machine.World(), phase) == Rec.AssertLease(old(lease.machine.World()), old(lease.View()), blame)
  {
    var signal := lease.AssertCurrent();
    match signal {
      case Done => return Rec.Go;
      case Raised => return Rec.Stop(Rec.Conflict(blame));
      case Crashed => return Rec.Stop(Rec.Died);
    }
  }

  /** Read again the fingerprint of every confirmed create. */
  method Recheck(machine: Machine, held: seq<Held>, ghost footprint: set<ConfinedFileLease>)
    returns (phase: Rec.Phase)
    requires Session(machine, held, footprint)
    modifies machine
    ensures (machine.World(), phase) == Rec.Recheck(old(machine.World()), old(ViewsOf(held, footprint)), 0)
  {
    ghost var start, obs := machine.World(), ViewsOf(held, footprint);
    for i := 0 to |held|
      invariant Rec.Recheck(machine.World(), obs, i) == Rec.Recheck(start, obs, 0)
    {
      assert Usable(held[i], machine) && ViewOf(held[i]) == obs[i];
      if Rec.OwnsCreate(held[i].entry) {
        var signal, fingerprint := held[i].target.PublicationFingerprint();
        if signal == Io.Crashed {
          return Rec.Stop(Rec.Died);
        }
        if signal != Io.Done || fingerprint != IdentityOf(held[i].entry.provenance) {
          return Rec.Stop(Rec.Conflict(held[i].entry.path));
        }
      }
    }
    phase := Rec.Go;
  }

  /** Revoke one owned create still at its after-state; the session is not disturbed. */
  method RevokeOne(journal: ConfinedFileLease, h: Held, ghost others: seq<Held>, ghost footprint: set<ConfinedFileLease>)
    returns (signal: Io.Signal)
    requires journal.Whole() && h.target.Whole() && journal != h.target && journal !in footprint
    requires forall i :: 0 <= i < |others| ==> Own(others[i]) <= footprint
    modifies journal, journal.machine
    ensures journal.Whole() && ViewsOf(others, footprint) == old(ViewsOf(others, footprint))
    ensures Io.Step(journal.machine.World(), journal.View(), signal)
         == if Rec.ToRevoke(old(ViewOf(h)))
            then SetState(old(journal.machine.World()), old(journal.View()), h.entry.path, Io.Revoked)
            else Io.Step(old(journal.machine.World()), old(journal.View()), Io.Done)
  {
    signal := Io.Done;
    if Rec.OwnsCreate(h.entry) && Io.DigestOf(h.target.content) == h.entry.after {
      signal := SetCreatePublicationState(journal, h.entry.path, Io.Revoked);
    }
  }

  /** Revoke, one journal write each, the owned creates still at their after-state. */
  method RevokeAll(machine: Machine, journal: ConfinedFileLease, held: seq<Held>, ghost footprint: set<ConfinedFileLease>)
    returns (signal: Io.Signal, phase: Rec.Phase)
    requires Session(machine, held, footprint) && journal.machine == machine && journal.Whole()
    requires journal !in footprint
    modifies machine, journal
    ensures journal.Whole()
    ensures (Io.Step(machine.World(), journal.View(), signal), phase)
         == Rec.RevokeAll(old(machine.World()), old(journal.View()), old(ViewsOf(held, footprint)), 0)
  {
    ghost var start, view, obs := machine.World(), journal.View(), ViewsOf(held, footprint);
    for i := 0 to |held|
      invariant journal.Whole() && Session(machine, held, footprint) && ViewsOf(held, footprint) == obs
      invariant Rec.RevokeAll(machine.World(), journal.View(), obs, i) == Rec.RevokeAll(start, view, obs, 0)
    {
      assert Usable(held[i], machine) && ViewOf(held[i]) == obs[i];
      signal := RevokeOne(journal, held[i], held, footprint);
      if signal != Io.Done {
        return signal, Rec.Stop(Rec.Halted(signal));
      }
    }
    return Io.Done, Rec.Go;
  }

  /** Every target and backup must still be what preflight saw. */
  method AssertAll(machine: Machine, held: seq<Held>, ghost footprint: set<ConfinedFileLease>)
    returns (phase: Rec.Phase)
    requires Session(machine, held, footprint)
    modifies machine
    ensures (machine.World(), phase) == Rec.AssertAll(old(machine.World()), old(ViewsOf(held, footprint)), 0)
  {
    ghost var start, obs := machine.World(), ViewsOf(held, footprint);
    for i := 0 to |held|
      invariant Rec.AssertAll(machine.World(), obs, i) == Rec.AssertAll(start, obs, 0)
    {
      var h := held[i];
      assert Usable(h, machine) && ViewOf(h) == obs[i];
      phase := AssertLease(h.target, h.entry.path);
      if phase.Stop? {
        return;
      }
      if h.backup.Some? {
        phase := AssertLease(h.backup.value, h.entry.path);
        if phase.Stop? {
          return;
        }
      }
    }
    phase := Rec.Go;
  }

  /** The read-only checks: journal, fingerprints, journal again. */
  method CheckAll(machine: Machine, journal: ConfinedFileLease, held: seq<Held>, ghost footprint: set<ConfinedFileLease>)
    returns (phase: Rec.Phase)
    requires Session(machine, held, footprint) && journal.machine == machine && journal.Whole()
    modifies machine
    ensures (machine.World(), phase) == Rec.CheckAll(old(machine.World()), old(journal.View()), old(ViewsOf(held, footprint)))
  {
    ghost var obs := ViewsOf(held, footprint);
    phase := AssertLease(journal, Io.JournalPath);
    if phase.Stop? {
      return;
    }
    assert ViewsOf(held, footprint) == obs;
    phase := Recheck(machine, held, footprint);
    if phase.Stop? {
      return;
    }
    phase := AssertLease(journal, Io.JournalPath);
  }

  method Prepare(machine: Machine, journal: ConfinedFileLease, held: seq<Held>, ghost footprint: set<ConfinedFileLease>)
    returns (signal: Io.Signal, phase: Rec.Phase)
    requires Session(machine, held, footprint) && journal.machine == machine && journal.Whole()
    requires journal !in footprint
    modifies machine, journal
    ensures journal.Whole()
    ensures (Io.Step(machine.World(), journal.View(), signal), phase)
         == Rec.Prepare(old(machine.World()), old(journal.View()), old(ViewsOf(held, footprint)))
  {
    phase := CheckAll(machine, journal, held, footprint);
    if phase.Stop? {
      return Io.Done, phase;
    }
    signal, phase := RevokeAll(machine, journal, held, footprint);
  }

  method Settle(machine: Machine, journal: ConfinedFileLease, held: seq<Held>, ghost footprint: set<ConfinedFileLease>)
    returns (reply: Rec.Reply)
    requires Session(machine, held, footprint) && journal.machine == machine && journal.Whole()
    requires journal !in footprint
    modifies machine, journal, footprint
    ensures (machine.World(), reply) == Rec.Settle(old(machine.World()), old(journal.View()), old(ViewsOf(held, footprint)))
  {
    ghost var obs := ViewsOf(held, footprint);
    var phase := AssertAll(machine, held, footprint);
    assert ViewsOf(held, footprint) == obs;
    if phase.Go? {
      phase := AssertLease(journal, Io.JournalPath);
    }
    assert ViewsOf(held, footprint) == obs;
    if phase.Go? {
      phase := RestoreAll(machine, held, footprint);
    }
    if phase.Stop? {
      return phase.reply;
    }
    var removed := journal.Remove();
    match removed {
      case Done => return Rec.Recovered;
      case Raised => return Rec.Conflict(Io.JournalPath);
      case Crashed => return Rec.Died;
    }
  }

  /** Prepare, then settle. */
  method ApplyRecovery(machine: Machine, journal: ConfinedFileLease, held: seq<Held>, ghost footprint: set<ConfinedFileLease>)
    returns (reply: Rec.Reply)
    requires Session(machine, held, footprint) && journal.machine == machine && journal.Whole()
    requires journal !in footprint
    modifies machine, journal, footprint
    ensures (machine.World(), reply) == Rec.ApplyRecovery(old(machine.World()), old(journal.View()), old(ViewsOf(held, footprint)))
  {
    var prepared, phase := Prepare(machine, journal, held, footprint);
    if phase.Stop? {
      return phase.reply;
    }
    reply := Settle(machine, journal, held, footprint);
  }

  method ReplyTo(trouble: Rec.Finding) returns (reply: Rec.Reply)
    requires !trouble.Clear?
    ensures reply == match trouble case Conflicts(p) => Rec.Conflict(p) case Halts(s) => Rec.Halted(s) case Clear(_) => reply
  {
    if trouble.Conflicts? {
      return Rec.Conflict(trouble.path);
    }
    return Rec.Halted(trouble.signal);
  }

  /** From a decoded journal on: observe, then prepare and settle. */
  method RecoverJournal(machine: Machine, journal: ConfinedFileLease, entries: seq<Io.Entry>)
    returns (reply: Rec.Reply)
    requires journal.machine == machine && journal.Whole()
    modifies machine, journal
    ensures (machine.World(), reply) == Rec.RecoverJournal(old(machine.World()), old(journal.View()), entries)
  {
    var held, trouble, footprint := ObserveRecoveryTargets(machine, entries);
    if trouble.Some? {
      reply := ReplyTo(trouble.value);
    } else {
      reply := ApplyRecovery(machine, journal, held, footprint);
    }
  }

  /** `recover`: lease and decode the journal, then work through its entries. */
  method RecoverPendingTransaction(machine: Machine) returns (reply: Rec.Reply)
    modifies machine
    ensures (machine.World(), reply) == Rec.Recover(old(machine.World()))
  {
    var journal, signal := LeaseConfinedFile(machine, Io.JournalPath);
    if signal != Io.Done {
      return Rec.Halted(signal);
    }
    if journal.content == None {
      return Rec.NothingPending;
    }
    if journal.content.value.Raw? || !Decodes(journal.content.value.journal) {
      return Rec.Invalid;
    }
    reply := RecoverJournal(machine, journal, journal.content.value.journal.entries);
  }
}
