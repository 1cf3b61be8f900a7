/** The rehearsal launcher's session allowance: a counter in a file, a lock, and one isolated home. */
module Allowance {
  import opened Options

  const APPROVED_MAX_SESSIONS := 6

  // ----- the ledger file -----

  predicate IsBlank(c: char) { c == ' ' || c == '\t' || c == '\r' }

  /** Non-blank lines in `text`, when the line it continues is already non-blank (`open`) or not. */
  function Count(text: string, open: bool): nat {
    if text == [] then (if open then 1 else 0)
    else if text[0] == '\n' then (if open then 1 else 0) + Count(text[1..], false)
    else Count(text[1..], open || !IsBlank(text[0]))
  }

  function Launched(ledger: string): nat { Count(ledger, false) }

  /** Whether the text ends inside a non-blank line. */
  function EndsOpen(text: string, open: bool): bool {
    if text == [] then open
    else if text[0] == '\n' then EndsOpen(text[1..], false)
    else EndsOpen(text[1..], open || !IsBlank(text[0]))
  }

  predicate Torn(ledger: string) { EndsOpen(ledger, false) }

  /** What an entry is written as, before its newline: one line, starting with a brace. */
  predicate IsEntry(entry: string) {
    entry != [] && entry[0] == '{' && forall i :: 0 <= i < |entry| ==> entry[i] != '\n'
  }

  method LaunchedSoFar(ledger: string) returns (n: nat)
    ensures n == Launched(ledger)
  {
    n := 0;
    var open, rest := false, ledger;
    while rest != []
      invariant n + Count(rest, open) == Launched(ledger)
      decreases |rest|
    {
      if rest[0] == '\n' {
        n := n + if open then 1 else 0;
        open := false;
      } else {
        open := open || !IsBlank(rest[0]);
      }
      rest := rest[1..];
    }
    n := n + if open then 1 else 0;
  }

  lemma {:induction false} CountAppend(a: string, b: string, open: bool)
    ensures Count(a + b, open) + (if EndsOpen(a, open) then 1 else 0) == Count(a, open) + Count(b, EndsOpen(a, open))
    ensures EndsOpen(a + b, open) == EndsOpen(b, EndsOpen(a, open))
  {
    if a == [] {
      assert a + b == b;
    } else {
      assert (a + b)[0] == a[0] && (a + b)[1..] == a[1..] + b;
      CountAppend(a[1..], b, if a[0] == '\n' then false else open || !IsBlank(a[0]));
    }
  }

  lemma {:induction false} OneLine(s: string, open: bool)
    requires forall i :: 0 <= i < |s| ==> s[i] != '\n'
    ensures EndsOpen(s, open) ==> Count(s, open) == 1
    ensures !EndsOpen(s, open) ==> Count(s, open) == 0
    ensures open ==> EndsOpen(s, open)
  {
    if s == [] {
    } else {
      OneLine(s[1..], open || !IsBlank(s[0]));
    }
  }

  /** A whole entry closes its line. It adds one to the count, unless it completed a torn line. */
  lemma EntryAppended(ledger: string, entry: string)
    requires IsEntry(entry)
    ensures !Torn(ledger + entry + "\n")
    ensures Launched(ledger + entry + "\n") == Launched(ledger) + if Torn(ledger) then 0 else 1
  {
    CountAppend(ledger, entry, false);
    CountAppend(ledger + entry, "\n", false);
    OneLine(entry, Torn(ledger));
    OneLine(entry[1..], true);
  }

  /** A torn entry of at least one character leaves the line open, and is counted. */
  lemma EntryTorn(ledger: string, part: string)
    requires part == [] || IsEntry(part)
    ensures part != [] ==> Torn(ledger + part)
    ensures Launched(ledger + part) == Launched(ledger) + if part == [] || Torn(ledger) then 0 else 1
  {
    if part == [] {
      assert ledger + part == ledger;
    } else {
      CountAppend(ledger, part, false);
      OneLine(part, Torn(ledger));
      OneLine(part[1..], true);
    }
  }

  // ----- runs as steps -----

  type Pid = nat

  datatype Phase =
    | Waiting(max: nat)
    | Locked(max: nat)                // holds the lock
    | Swept(max: nat)                 // found no home of a dead run
    | Allowed(left: nat)              // allowance computed, once
    | Housed(home: nat, left: nat)    // home made; between sessions
    | Counted(home: nat, left: nat)   // entry written, session not started
    | Unwinding(home: nat)
    | Leaving                         // home dealt with; about to drop the lock
    | Done
    | Dead

  datatype Event =
    | Arrive(max: nat)
    | TakeLock
    | Sweep(removed: set<nat>)
    | Budget
    | MakeHome(home: nat)
    | GiveUp
    | Append(entry: string)
    | TearAppend(part: string, dies: bool)
    | StartSession
    | SkipSession
    | Discard(deleted: bool)
    | Release(deleted: bool)
    | Crash
    | RemoveStaleLock
    | RemoveLeftover(home: nat)

  datatype System = System(
    lock: Option<Pid>, ledger: string, homes: set<nat>, started: nat, phases: map<Pid, Phase>)

  function PhaseOf(s: System, p: Pid): Phase {
    if p in s.phases then s.phases[p] else Done
  }

  function Moved(s: System, p: Pid, phase: Phase): System {
    s.(phases := s.phases[p := phase])
  }

  /** One step of run `p`, of its crash, or of the operator. A step that does not apply changes nothing. */
  function Next(s: System, p: Pid, event: Event): System {
    var at := PhaseOf(s, p);
    match event
    case Arrive(max) =>
      if p !in s.phases && 1 <= max <= APPROVED_MAX_SESSIONS then Moved(s, p, Waiting(max)) else s
    case TakeLock =>
      if !at.Waiting? then s
      else if s.lock.Some? then Moved(s, p, Done)
      else Moved(s.(lock := Some(p)), p, Locked(at.max))
    case Sweep(removed) =>
      if !at.Locked? then s
      else if s.homes == {} then Moved(s, p, Swept(at.max))
      else Moved(s.(homes := s.homes - removed), p, Leaving)
    case Budget =>
      if !at.Swept? then s
      else if at.max <= Launched(s.ledger) then Moved(s, p, Leaving)
      else Moved(s, p, Allowed(at.max - Launched(s.ledger)))
    case MakeHome(home) =>
      if !at.Allowed? || home in s.homes then s
      else Moved(s.(homes := s.homes + {home}), p, Housed(home, at.left))
    case GiveUp =>
      if at.Housed? || at.Counted? then Moved(s, p, Unwinding(at.home))
      else if at.Locked? || at.Swept? || at.Allowed? then Moved(s, p, Leaving)
      else s
    case Append(entry) =>
      if !at.Housed? || at.left == 0 || !IsEntry(entry) then s
      else Moved(s.(ledger := s.ledger + entry + "\n"), p, Counted(at.home, at.left - 1))
    case TearAppend(part, dies) =>
      if !at.Housed? || at.left == 0 || !(part == [] || IsEntry(part)) then s
      else Moved(s.(ledger := s.ledger + part), p, if dies then Dead else Unwinding(at.home))
    case StartSession =>
      if !at.Counted? then s else Moved(s.(started := s.started + 1), p, Housed(at.home, at.left))
    case SkipSession =>
      if !at.Counted? then s else Moved(s, p, Housed(at.home, at.left))
    case Discard(deleted) =>
      if !at.Unwinding? then s
      else Moved(if deleted then s.(homes := s.homes - {at.home}) else s, p, Leaving)
    case Release(deleted) =>
      if !at.Leaving? then s else Moved(if deleted then s.(lock := None) else s, p, Done)
    case Crash =>
      if p in s.phases then Moved(s, p, Dead) else s
    case RemoveStaleLock =>
      // The operator's rule: the run that took the lock is gone.
      if s.lock == Some(p) && (at.Dead? || at.Done?) then s.(lock := None) else s
    case RemoveLeftover(home) =>
      if s.lock == None then s.(homes := s.homes - {home}) else s
  }

  function Run(s: System, schedule: seq<(Pid, Event)>): System
    decreases |schedule|
  {
    if schedule == [] then s else Run(Next(s, schedule[0].0, schedule[0].1), schedule[1..])
  }

  // ----- safety -----

  predicate Active(phase: Phase) {
    !phase.Waiting? && !phase.Done? && !phase.Dead?
  }

  /** The phases in which part of the allowance is still in hand. */
  function InHand(phase: Phase): nat {
    if phase.Allowed? || phase.Housed? || phase.Counted? then phase.left else 0
  }

  predicate HomesFit(homes: set<nat>, phase: Phase) {
    match phase
    case Swept(_) => homes == {}
    case Allowed(_) => homes == {}
    case Housed(home, _) => homes == {home}
    case Counted(home, _) => homes == {home}
    case Unwinding(home) => homes == {home}
    case _ => true
  }

  function Holder(s: System): Phase {
    if s.lock.Some? then PhaseOf(s, s.lock.value) else Done
  }

  /** Sessions started, one counted and not yet started, and one torn entry: all are in the ledger. */
  predicate Counts(s: System) {
    && s.started + (if Holder(s).Counted? then 1 else 0) + (if Torn(s.ledger) then 1 else 0) <= Launched(s.ledger)
    && Launched(s.ledger) + InHand(Holder(s)) <= APPROVED_MAX_SESSIONS
  }

  ghost predicate Safe(s: System) {
    && (forall p :: p in s.phases && Active(s.phases[p]) ==> s.lock == Some(p))
    && (s.lock.Some? ==> s.lock.value in s.phases && !s.phases[s.lock.value].Waiting?)
    && (forall p :: p in s.phases && (s.phases[p].Waiting? || s.phases[p].Locked? || s.phases[p].Swept?) ==>
          s.phases[p].max <= APPROVED_MAX_SESSIONS)
    && (forall h, k :: h in s.homes && k in s.homes ==> h == k)
    && HomesFit(s.homes, Holder(s))
    && Counts(s)
  }

  function Initial(): System {
    System(None, "", {}, 0, map[])
  }

  lemma AppendKeepsSafe(s: System, p: Pid, entry: string)
    requires Safe(s)
    ensures Safe(Next(s, p, Append(entry)))
  {
    if IsEntry(entry) {
      EntryAppended(s.ledger, entry);
    }
  }

  lemma TearKeepsSafe(s: System, p: Pid, part: string, dies: bool)
    requires Safe(s)
    ensures Safe(Next(s, p, TearAppend(part, dies)))
  {
    if part == [] || IsEntry(part) {
      EntryTorn(s.ledger, part);
      assert s.ledger + [] == s.ledger;
    }
  }

  /** The steps that touch the lock. */
  predicate OnLock(event: Event) {
    event.TakeLock? || event.Release? || event.RemoveStaleLock? || event.Crash? || event.Arrive?
  }

  lemma LockStepKeepsSafe(s: System, p: Pid, event: Event)
    requires Safe(s) && OnLock(event)
    ensures Safe(Next(s, p, event))
  {
  }

  /** The steps that touch the homes. */
  predicate OnHomes(event: Event) {
    event.Sweep? || event.MakeHome? || event.Discard? || event.RemoveLeftover?
  }

  lemma HomeStepKeepsSafe(s: System, p: Pid, event: Event)
    requires Safe(s) && OnHomes(event)
    ensures Safe(Next(s, p, event))
  {
  }

  lemma NextKeepsSafe(s: System, p: Pid, event: Event)
    requires Safe(s)
    ensures Safe(Next(s, p, event))
  {
    if OnLock(event) {
      LockStepKeepsSafe(s, p, event);
    } else if OnHomes(event) {
      HomeStepKeepsSafe(s, p, event);
    } else {
      match event {
        case Append(entry) => AppendKeepsSafe(s, p, entry);
        case TearAppend(part, dies) => TearKeepsSafe(s, p, part, dies);
        case _ =>
      }
    }
  }

  lemma {:induction false} RunKeepsSafe(s: System, schedule: seq<(Pid, Event)>)
    requires Safe(s)
    ensures Safe(Run(s, schedule))
    decreases |schedule|
  {
    if schedule == [] {
    } else {
      NextKeepsSafe(s, schedule[0].0, schedule[0].1);
      RunKeepsSafe(Next(s, schedule[0].0, schedule[0].1), schedule[1..]);
    }
  }

  /** However runs interleave and wherever they die: the sessions ever started are at most the ledger's
      lines, those are at most six, and at most one isolated home lies beside the key. */
  lemma AllowanceHolds(schedule: seq<(Pid, Event)>)
    ensures
      var s := Run(Initial(), schedule);
      s.started <= Launched(s.ledger) <= APPROVED_MAX_SESSIONS && |s.homes| <= 1
  {
    var s := Run(Initial(), schedule);
    RunKeepsSafe(Initial(), schedule);
    if s.homes != {} {
      var h :| h in s.homes;
      assert s.homes == {h};
    }
  }

  /** While a run is in its home, no step of another run, and nothing the operator may do, removes it. */
  lemma LiveHomeStays(s: System, p: Pid, q: Pid, event: Event)
    requires Safe(s) && p != q
    requires PhaseOf(s, p).Housed? || PhaseOf(s, p).Counted?
    ensures PhaseOf(s, p).home in Next(s, q, event).homes && PhaseOf(Next(s, q, event), p) == PhaseOf(s, p)
  {
    assert s.lock == Some(p);
  }

  /** Dropping the lock of a live run would let the next one delete the home it is using. */
  lemma LiveLockMatters(s: System, p: Pid, q: Pid, max: nat)
    requires Safe(s) && p != q && PhaseOf(s, p).Housed? && PhaseOf(s, q) == Waiting(max)
    ensures
      var dropped := s.(lock := None);
      var swept := Run(dropped, [(q, TakeLock), (q, Sweep({PhaseOf(s, p).home}))]);
      PhaseOf(swept, p) == PhaseOf(s, p) && PhaseOf(s, p).home !in swept.homes
  {
    var home := PhaseOf(s, p).home;
    var dropped := s.(lock := None);
    var first: (Pid, Event), second: (Pid, Event) := (q, TakeLock), (q, Sweep({home}));
    var taken := Next(dropped, q, TakeLock);
    assert [first, second][1..] == [second] && [second][1..] == [];
    assert Run(dropped, [first, second]) == Run(taken, [second]) == Next(taken, q, Sweep({home}));
  }
}
