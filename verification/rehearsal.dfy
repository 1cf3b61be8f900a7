/** One rehearsal, as the launcher runs it beside the key file: every move is a step of the protocol. */
module Rehearsal {
  import opened Options
  import opened Allowance

  /** What the world does to one task: its copy, its ledger entry, its session. */
  datatype Fate =
    | CopyFails
    | AppendFails(part: string)
    | NotStarted(entry: string)
    | Ran(entry: string, failed: bool)

  /** What the world does to the run itself. */
  datatype World = World(swept: set<nat>, home: nat, prepared: bool, homeDeleted: bool, lockDeleted: bool)

  datatype Outcome = Refused | Finished | Stopped

  lemma {:induction false} OneMore(s: System, schedule: seq<(Pid, Event)>, p: Pid, event: Event)
    ensures Run(s, schedule + [(p, event)]) == Next(Run(s, schedule), p, event)
    decreases |schedule|
  {
    var step: (Pid, Event) := (p, event);
    if schedule == [] {
      assert schedule + [step] == [step];
    } else {
      assert (schedule + [step])[0] == schedule[0] && (schedule + [step])[1..] == schedule[1..] + [step];
      OneMore(Next(s, schedule[0].0, schedule[0].1), schedule[1..], p, event);
    }
  }

  ghost predicate Sensible(tasks: seq<Fate>) {
    forall i :: 0 <= i < |tasks| ==>
      match tasks[i]
      case CopyFails => true
      case AppendFails(part) => part == [] || IsEntry(part)
      case NotStarted(entry) => IsEntry(entry)
      case Ran(entry, _) => IsEntry(entry)
  }

  // ----- how far a run gets -----

  /** The ledger lines of tasks that ran. */
  function Lines(tasks: seq<Fate>): string
    requires forall i :: 0 <= i < |tasks| ==> tasks[i].Ran?
  {
    if tasks == [] then "" else Lines(tasks[..|tasks| - 1]) + tasks[|tasks| - 1].entry + "\n"
  }

  /** What the task that stops a run leaves in the ledger. */
  function LastLine(stopper: Fate): string {
    match stopper
    case CopyFails => ""
    case AppendFails(part) => part
    case NotStarted(entry) => entry + "\n"
    case Ran(entry, _) => entry + "\n"
  }

  lemma LinesOneMore(tasks: seq<Fate>, n: nat, before: string)
    requires n < |tasks| && forall i :: 0 <= i <= n ==> tasks[i].Ran?
    ensures before + Lines(tasks[..n + 1]) == before + Lines(tasks[..n]) + LastLine(tasks[n])
  {
    assert tasks[..n + 1][..n] == tasks[..n];
  }

  /** The first `done` tasks ran well; then the tasks or the allowance ran out, or the next one stopped the
      run.  Every task begun has its line, and every session started was of a task with a whole line. */
  predicate Went(tasks: seq<Fate>, allowance: nat, done: nat, outcome: Outcome,
                 before: string, after: string, startedBefore: nat, startedAfter: nat)
  {
    && done <= |tasks| && done <= allowance && (forall i :: 0 <= i < done ==> tasks[i].Ran? && !tasks[i].failed)
    && if done == |tasks| || done == allowance then
         outcome == Finished && after == before + Lines(tasks[..done]) && startedAfter == startedBefore + done
       else
         && !(tasks[done].Ran? && !tasks[done].failed)
         && outcome == (if tasks[done].CopyFails? || tasks[done].AppendFails? then Refused else Stopped)
         && after == before + Lines(tasks[..done]) + LastLine(tasks[done])
         && startedAfter == startedBefore + done + if tasks[done].Ran? then 1 else 0
  }

  /** Run `p` alone, step by step, leads from `origin` to `sys`. */
  ghost predicate By(origin: System, sys: System, schedule: seq<(Pid, Event)>, p: Pid) {
    sys == Run(origin, schedule) && forall k :: 0 <= k < |schedule| ==> schedule[k].0 == p
  }

  /** The files beside the key. `started` is not a file: it counts the sessions ever started. */
  class KeyDirectory {
    var lock: Option<Pid>
    var ledger: string
    var homes: set<nat>
    var started: nat

    constructor ()
      ensures lock == None && ledger == "" && homes == {} && started == 0
    {
      lock, ledger, homes, started := None, "", {}, 0;
    }

    ghost function View(phases: map<Pid, Phase>): System
      reads this
    {
      System(lock, ledger, homes, started, phases)
    }

    /** One task, as far as it gets: every file it touches moves along a step of the protocol. */
    method RunTask(p: Pid, task: Fate, home: nat, ghost left: nat, ghost origin: System, ghost before: System, ghost begun: seq<(Pid, Event)>)
      returns (outcome: Outcome, ghost sys: System, ghost schedule: seq<(Pid, Event)>)
      requires Sensible([task]) && left > 0 && View(before.phases) == before && By(origin, before, begun, p)
      requires p in before.phases && before.phases[p] == Housed(home, left)
      modifies this`ledger, this`started
      ensures View(sys.phases) == sys && By(origin, sys, schedule, p) && p in sys.phases
      ensures sys.phases[p] == Unwinding(home) || (sys.phases[p].Housed? && sys.phases[p].home == home)
      ensures outcome.Finished? <==> task.Ran? && !task.failed
      ensures outcome.Finished? ==> sys.phases[p] == Housed(home, left - 1)
      ensures outcome.Refused? <==> task.CopyFails? || task.AppendFails?
      ensures ledger == old(ledger) + LastLine(task) && started == old(started) + if task.Ran? then 1 else 0
    {
      sys, schedule := before, begun;
      assert [task][0] == task;
      match task {
        case CopyFails =>
          outcome := Refused;
        case AppendFails(part) =>
          ledger := ledger + part;
          sys, schedule := Advance(origin, sys, schedule, p, TearAppend(part, false));
          outcome := Refused;
        case NotStarted(entry) =>
          ledger := ledger + entry + "\n";
          sys, schedule := Advance(origin, sys, schedule, p, Append(entry));
          sys, schedule := Advance(origin, sys, schedule, p, SkipSession);
          outcome := Stopped;
        case Ran(entry, failed) =>
          ledger := ledger + entry + "\n";
          sys, schedule := Advance(origin, sys, schedule, p, Append(entry));
          started := started + 1;
          sys, schedule := Advance(origin, sys, schedule, p, StartSession);
          outcome := if failed then Stopped else Finished;
      }
    }

    /** The tasks in order, as far as the allowance goes and until one stops the run. */
    method RunTasks(p: Pid, allowance: nat, tasks: seq<Fate>, home: nat, ghost origin: System, ghost before: System, ghost begun: seq<(Pid, Event)>)
      returns (outcome: Outcome, ghost sys: System, ghost schedule: seq<(Pid, Event)>, ghost done: nat)
      requires Sensible(tasks) && View(before.phases) == before && By(origin, before, begun, p)
      requires p in before.phases && before.phases[p] == Housed(home, allowance)
      modifies this`ledger, this`started
      ensures View(sys.phases) == sys && By(origin, sys, schedule, p)
      ensures p in sys.phases && (sys.phases[p] == Unwinding(home) || (sys.phases[p].Housed? && sys.phases[p].home == home))
      ensures Went(tasks, allowance, done, outcome, old(ledger), ledger, old(started), started)
    {
      sys, schedule := before, begun;
      outcome := Finished;
      var i := 0;
      done := 0;
      assert old(ledger) + Lines(tasks[..0]) == old(ledger);
      while i < |tasks| && i < allowance && outcome.Finished?
        invariant done <= i <= |tasks| && i <= allowance
        invariant View(sys.phases) == sys && By(origin, sys, schedule, p) && p in sys.phases
        invariant forall k :: 0 <= k < done ==> tasks[k].Ran? && !tasks[k].failed
        invariant outcome.Finished? ==>
          && done == i && sys.phases[p] == Housed(home, allowance - i)
          && ledger == old(ledger) + Lines(tasks[..i]) && started == old(started) + i
        invariant sys.phases[p] == Unwinding(home) || (sys.phases[p].Housed? && sys.phases[p].home == home)
        invariant !outcome.Finished? ==> done < i && Went(tasks, allowance, done, outcome, old(ledger), ledger, old(started), started)
      {
        outcome, sys, schedule := RunTask(p, tasks[i], home, allowance - i, origin, sys, schedule);
        i := i + 1;
        if outcome.Finished? {
          LinesOneMore(tasks, done, old(ledger));
          done := i;
        }
      }
    }

    /** Drop the lock, if it can be dropped. */
    method Leave(p: Pid, deleted: bool, ghost origin: System, ghost before: System, ghost begun: seq<(Pid, Event)>)
      returns (ghost sys: System, ghost schedule: seq<(Pid, Event)>)
      requires View(before.phases) == before && By(origin, before, begun, p)
      requires p in before.phases && before.phases[p].Leaving?
      modifies this`lock
      ensures lock == if deleted then None else old(lock)
      ensures View(sys.phases) == sys && By(origin, sys, schedule, p) && PhaseOf(sys, p).Done?
    {
      sys, schedule := Advance(origin, before, begun, p, Event.Release(deleted));
      lock := if deleted then None else lock;
    }

    /** Delete the home, if it can be deleted, then drop the lock. */
    method Unwind(p: Pid, world: World, ghost origin: System, ghost before: System, ghost begun: seq<(Pid, Event)>)
      returns (ghost sys: System, ghost schedule: seq<(Pid, Event)>)
      requires View(before.phases) == before && By(origin, before, begun, p) && p in before.phases
      requires before.phases[p] == Unwinding(world.home) || (before.phases[p].Housed? && before.phases[p].home == world.home)
      modifies this`lock, this`homes
      ensures lock == if world.lockDeleted then None else old(lock)
      ensures homes == if world.homeDeleted then old(homes) - {world.home} else old(homes)
      ensures View(sys.phases) == sys && By(origin, sys, schedule, p) && PhaseOf(sys, p).Done?
    {
      sys, schedule := Advance(origin, before, begun, p, GiveUp);
      homes := if world.homeDeleted then homes - {world.home} else homes;
      sys, schedule := Advance(origin, sys, schedule, p, Discard(world.homeDeleted));
      sys, schedule := Leave(p, world.lockDeleted, origin, sys, schedule);
    }

    /** Run what is left of the allowance. Whatever the world does, the directory ends where steps of
        the protocol lead, and the run has left it. */
    method RunRehearsal(p: Pid, max: int, tasks: seq<Fate>, world: World)
      returns (outcome: Outcome, ghost sys: System, ghost schedule: seq<(Pid, Event)>, ghost done: nat)
      requires Sensible(tasks) && world.home !in homes
      modifies this
      ensures View(sys.phases) == sys && By(old(View(map[])), sys, schedule, p) && PhaseOf(sys, p).Done?
      ensures !(1 <= max <= APPROVED_MAX_SESSIONS) || old(lock).Some? ==> outcome.Refused? && View(map[]) == old(View(map[]))
      ensures 1 <= max <= APPROVED_MAX_SESSIONS && old(lock).None? ==> lock == if world.lockDeleted then None else Some(p)
      ensures 1 <= max <= APPROVED_MAX_SESSIONS && old(lock).None? && old(homes) != {} ==>
        outcome.Refused? && homes == old(homes) - world.swept && ledger == old(ledger) && started == old(started)
      ensures 1 <= max <= APPROVED_MAX_SESSIONS && old(lock).None? && old(homes) == {} ==>
        if max <= Launched(old(ledger)) then
          outcome.Refused? && homes == {} && ledger == old(ledger) && started == old(started)
        else
          && homes == (if world.homeDeleted then {} else {world.home})
          && if world.prepared then
               Went(tasks, max - Launched(old(ledger)), done, outcome, old(ledger), ledger, old(started), started)
             else outcome.Refused? && ledger == old(ledger) && started == old(started)
    {
      ghost var origin := View(map[]);
      sys, schedule := origin, [];
      if !(1 <= max <= APPROVED_MAX_SESSIONS) {
        return Refused, sys, schedule, 0;
      }
      sys, schedule := Advance(origin, sys, schedule, p, Arrive(max));
      sys, schedule := Advance(origin, sys, schedule, p, TakeLock);
      if lock.Some? {
        return Refused, sys, schedule, 0;
      }
      lock := Some(p);
      var leftovers := homes;
      sys, schedule := Advance(origin, sys, schedule, p, Sweep(world.swept));
      if leftovers != {} {
        homes := homes - world.swept;
        sys, schedule := Leave(p, world.lockDeleted, origin, sys, schedule);
        return Refused, sys, schedule, 0;
      }
      var spent := LaunchedSoFar(ledger);
      sys, schedule := Advance(origin, sys, schedule, p, Budget);
      if max - spent <= 0 {
        sys, schedule := Leave(p, world.lockDeleted, origin, sys, schedule);
        return Refused, sys, schedule, 0;
      }
      homes := homes + {world.home};
      sys, schedule := Advance(origin, sys, schedule, p, MakeHome(world.home));
      outcome, done := Refused, 0;
      if world.prepared {
        outcome, sys, schedule, done := RunTasks(p, max - spent, tasks, world.home, origin, sys, schedule);
      }
      sys, schedule := Unwind(p, world, origin, sys, schedule);
    }

    /** The protocol takes one more step. */
    static ghost method Advance(origin: System, sys: System, schedule: seq<(Pid, Event)>, p: Pid, event: Event)
      returns (next: System, longer: seq<(Pid, Event)>)
      requires By(origin, sys, schedule, p)
      ensures next == Next(sys, p, event) && By(origin, next, longer, p)
    {
      OneMore(origin, schedule, p, event);
      next, longer := Next(sys, p, event), schedule + [(p, event)];
    }
  }
}
