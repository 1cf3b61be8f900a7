/** The holdout ledger: spending a corpus at most once, across processes. */
module Holdout {
  import opened Options
  import opened Contracts

  datatype Receipt = Receipt(
    consumedAt: string, protocolId: string, protocolSeal: string, epoch: string,
    verdictSeal: string, measurementSeal: string)

  predicate IsSealText(s: string) {
    1 <= |s| <= 200
  }

  predicate ValidReceipt(r: Receipt) {
    && IsTimestamp(r.consumedAt) && IsIdentifier(r.protocolId) && IsIdentifier(r.epoch)
    && IsSealText(r.protocolSeal) && IsSealText(r.verdictSeal) && IsSealText(r.measurementSeal)
  }

  /** The ledger file: not there, not a ledger, or a mapping from corpus seals to receipts. */
  datatype File = Missing | Malformed | Entries(entries: map<string, Receipt>)

  datatype Refusal = LockTimeout | Unreadable | AlreadyConsumed | ReceiptInvalid | NoReceipt | Mismatch | Interrupted

  datatype Result<+T> = Ok(value: T) | Err(refusal: Refusal)

  /** An absent file is an empty ledger; anything unreadable is never read as "unused". */
  function Read(f: File): Result<map<string, Receipt>> {
    match f
    case Missing => Ok(map[])
    case Malformed => Err(Unreadable)
    case Entries(m) => Ok(m)
  }

  /** Decide on what was read: refuse a second spend, else the ledger with one more entry. */
  function Decide(m: map<string, Receipt>, corpus: string, r: Receipt): Result<map<string, Receipt>> {
    if corpus in m then Err(AlreadyConsumed)
    else if !ValidReceipt(r) then Err(ReceiptInvalid)
    else Ok(m[corpus := r])
  }

  function Consumed(f: File, corpus: string, r: Receipt): (File, Result<()>) {
    match Read(f)
    case Err(e) => (f, Err(e))
    case Ok(m) =>
      match Decide(m, corpus, r)
      case Err(e) => (f, Err(e))
      case Ok(m1) => (Entries(m1), Ok(()))
  }

  function Required(f: File, corpus: string, protocolSeal: string, verdictSeal: string, measurementSeal: string, epoch: string)
    : Result<Receipt>
  {
    match Read(f)
    case Err(e) => Err(e)
    case Ok(m) =>
      if corpus !in m then Err(NoReceipt)
      else if m[corpus].protocolSeal != protocolSeal || m[corpus].verdictSeal != verdictSeal
              || m[corpus].measurementSeal != measurementSeal || m[corpus].epoch != epoch
      then Err(Mismatch)
      else Ok(m[corpus])
  }

  /** What is on file; a file that is not there, or no ledger, holds nothing. */
  function Ledger(f: File): map<string, Receipt> {
    if f.Entries? then f.entries else map[]
  }

  /** A spend goes through exactly when the file can be read, the corpus is not on file and the
      receipt is well formed; it adds that one receipt, and any refusal leaves the file alone. */
  predicate SpendDecided(before: File, corpus: string, r: Receipt, after: File, result: Result<()>) {
    && (result.Ok? <==> !before.Malformed? && corpus !in Ledger(before) && ValidReceipt(r))
    && (result == Err(Unreadable) <==> before.Malformed?)
    && (result == Err(AlreadyConsumed) <==> corpus in Ledger(before))
    && (result == Err(ReceiptInvalid) <==> !before.Malformed? && corpus !in Ledger(before) && !ValidReceipt(r))
    && after == if result.Ok? then Entries(Ledger(before)[corpus := r]) else before
  }

  lemma ConsumedDecides(f: File, corpus: string, r: Receipt)
    ensures var (f1, result) := Consumed(f, corpus, r);
      SpendDecided(f, corpus, r, f1, result)
  {
  }

  /** A requirement is met exactly by a receipt on file that binds the same protocol, verdict,
      measurements and epoch. */
  lemma RequiredDecides(f: File, corpus: string, protocolSeal: string, verdictSeal: string, measurementSeal: string, epoch: string)
    ensures var result := Required(f, corpus, protocolSeal, verdictSeal, measurementSeal, epoch);
      && (forall r :: result == Ok(r) <==>
            corpus in Ledger(f) && Ledger(f)[corpus] == r && r.protocolSeal == protocolSeal
            && r.verdictSeal == verdictSeal && r.measurementSeal == measurementSeal && r.epoch == epoch)
      && (result == Err(Unreadable) <==> f.Malformed?)
      && (result == Err(NoReceipt) <==> !f.Malformed? && corpus !in Ledger(f))
      && (result.Err? ==> result.refusal in {Unreadable, NoReceipt, Mismatch})
  {
  }

  /** What was just spent can be required by what it was spent with, and with nothing else. */
  lemma SpentIsRequired(f: File, corpus: string, r: Receipt, protocolSeal: string, verdictSeal: string, measurementSeal: string, epoch: string)
    requires Consumed(f, corpus, r).1.Ok?
    ensures var result := Required(Consumed(f, corpus, r).0, corpus, protocolSeal, verdictSeal, measurementSeal, epoch);
      if (protocolSeal, verdictSeal, measurementSeal, epoch) == (r.protocolSeal, r.verdictSeal, r.measurementSeal, r.epoch)
      then result == Ok(r) else result == Err(Mismatch)
  {
  }

  /** The ledger as one process uses it while no other interferes: a lock file and a file. */
  class HoldoutLedger {
    var lockFile: bool
    var file: File

    constructor (file: File)
      ensures !lockFile && this.file == file
    {
      lockFile, this.file := false, file;
    }

    /** `O_CREAT | O_EXCL`: the creation succeeds for exactly one process. */
    method Acquire() returns (held: bool)
      modifies this`lockFile
      ensures held == !old(lockFile) && lockFile
    {
      held := !lockFile;
      lockFile := true;
    }

    method Consume(corpus: string, r: Receipt) returns (result: Result<()>)
      modifies this
      ensures lockFile == old(lockFile)
      ensures if old(lockFile) then file == old(file) && result == Err(LockTimeout)
              else (file, result) == Consumed(old(file), corpus, r)
      ensures !old(lockFile) ==> SpendDecided(old(file), corpus, r, file, result)
    {
      var held := Acquire();
      if !held {
        return Err(LockTimeout);
      }
      var read := Read(file);
      if read.Err? {
        result := Err(read.refusal);
      } else {
        var decided := Decide(read.value, corpus, r);
        if decided.Err? {
          result := Err(decided.refusal);
        } else {
          file := Entries(decided.value);
          result := Ok(());
        }
      }
      lockFile := false;
      ConsumedDecides(old(file), corpus, r);
    }

    method RequireConsumption(corpus: string, protocolSeal: string, verdictSeal: string, measurementSeal: string, epoch: string)
      returns (result: Result<Receipt>)
      modifies this`lockFile
      ensures lockFile == old(lockFile)
      ensures result == if old(lockFile) then Err(LockTimeout)
                        else Required(file, corpus, protocolSeal, verdictSeal, measurementSeal, epoch)
    {
      var held := Acquire();
      if !held {
        return Err(LockTimeout);
      }
      var read := Read(file);
      lockFile := false;
      if read.Err? {
        return Err(read.refusal);
      }
      if corpus !in read.value {
        return Err(NoReceipt);
      }
      var receipt := read.value[corpus];
      if receipt.protocolSeal != protocolSeal || receipt.verdictSeal != verdictSeal
         || receipt.measurementSeal != measurementSeal || receipt.epoch != epoch {
        return Err(Mismatch);
      }
      result := Ok(receipt);
    }
  }

  // ----- any number of processes, one step at a time -----

  datatype Request = Spend(corpus: string, receipt: Receipt) | Look(corpus: string)

  /** Where a process stands; from `Locked` to `Leaving` it holds the lock. */
  datatype Phase =
    | Waiting
    | Locked
    | Loaded(read: map<string, Receipt>)
    | Decided(next: map<string, Receipt>)
    | TempWritten(next: map<string, Receipt>)
    | Replaced
    | Leaving(result: Result<Option<Receipt>>)
    | Returned(result: Result<Option<Receipt>>)
    | Dead

  datatype Proc = Proc(request: Request, phase: Phase)

  datatype System = System(lock: bool, file: File, procs: map<nat, Proc>)

  /** `Fail` is an exception while the lock is held; `late` if the file was already replaced. */
  datatype Step =
    | Begin(pid: nat, request: Request)
    | Acquire(pid: nat)
    | TimeOut(pid: nat)
    | Load(pid: nat)
    | Choose(pid: nat)
    | WriteTemp(pid: nat)
    | ReplaceFile(pid: nat)
    | Fail(pid: nat)
    | Release(pid: nat)
    | Crash(pid: nat)

  function Moved(s: System, pid: nat, phase: Phase): System
    requires pid in s.procs
  {
    s.(procs := s.procs[pid := s.procs[pid].(phase := phase)])
  }

  predicate Holding(p: Phase) {
    p.Locked? || p.Loaded? || p.Decided? || p.TempWritten? || p.Replaced? || p.Leaving?
  }

  function LoadedPhase(f: File): Phase {
    match Read(f)
    case Err(e) => Leaving(Err(e))
    case Ok(m) => Loaded(m)
  }

  function ChosenPhase(m: map<string, Receipt>, request: Request): Phase {
    match request
    case Look(corpus) => Leaving(Ok(if corpus in m then Some(m[corpus]) else None))
    case Spend(corpus, r) =>
      match Decide(m, corpus, r)
      case Err(e) => Leaving(Err(e))
      case Ok(next) => Decided(next)
  }

  /** One atomic step; a step whose process is not in the right phase does nothing. */
  function Next(s: System, step: Step): System {
    if step.Begin? then
      if step.pid in s.procs then s else s.(procs := s.procs[step.pid := Proc(step.request, Waiting)])
    else if step.pid !in s.procs then s
    else
      var p := s.procs[step.pid];
      match step
      case Begin(_, _) => s
      case Acquire(pid) => if p.phase.Waiting? && !s.lock then Moved(s, pid, Locked).(lock := true) else s
      case TimeOut(pid) => if p.phase.Waiting? && s.lock then Moved(s, pid, Returned(Err(LockTimeout))) else s
      case Load(pid) => if p.phase.Locked? then Moved(s, pid, LoadedPhase(s.file)) else s
      case Choose(pid) => if p.phase.Loaded? then Moved(s, pid, ChosenPhase(p.phase.read, p.request)) else s
      case WriteTemp(pid) => if p.phase.Decided? then Moved(s, pid, TempWritten(p.phase.next)) else s
      case ReplaceFile(pid) =>
        if p.phase.TempWritten? then Moved(s, pid, Replaced).(file := Entries(p.phase.next)) else s
      case Fail(pid) => if Holding(p.phase) then Moved(s, pid, Leaving(Err(Interrupted))) else s
      case Release(pid) =>
        if p.phase.Leaving? then Moved(s, pid, Returned(p.phase.result)).(lock := false)
        else if p.phase.Replaced? then Moved(s, pid, Returned(Ok(None))).(lock := false)
        else s
      case Crash(pid) => if p.phase.Returned? then s else Moved(s, pid, Dead)
  }

  function Run(s: System, steps: seq<Step>): System
    decreases |steps|
  {
    if steps == [] then s else Run(Next(s, steps[0]), steps[1..])
  }

  /** A consume that returned to its caller without an error. */
  predicate Succeeded(p: Proc) {
    p.request.Spend? && p.phase.Returned? && p.phase.result.Ok?
  }

  /** It has put its receipt into the file and nothing has gone wrong since. */
  predicate Spent(p: Proc) {
    p.request.Spend? && (p.phase.Replaced? || Succeeded(p))
  }

  predicate PhaseConsistent(s: System, p: Proc) {
    match p.phase
    case Loaded(m) => !s.file.Malformed? && m == Ledger(s.file)
    case Decided(m) => AboutToSpend(s, p, m)
    case TempWritten(m) => AboutToSpend(s, p, m)
    case Replaced => p.request.Spend?
    case Leaving(r) => p.request.Spend? ==> r.Err?
    case _ => true
  }

  predicate AboutToSpend(s: System, p: Proc, m: map<string, Receipt>) {
    && p.request.Spend? && !s.file.Malformed? && p.request.corpus !in Ledger(s.file)
    && m == Ledger(s.file)[p.request.corpus := p.request.receipt]
  }

  /** Only a process under the lock is past acquisition, and only one at a time. */
  ghost predicate Exclusive(s: System) {
    && (forall p :: p in s.procs && Holding(s.procs[p].phase) ==> s.lock)
    && (forall p, q :: p in s.procs && q in s.procs && Holding(s.procs[p].phase) && Holding(s.procs[q].phase) ==> p == q)
  }

  predicate OnFile(s: System, p: Proc) {
    Spent(p) ==> p.request.corpus in Ledger(s.file) && Ledger(s.file)[p.request.corpus] == p.request.receipt
  }

  /** Snapshots agree with the file, and every spent corpus is on file. */
  ghost predicate Faithful(s: System) {
    forall p :: p in s.procs ==> PhaseConsistent(s, s.procs[p]) && OnFile(s, s.procs[p])
  }

  ghost predicate SpentOnce(s: System) {
    forall p, q :: p in s.procs && q in s.procs && p != q && Spent(s.procs[p]) && Spent(s.procs[q]) ==>
      s.procs[p].request.corpus != s.procs[q].request.corpus
  }

  ghost predicate Safe(s: System) {
    Exclusive(s) && Faithful(s) && SpentOnce(s)
  }

  /** No entry is ever lost or changed. */
  predicate Grows(f: File, g: File) {
    && (f.Malformed? <==> g.Malformed?)
    && forall c :: c in Ledger(f) ==> c in Ledger(g) && Ledger(g)[c] == Ledger(f)[c]
  }

  /** A move of one process that leaves the file alone. */
  lemma MoveKeepsSafe(s: System, pid: nat, phase: Phase, lock: bool)
    requires Safe(s) && pid in s.procs
    requires var p := s.procs[pid];
      && PhaseConsistent(s, p.(phase := phase)) && (Spent(p.(phase := phase)) ==> Spent(p))
      && (Holding(phase) ==> lock && (Holding(p.phase) || !s.lock))
      && (lock == s.lock || (Holding(phase) && lock) || (Holding(p.phase) && !lock))
    ensures Safe(Moved(s, pid, phase).(lock := lock))
  {
    var s1 := Moved(s, pid, phase).(lock := lock);
    forall q | q in s1.procs
      ensures PhaseConsistent(s1, s1.procs[q]) && OnFile(s1, s1.procs[q])
      ensures q != pid ==> s1.procs[q] == s.procs[q]
    {
      assert PhaseConsistent(s, s.procs[q]) && OnFile(s, s.procs[q]);
    }
  }

  /** The one step that changes the file: its holder's snapshot is still the file, so the
      new file is the old one with the holder's corpus added. */
  lemma ReplaceKeepsSafe(s: System, pid: nat)
    requires Safe(s) && pid in s.procs && s.procs[pid].phase.TempWritten?
    ensures Safe(Next(s, ReplaceFile(pid))) && Grows(s.file, Next(s, ReplaceFile(pid)).file)
  {
  }

  lemma NextKeepsSafe(s: System, step: Step)
    requires Safe(s)
    ensures Safe(Next(s, step)) && Grows(s.file, Next(s, step).file)
  {
    if step.Begin? {
      var s1 := Next(s, step);
      forall q | q in s1.procs ensures PhaseConsistent(s1, s1.procs[q]) && OnFile(s1, s1.procs[q]) {
        assert q in s.procs ==> PhaseConsistent(s, s.procs[q]) && OnFile(s, s.procs[q]);
      }
    } else if step.pid in s.procs {
      var pid, p := step.pid, s.procs[step.pid];
      assert PhaseConsistent(s, p);
      var s1 := Next(s, step);
      if step.ReplaceFile? && p.phase.TempWritten? {
        ReplaceKeepsSafe(s, pid);
      } else if s1 != s {
        MoveKeepsSafe(s, pid, s1.procs[pid].phase, s1.lock);
        assert s1 == Moved(s, pid, s1.procs[pid].phase).(lock := s1.lock);
      }
    }
  }

  lemma {:induction false} RunKeepsSafe(s: System, steps: seq<Step>)
    requires Safe(s)
    ensures Safe(Run(s, steps)) && Grows(s.file, Run(s, steps).file)
    decreases |steps|
  {
    if steps == [] {
    } else {
      NextKeepsSafe(s, steps[0]);
      RunKeepsSafe(Next(s, steps[0]), steps[1..]);
    }
  }

  // ----- main results -----

  function Fresh(file: File): System {
    System(false, file, map[])
  }

  lemma {:induction false} RequestsStay(s: System, steps: seq<Step>, p: nat)
    requires p in s.procs
    ensures p in Run(s, steps).procs && Run(s, steps).procs[p].request == s.procs[p].request
    decreases |steps|
  {
    if steps == [] {
    } else {
      RequestsStay(Next(s, steps[0]), steps[1..], p);
    }
  }

  /** The one step that spends finds the corpus not on file. */
  lemma SpendsOnlyUnused(s: System, step: Step, p: nat)
    requires Safe(s) && (p in s.procs ==> !Spent(s.procs[p]))
    requires var t := Next(s, step); p in t.procs && Spent(t.procs[p])
    ensures Next(s, step).procs[p].request.corpus !in Ledger(s.file)
  {
    assert PhaseConsistent(s, s.procs[p]);
  }

  /** Whoever has not spent yet never spends a corpus that is on file already, however it came there:
      spent before the run, by another process, or by one that died or failed after writing it. */
  lemma {:induction false} OnFileIsNeverSpent(s: System, steps: seq<Step>, p: nat)
    requires Safe(s) && (p in s.procs ==> !Spent(s.procs[p]))
    ensures var t := Run(s, steps);
      p in t.procs && Spent(t.procs[p]) ==> t.procs[p].request.corpus !in Ledger(s.file)
    decreases |steps|
  {
    if steps == [] {
    } else {
      var s1 := Next(s, steps[0]);
      NextKeepsSafe(s, steps[0]);
      if p in s1.procs && Spent(s1.procs[p]) {
        SpendsOnlyUnused(s, steps[0], p);
        RequestsStay(s1, steps[1..], p);
      } else {
        OnFileIsNeverSpent(s1, steps[1..], p);
      }
    }
  }

  /** Any number of processes, any interleaving, crashes, failures and timeouts anywhere: at most one
      consume succeeds for a corpus, and none for a corpus the ledger already held. */
  lemma AtMostOnce(file: File, steps: seq<Step>, p: nat, q: nat)
    requires var s := Run(Fresh(file), steps);
      && p in s.procs && q in s.procs && Succeeded(s.procs[p]) && Succeeded(s.procs[q])
      && s.procs[p].request.corpus == s.procs[q].request.corpus
    ensures p == q && Run(Fresh(file), steps).procs[p].request.corpus !in Ledger(file)
  {
    RunKeepsSafe(Fresh(file), steps);
    OnFileIsNeverSpent(Fresh(file), steps, p);
  }

  /** A consume begun when its corpus is on file never succeeds, whatever runs beside it. */
  lemma BegunTooLate(file: File, before: seq<Step>, p: nat, corpus: string, r: Receipt, later: seq<Step>)
    requires var s := Run(Fresh(file), before); p !in s.procs && corpus in Ledger(s.file)
    ensures var t := Run(Next(Run(Fresh(file), before), Begin(p, Spend(corpus, r))), later);
      p in t.procs && t.procs[p].request == Spend(corpus, r) && !Succeeded(t.procs[p])
  {
    var s := Run(Fresh(file), before);
    var s1 := Next(s, Begin(p, Spend(corpus, r)));
    RunKeepsSafe(Fresh(file), before);
    NextKeepsSafe(s, Begin(p, Spend(corpus, r)));
    RequestsStay(s1, later, p);
    OnFileIsNeverSpent(s1, later, p);
  }

  /** The receipt of a successful consume is in every later ledger, unchanged, as is every entry of
      the initial one; and the corpus was not in the ledger before the run. */
  lemma ReceiptsEndure(file: File, steps: seq<Step>, later: seq<Step>, p: nat)
    requires var s := Run(Fresh(file), steps); p in s.procs && Succeeded(s.procs[p])
    ensures var s := Run(Fresh(file), steps);
      var t := Run(s, later);
      var corpus := s.procs[p].request.corpus;
      && corpus !in Ledger(file)
      && corpus in Ledger(t.file) && Ledger(t.file)[corpus] == s.procs[p].request.receipt
      && forall c :: c in Ledger(file) ==> c in Ledger(t.file) && Ledger(t.file)[c] == Ledger(file)[c]
  {
    var s := Run(Fresh(file), steps);
    RunKeepsSafe(Fresh(file), steps);
    RunKeepsSafe(s, later);
    OnFileIsNeverSpent(Fresh(file), steps, p);
    assert OnFile(s, s.procs[p]);
  }

  lemma RunCons(s: System, step: Step, rest: seq<Step>)
    ensures Run(s, [step] + rest) == Run(Next(s, step), rest)
  {
    assert ([step] + rest)[1..] == rest;
  }

  lemma RunThree(s: System, a: Step, b: Step, c: Step, rest: seq<Step>)
    ensures Run(s, [a, b, c] + rest) == Run(Next(Next(Next(s, a), b), c), rest)
  {
    RunCons(s, a, [b, c] + rest);
    RunCons(Next(s, a), b, [c] + rest);
    RunCons(Next(Next(s, a), b), c, rest);
    assert [a, b, c] + rest == [a] + ([b, c] + rest);
    assert [b, c] + rest == [b] + ([c] + rest);
  }

  /** The steps of one undisturbed consume. */
  function Undisturbed(pid: nat, request: Request): seq<Step> {
    [Begin(pid, request), Acquire(pid), Load(pid)]
    + ([Choose(pid), WriteTemp(pid), ReplaceFile(pid)] + [Release(pid)])
  }

  function Only(lock: bool, file: File, p: Proc): System {
    System(lock, file, map[0 := p])
  }

  lemma AloneLoads(file: File, request: Request)
    ensures Next(Next(Next(Fresh(file), Begin(0, request)), Acquire(0)), Load(0))
         == Only(true, file, Proc(request, LoadedPhase(file)))
  {
  }

  lemma AloneDecides(file: File, corpus: string, r: Receipt)
    ensures var request := Spend(corpus, r);
      var s := Only(true, file, Proc(request, LoadedPhase(file)));
      var (f, result) := Consumed(file, corpus, r);
      Next(Next(Next(s, Choose(0)), WriteTemp(0)), ReplaceFile(0))
      == Only(true, f, Proc(request, match result
                                     case Ok(_) => Replaced
                                     case Err(e) => Leaving(Err(e))))
  {
  }

  /** One process left alone does exactly what the object's `Consume` does. */
  lemma AloneIsConsume(file: File, corpus: string, r: Receipt)
    ensures var s := Run(Fresh(file), Undisturbed(0, Spend(corpus, r)));
      var (f, result) := Consumed(file, corpus, r);
      && s.file == f && !s.lock && 0 in s.procs && s.procs[0].phase.Returned?
      && (Succeeded(s.procs[0]) <==> result.Ok?)
      && (result.Err? ==> s.procs[0].phase.result == Err(result.refusal))
  {
    var s0 := Fresh(file);
    var s3 := Next(Next(Next(s0, Begin(0, Spend(corpus, r))), Acquire(0)), Load(0));
    RunThree(s0, Begin(0, Spend(corpus, r)), Acquire(0), Load(0), [Choose(0), WriteTemp(0), ReplaceFile(0)] + [Release(0)]);
    AloneLoads(file, Spend(corpus, r));
    AloneDecides(file, corpus, r);
    RunThree(s3, Choose(0), WriteTemp(0), ReplaceFile(0), [Release(0)]);
    var s6 := Next(Next(Next(s3, Choose(0)), WriteTemp(0)), ReplaceFile(0));
    RunCons(s6, Release(0), []);
    assert [Release(0)] + [] == [Release(0)];
  }

  /** So a process left alone spends an unspent corpus, and is refused exactly for its cause. */
  lemma AloneSpends(file: File, corpus: string, r: Receipt)
    ensures var s := Run(Fresh(file), Undisturbed(0, Spend(corpus, r)));
      && 0 in s.procs && s.procs[0].phase.Returned? && !s.lock
      && SpendDecided(file, corpus, r, s.file,
                      match s.procs[0].phase.result
                      case Ok(_) => Ok(())
                      case Err(e) => Err(e))
  {
    AloneIsConsume(file, corpus, r);
    ConsumedDecides(file, corpus, r);
  }

  /** A lookup left alone finds what is on file and changes nothing. */
  lemma AloneLooks(file: File, corpus: string)
    ensures var s := Run(Fresh(file), Undisturbed(0, Look(corpus)));
      && 0 in s.procs && !s.lock && s.file == file
      && s.procs[0].phase == Returned(if file.Malformed? then Err(Unreadable)
                                      else Ok(if corpus in Ledger(file) then Some(Ledger(file)[corpus]) else None))
  {
    var s0 := Fresh(file);
    var s3 := Next(Next(Next(s0, Begin(0, Look(corpus))), Acquire(0)), Load(0));
    RunThree(s0, Begin(0, Look(corpus)), Acquire(0), Load(0), [Choose(0), WriteTemp(0), ReplaceFile(0)] + [Release(0)]);
    AloneLoads(file, Look(corpus));
    RunThree(s3, Choose(0), WriteTemp(0), ReplaceFile(0), [Release(0)]);
    RunCons(Next(Next(Next(s3, Choose(0)), WriteTemp(0)), ReplaceFile(0)), Release(0), []);
    assert [Release(0)] + [] == [Release(0)];
  }

  // ----- refusals, whatever else runs -----

  /** A reply given, or about to be given, has its cause in the file as it is now. */
  predicate Caused(file: File, p: Proc) {
    (p.phase.Leaving? || p.phase.Returned?) ==>
      match p.phase.result
      case Err(AlreadyConsumed) => p.request.Spend? && p.request.corpus in Ledger(file)
      case Err(ReceiptInvalid) => p.request.Spend? && !ValidReceipt(p.request.receipt)
      case Err(Unreadable) => file.Malformed?
      case Err(e) => e in {LockTimeout, Interrupted}
      case Ok(None) =>
        && !file.Malformed?
        && (p.phase.Leaving? && p.request.Look? ==> p.request.corpus !in Ledger(file))
      case Ok(Some(r)) => p.request.Look? && p.request.corpus in Ledger(file) && Ledger(file)[p.request.corpus] == r
  }

  ghost predicate AllCaused(s: System) {
    forall p :: p in s.procs ==> Caused(s.file, s.procs[p])
  }

  lemma CausedGrows(f: File, g: File, p: Proc)
    requires Grows(f, g) && Caused(f, p) && (f == g || !Holding(p.phase))
    ensures Caused(g, p)
  {
  }

  lemma NextKeepsCaused(s: System, step: Step)
    requires Safe(s) && AllCaused(s)
    ensures AllCaused(Next(s, step))
  {
    var s1 := Next(s, step);
    NextKeepsSafe(s, step);
    forall q | q in s1.procs ensures Caused(s1.file, s1.procs[q]) {
      if q in s.procs {
        if s1.file == s.file || !Holding(s.procs[q].phase) {
          CausedGrows(s.file, s1.file, s.procs[q]);
        }
        assert PhaseConsistent(s, s.procs[q]);
      }
    }
  }

  /** Over every interleaving nobody is refused without cause: "already consumed" means that the
      corpus is on file, "unreadable" that the file is no ledger, an invalid receipt that it is
      one; a receipt that was looked up is the one on file, and under the lock none is found only if
      there is none. */
  lemma RefusalsHaveCause(file: File, steps: seq<Step>)
    ensures AllCaused(Run(Fresh(file), steps))
  {
    RunKeepsCaused(Fresh(file), steps);
  }

  lemma {:induction false} RunKeepsCaused(s: System, steps: seq<Step>)
    requires Safe(s) && AllCaused(s)
    ensures AllCaused(Run(s, steps))
    decreases |steps|
  {
    if steps == [] {
    } else {
      NextKeepsSafe(s, steps[0]);
      NextKeepsCaused(s, steps[0]);
      RunKeepsCaused(Next(s, steps[0]), steps[1..]);
    }
  }
}
