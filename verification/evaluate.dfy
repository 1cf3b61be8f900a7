/** Scoring and spending together: the holdout is spent only by a verdict that exists. */
module Evaluation {
  import opened Options
  import opened Verdicts
  import H = Holdout

  datatype Outcome = Judged(verdict: Verdict) | Unscored(fault: Fault) | NoLedger | NotSpent(refusal: H.Refusal)

  /** The spend an outcome reports. */
  function SpendOf(outcome: Outcome): H.Result<()> {
    match outcome
    case NotSpent(e) => H.Err(e)
    case _ => H.Ok(())
  }

  /** Score, and for a holdout verdict consume its corpus before returning it.  `receipt`
      renders the verdict and the measurements into the receipt that binds them. */
  method Evaluate(p: Protocol, m: MeasurementSet, ledger: H.HoldoutLedger?, consumedAt: Option<string>,
                  receipt: (Verdict, MeasurementSet, string) -> H.Receipt)
    returns (outcome: Outcome)
    modifies ledger
    ensures ledger != null ==> ledger.lockFile == old(ledger.lockFile)
    ensures outcome.Unscored? <==> Score(p, m).Err?
    ensures outcome.Judged? ==> Score(p, m) == Ok(outcome.verdict)
    ensures Score(p, m).Ok? && m.split != HoldoutSplit ==> outcome.Judged?
    ensures outcome.NoLedger? <==> Score(p, m).Ok? && m.split == HoldoutSplit && (ledger == null || consumedAt == None)
    ensures ledger != null && (outcome.Unscored? || outcome.NoLedger? || m.split != HoldoutSplit) ==>
      ledger.file == old(ledger.file)
    ensures Score(p, m).Ok? && m.split == HoldoutSplit && ledger != null && consumedAt.Some? ==>
      if old(ledger.lockFile) then outcome == NotSpent(H.LockTimeout) && ledger.file == old(ledger.file)
      else H.SpendDecided(old(ledger.file), m.corpus, receipt(Score(p, m).value, m, consumedAt.value), ledger.file,
                          SpendOf(outcome))
  {
    var scored := ScoreMeasurements(p, m);
    if scored.Err? {
      return Unscored(scored.fault);
    }
    var verdict := scored.value;
    if verdict.split == HoldoutSplit {
      if ledger == null || consumedAt == None {
        return NoLedger;
      }
      var spent := ledger.Consume(verdict.corpus, receipt(verdict, m, consumedAt.value));
      if spent.Err? {
        return NotSpent(spent.refusal);
      }
    }
    outcome := Judged(verdict);
  }
}
