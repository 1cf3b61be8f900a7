# Latent Compass: a verified model of its core

This Dafny project models the parts of Latent Compass that other guarantees rest on, and
proves what they promise. The hard parts are state machines and algorithms, and they are
modelled as such.

* **Installer transaction and crash recovery** (`confined_io`, `journal`, `transaction`,
  `transaction_safety`, `mishaps`, `crash_atomicity`, `rollback_exact`, `recovery`, `recovery_safety`,
  `interference`, `transaction_interference`, `removal_stamps`, `recovery_checks`, and the imperative
  forms `lease_objects`, `installer`, `recovery_session`). The file system is a map from paths to
  nodes with bytes, an inode and a change stamp. A *world* carries a schedule that
  says, before each of the program's own steps, what outsiders do to the disk and whether the step
  runs, fails (before or after publishing) or is never reached because the process dies. A lease's
  "assert, then mutate" is one step. The classes and loops of the installer are proved equal to step
  functions over worlds; the theorems are about those functions: crash atomicity, exact rollback,
  rerunnable recovery, and what a transaction and its recovery may change while outsiders interfere.
* **Hash-chained ledger** (`ledger`, `ledger_integrity`, `ledger_history`, `ledger_store`,
  `ledger_decisions`). Seals are free constructors with one constructor per domain. The branching
  verifier is proved to report exactly the defects there are, each operation to answer exactly as its
  conditions say, every reachable store to verify and to replay, and a root seal to commit to the
  identity and to every link.
* **Holdout ledger and verdicts** (`holdout`, `verdict`, `verdict_laws`, `verdict_meaning`,
  `evaluate`, `ordering`). The lock-file protocol is a step machine over any number of processes with
  crashes, failures and timeouts.
  Scoring is a method over tables; what a verdict says is stated without them, the median by counting.
* **Off-policy estimators** (`ope`, `ope_laws`, `quantile_laws`), over exact reals.
* **Canonical text and seals** (`canonical`, `json_parser`, `canonical_laws`, `compact_text`, `seal_laws`), down to
  UTF-8 bytes, against a JSON parser after RFC 8259 written independently of the printer.
* **Hook command line and hook settings** (`hook_command`, `hook_words`, `hook_settings`,
  `hook_settings_laws`, `hook_settings_runs`).
* **Session allowance** (`allowance`, `rehearsal`), and two smaller host-side algorithms (`shadow_harness`).

`options`, `hosts`, `characters` and `contracts` hold shared definitions. `dafny verify dfyconfig.toml` checks everything.

## Where the code and a stated promise part

* *Recovery removes a create only under its recorded fingerprint.* Preflight and recheck compare the
  recorded identity and change stamp, but the removal step itself (`confined_io.py:692-726`, `785-792`)
  compares identity and bytes only. `RemovalStamps.RemovesUnderAnotherStamp` is a run in which a file is
  removed under a stamp that was never recorded. `RemovalStamps.RecoverStampExact` says exactly when the
  property holds of a removal that `recover` makes: when no outside edit touches the path in the events
  between the last check of that fingerprint and the removal.
* *The anchor detects a truncated suffix* (`ledger.py:1018-1021`). `abandon_epoch` (`ledger.py:706-745`) does not verify before it rewrites the
  anchor. `LedgerHistory.TruncationVerifiesAfterAbandonment` is the counterexample for every
  truncation of an unredacted open store; `LedgerHistory.AbandonmentReanchors` says exactly when the
  store verifies afterwards: when rows and tombstones are in order, whatever the anchor said.
* *Everyone else's hook groups are kept* (`shadow_install.py:1886-1901`). Without a manifest, discovery takes
  over groups whose command the parser reads as a call of the managed wrapper (`shadow_harness.py:191-222`),
  unless the foreign-hook scan refuses them first; but the parser does not know shell comments and the scan
  (`shadow_install.py:1626-1679`) skips them. A group in every event with the command `# <wrapper> --host codex`
  survives an install and a remove, and the next install drops it as its own:
  `HookSettingsRuns.AdoptionLosesGroups` is that run for any such groups, and
  `HookSettingsRuns.CommentedGroupsAreAdoptable` and `HookCommand.CommentedLineParses` show that these are
  such. `HookSettingsRuns.KeptExactly` says exactly when every run keeps everyone else's groups: when none of
  their commands would be discovered as owned in settings that pass the scan.

## Model

| member | source | states |
|---|---|---|
| `CrashAtomicity.CrashAtomic` | src/latent_compass/shadow_install.py:2612-2745 | For every operation list and a crash at any step of begin, apply or complete: either no journal and all before-bytes or all after-bytes; or `recover` restores every before-byte and drops the journal; or it changes nothing and reports a conflict, exactly when a create was published and not confirmed. |
| `CrashAtomicity.ErrorPath` | src/latent_compass/shadow_install.py:398-455 | If apply raises anywhere and rollback leaves nothing unresolved, every target but possibly the failing one is back at its before-bytes, and a following `recover` finishes the job unless the failing step was a published, unconfirmed create. |
| `CrashAtomicity.AfterRun` | src/latent_compass/shadow_install.py:3136-3170 | Recovery after a quiet run, however that run ended: nothing pending, all restored, or a conflict that changes nothing, each exactly when the disk left behind says so. |
| `CrashAtomicity.RunKeepsInvariant` | src/latent_compass/shadow_install.py:2676-2728 | A quiet run, with crashes and failures anywhere, ends untouched, completed, or with a decodable journal whose entries are all sound, at most one of them exposed when no step raised. |
| `CrashAtomicity.UndisturbedRunCompletes` | src/latent_compass/shadow_install.py:2612-2745 | A transaction nobody disturbs completes: all after-bytes, no journal. |
| `CrashAtomicity.CrashOnlyNeverRaises` | src/latent_compass/shadow_install.py:458-546 | With fresh leases, no outsider and no failing call, no step refuses: the run completes or dies. |
| `CrashAtomicity.ProceedKeepsInvariant` | src/latent_compass/shadow_install.py:458-546 | Apply followed by complete or rollback keeps the journal decodable and every target sound, whatever fails. |
| `CrashAtomicity.StrandedIffBlocked` | src/latent_compass/shadow_install.py:1016-1142 | Some create is published and unconfirmed exactly when some entry of the journal cannot be restored. |
| `RollbackExact.FailureRollsBack` | src/latent_compass/shadow_install.py:2676-2728 | With at most one failing step anywhere, nobody interfering and the process alive: the run completes, or every target but the failing one is back at its before-bytes and nothing is unresolved; the exception is exactly the written creates, reported in order, after a journal write that was published without its lease noticing. |
| `RollbackExact.RollBackAllCalm` | src/latent_compass/shadow_install.py:398-455 | While nothing more goes wrong, the rollback loop undoes every written operation, except creates when the journal lease is stale, and reports exactly those. |
| `RollbackExact.RollBackOneCalm` | src/latent_compass/shadow_install.py:398-455 | Undoing one operation succeeds exactly when it is no create or the journal lease is current; it then restores the before-bytes and touches only the target and the journal. |
| `RollbackExact.UndoDecides` | src/latent_compass/shadow_install.py:415-455 | A target is taken back exactly when its lease is current over the after-bytes; over the before-bytes it needs nothing, and otherwise it is left and unresolved. |
| `Mishaps.SureAll` | src/latent_compass/shadow_install.py:458-546 | With fresh leases and no outsiders the apply loop raises only by using up a failing step and dies only by using up a crash; it holds a current lease of all it wrote, and of the journal unless a torn write was used up. |
| `TransactionSafety.BeginQuiet` | src/latent_compass/shadow_install.py:788-843 | Beginning writes the whole journal or nothing, and the journal decodes with every operation untouched. |
| `TransactionSafety.JournalForDecodes` | src/latent_compass/shadow_install.py:846-976 | The journal built for a plan passes every check made on a pending journal. |
| `TransactionSafety.JournalForSays` | src/latent_compass/shadow_install.py:788-843 | The journal of a plan lists each changing operation's path, digests before and after, backup, and that nothing was published yet. |
| `TransactionSafety.ApplyAllQuiet` | src/latent_compass/shadow_install.py:458-546 | Stopped at any point, the apply loop has finished the operations it recorded as written, left one in a sound state, and not touched the rest. |
| `TransactionSafety.ApplyOneQuiet` | src/latent_compass/shadow_install.py:471-546 | One operation either finishes and is recorded, or leaves its target sound and is not recorded; no other target moves. |
| `TransactionSafety.ApplyCreateQuiet` | src/latent_compass/shadow_install.py:483-546 | planned, attempted, published, confirmed: wherever a create stops, its entry and its target agree well enough to recover. |
| `TransactionSafety.ConfirmQuiet` | src/latent_compass/shadow_install.py:578-622 | Confirmation is all or nothing, and a confirmed entry records the fingerprint the file has. |
| `TransactionSafety.ApplyChangeQuiet` | src/latent_compass/shadow_install.py:499-530 | A replaced or removed file has an intact backup before it changes. |
| `TransactionSafety.RollBackOneQuiet` | src/latent_compass/shadow_install.py:398-455 | Undoing one written operation keeps its entry sound, and reports success only if the before-bytes are back. |
| `TransactionSafety.RollBackAllQuiet` | src/latent_compass/shadow_install.py:398-455 | After a rollback every written path is restored or listed as unresolved, and every entry is still sound. |
| `Transaction.WrittenIsLeased` | src/latent_compass/shadow_install.py:458-546 | Whatever the loop records as written is covered by a retained lease, so rollback can always reach it. |
| `TransactionJournal.EntriesFor` | src/latent_compass/shadow_install.py:804-830 | One journal entry an operation, in order, each the one its operation calls for. |
| `TransactionJournal.MarkedAt` | src/latent_compass/shadow_install.py:588-609 | A state change rewrites exactly the entry of its path. |
| `TransactionJournal.FindEntryAt` | src/latent_compass/shadow_install.py:588-609 | Looking a path up finds its entry when no earlier entry has that path. |
| `TransactionJournal.ConfirmExact` | src/latent_compass/shadow_install.py:578-609 | Confirmation succeeds exactly under a current lease of the entry's path over its after-bytes, for a create in a current-schema journal, and records that file's fingerprint in that entry alone; otherwise nothing is written. |
| `TransactionJournal.ConfirmWithoutEntry` | src/latent_compass/shadow_install.py:578-609 | Without an entry for the path the journal is rewritten as it is. |
| `TransactionJournal.WithStateMeans` | src/latent_compass/shadow_install.py:588-605 | A state change records the state and keeps a recorded identity. |
| `RecoverySafety.RecoverDecides` | src/latent_compass/shadow_install.py:1178-1344 | Uninterrupted recovery restores everything and drops the journal if and only if the journal decodes and every entry is restorable; otherwise it changes nothing. |
| `RecoverySafety.RecoverBlames` | src/latent_compass/shadow_install.py:1016-1142 | The conflict names the first entry that cannot be restored: its backup if only that holds other bytes, and else its target. |
| `RecoverySafety.RecoverReadsJournal` | src/latent_compass/shadow_install.py:1178-1230 | Without a journal nothing is pending; what is no decodable journal is refused and left alone. |
| `RecoverySafety.ObserveExact` | src/latent_compass/shadow_install.py:979-1165 | Preflight accepts exactly the disks on which every target is in one of its two states with what it needs to be undone. |
| `RecoverySafety.RecoverKeepsInvariant` | src/latent_compass/shadow_install.py:1178-1344 | One attempt at recovery, crashing or failing anywhere, leaves a journal with all targets sound, or no journal and all before-bytes; no other file changes. |
| `RecoverySafety.RerunnableRecovery` | src/latent_compass/shadow_install.py:1264-1331 | After any number of attempts that crash or fail anywhere, a rerun changes nothing and reports a conflict exactly when a create was left revoked but present, and otherwise restores everything. |
| `RecoverySafety.RestoreQuiet` | src/latent_compass/shadow_install.py:1308-1331 | The restoration loop moves targets only to their before-bytes and, if it ends, all of them. |
| `RecoverySafety.RevokeQuiet` | src/latent_compass/shadow_install.py:1264-1273 | Revocation only moves owned creates from confirmed to revoked, and touches no target. |
| `RecoverySafety.MarkDecodes` | src/latent_compass/shadow_install.py:846-976 | Moving a create along its states keeps the journal decodable and its targets the same. |
| `Interference.RecoverUnderInterference` | src/latent_compass/shadow_install.py:1016-1142 | Under any interference: unless preflight decodes the journal on the disk and clears every entry of it, no file changes; otherwise every change is to the journal, or undoes one entry from exactly the bytes and identity preflight observed. |
| `Interference.RecoveryChangesAreJustified` | src/latent_compass/shadow_install.py:1231-1330 | Between preflight and the end, a target changes only if at that step it holds the observed after-state under the observed identity, and it becomes its saved before-state. |
| `Interference.SurveyedIsCleared` | src/latent_compass/shadow_install.py:1016-1142 | What preflight lets through: for each entry, target and backup leases that are what their paths held at the entry's own observation steps; targets in a known state, backups with the right bytes, creates confirmed under their recorded identity. |
| `Interference.PreflightIsObserved` | src/latent_compass/shadow_install.py:979-1165 | The observations recovery acts on are those of the journal that was on the disk when it was leased, entry by entry. |
| `RemovalStamps.RemovalStampExact` | src/latent_compass/shadow_install.py:1231-1330 | Each removal recovery makes is of an owned create, and the removed file carries the recorded fingerprint exactly when no outside edit touched its path since the last check of that fingerprint. |
| `RemovalStamps.RecoverStampExact` | src/latent_compass/shadow_install.py:1178-1344 | The same for every removal in a whole call of `recover`, under any schedule, from preflight's own observations. |
| `RemovalStamps.UntouchedKeepsFingerprint` | src/latent_compass/shadow_install.py:1178-1344 | A create that no event of the schedule touches is removed only under its recorded fingerprint. |
| `RemovalStamps.MeddledNode` | src/latent_compass/shadow_install.py:625-635 | With stamps handed out in order, any outside edits leave a node alone if none of them touched it, and otherwise nothing there or a node with a later stamp: why the fingerprint holds the stamp. |
| `RemovalStamps.RemovesUnderAnotherStamp` | src/latent_compass/shadow_install.py:1308-1331 | A concrete run of `recover` that removes a create under a stamp never recorded. |
| `RecoveryChecks.ChangedInputConflicts` | src/latent_compass/shadow_install.py:1264-1307 | If a target, a backup or the journal is no longer what recovery saw of it once everything is prepared, and nobody puts it back, nothing is restored and the reply is a conflict, unless the process died or revoking had failed already. |
| `RecoveryChecks.RecoverChecksLast` | src/latent_compass/shadow_install.py:1178-1307 | The same for a whole call of `recover` and its own preflight. |
| `RecoveryChecks.FirstChangeIsBlamed` | src/latent_compass/shadow_install.py:1275-1294 | Once nothing happens any more, that conflict names the first entry whose target or backup changed, and the journal if only that did. |
| `RecoveryChecks.ChangedBeforeRevocation` | src/latent_compass/shadow_install.py:1231-1263 | If the journal changed after it was leased, or an owned create lost its recorded fingerprint, for good, recovery changes nothing at all. |
| `RecoveryChecks.ChangedDuringRecheck` | src/latent_compass/shadow_install.py:1231-1263 | The same if the journal changed while the fingerprints were read again. |
| `TransactionInterference.RunIsPlanned` | src/latent_compass/shadow_install.py:398-546 | A run of the transaction under any interference, crashing, failing or rolling back anywhere: its first change creates the planned journal, and every change is to the journal, saves before-bytes where nothing was, applies an operation to exactly what planning saw once its before-bytes are saved, or undoes what the run itself applied. |
| `TransactionInterference.NoForeignBytesLost` | src/latent_compass/shadow_install.py:458-546 | So a managed file moves only between one operation's before-bytes and after-bytes, and a backup is only ever created: no third-party bytes are overwritten or removed. |
| `TransactionInterference.ApplyAllPlanned` | src/latent_compass/shadow_install.py:458-546 | The apply loop keeps this account of its changes, and what it records as written is what it put on disk. |
| `TransactionInterference.RollBackAllPlanned` | src/latent_compass/shadow_install.py:398-455 | The rollback loop undoes only states this run published. |
| `ConfinedIo.QuietReplace` | src/latent_compass/confined_io.py:729-782 | Without outsiders a replacement publishes exactly the requested bytes over a current lease, or leaves the disk alone; success means published. |
| `ConfinedIo.QuietRemove` | src/latent_compass/confined_io.py:785-792 | The same for a removal. |
| `LeaseObjects.ConfinedFileLease.constructor` | src/latent_compass/confined_io.py:57-80 | A new lease retains what is seen at its path now. |
| `LeaseObjects.ConfinedFileLease.AssertCurrent` | src/latent_compass/confined_io.py:104-118 | Asserting a lease is the protocol's assert step. |
| `LeaseObjects.ConfinedFileLease.PublicationFingerprint` | src/latent_compass/confined_io.py:86-102 | Reading a fingerprint through the lease is the protocol's step: refused for a changed or absent file. |
| `LeaseObjects.ConfinedFileLease.Replace` | src/latent_compass/confined_io.py:120-136 | Replacing through the lease object updates disk and lease as the protocol's step does. |
| `LeaseObjects.ConfinedFileLease.Remove` | src/latent_compass/confined_io.py:138-149 | Removing through the lease object, likewise. |
| `LeaseObjects.LeaseConfinedFile` | src/latent_compass/confined_io.py:253-283 | Opening a lease is the protocol's open step and gives a fresh lease object. |
| `Installer.SetCreatePublicationState` | src/latent_compass/shadow_install.py:578-609 | The journal rewrite through its lease is the protocol's state step. |
| `Installer.ConfirmCreatePublication` | src/latent_compass/shadow_install.py:612-622 | Confirmation through the publishing lease is the protocol's confirm step. |
| `Installer.InstallTransaction.ApplyFrozenOperations` | src/latent_compass/shadow_install.py:458-546 | The loop over mutable leases and the written list reaches exactly the state the step functions reach, in every world. |
| `Installer.InstallTransaction.ApplyCreate` | src/latent_compass/shadow_install.py:483-546 | The create branch, likewise. |
| `Installer.InstallTransaction.ApplyChange` | src/latent_compass/shadow_install.py:499-530 | The replace-or-remove branch, likewise. |
| `Installer.InstallTransaction.RollBack` | src/latent_compass/shadow_install.py:398-455 | The rollback loop, likewise, with the same unresolved paths. |
| `Installer.RunTransaction` | src/latent_compass/shadow_install.py:2676-2728 | Begin, apply, and complete or roll back, as one call, is the protocol's run. |
| `RecoverySession.ObserveRecoveryTargets` | src/latent_compass/shadow_install.py:979-1165 | The preflight loop over lease objects observes what the step functions observe and shares no lease between entries. |
| `RecoverySession.RevokeAll` | src/latent_compass/shadow_install.py:1264-1273 | The revocation loop over lease objects is the protocol's. |
| `RecoverySession.RestoreAll` | src/latent_compass/shadow_install.py:1308-1331 | The restoration loop over lease objects is the protocol's, stop included. |
| `RecoverySession.RecoverPendingTransaction` | src/latent_compass/shadow_install.py:1178-1344 | The whole imperative recovery equals the function the theorems are about, in every world. |
| `LedgerIntegrity.VerifierExact` | src/latent_compass/ledger.py:822-984 | The verifier reports nothing exactly on well-formed stores: dense sequence, chain reproducing from genesis, payload seals and provenance, redacted iff tombstoned, no orphan, anchor equal to count, tail and status. |
| `LedgerIntegrity.ReachableVerifies` | src/latent_compass/ledger.py:525-745 | Every store reached by any run of append, tombstone and abandon, refusals included, verifies. |
| `LedgerIntegrity.CreatedVerifies` | src/latent_compass/ledger.py:339-411 | So does every store reached from a newly created one. |
| `LedgerIntegrity.AppendKeeps` | src/latent_compass/ledger.py:525-629 | An append keeps the invariant and, if accepted, adds exactly the next row, numbered one past the last. |
| `LedgerIntegrity.TombstoneKeeps` | src/latent_compass/ledger.py:653-704 | Redaction keeps the invariant, the root seal, the anchor and the binding; accepted, it drops the payload of the one named row and records its tombstone, and refused it changes nothing. |
| `LedgerIntegrity.AbandonKeeps` | src/latent_compass/ledger.py:706-745 | Abandoning a store that is in order leaves one that is in order. |
| `LedgerIntegrity.WalkExact` | src/latent_compass/ledger.py:855-968 | The row walk is silent exactly on rows that chain from the expected number and seal and are each settled. |
| `LedgerIntegrity.AnchorExact` | src/latent_compass/ledger.py:1018-1060 | The anchor check is silent exactly on the anchor of this count, tail and status. |
| `LedgerDecisions.AppendDecides` | src/latent_compass/ledger.py:525-629 | An append is accepted exactly when the episode is valid, the clock answers, the store is in order and open, the episode belongs to it and is not in it; then exactly the next row is added, anchored and receipted. Each refusal has its own cause and changes nothing. |
| `LedgerDecisions.TombstoneDecides` | src/latent_compass/ledger.py:653-704 | A redaction is accepted exactly for an episode that is there with its payload in a store in order, with a well-formed tombstone; each refusal has its own cause. |
| `LedgerDecisions.AbandonDecides` | src/latent_compass/ledger.py:706-745 | Abandonment is accepted exactly in an open epoch when the clock answers; it closes the epoch, re-anchors, and leaves rows and tombstones. |
| `LedgerDecisions.FindingsAre` | src/latent_compass/ledger.py:822-1060 | The verifier reports exactly the defects there are, each under its kind, row and episode. |
| `LedgerDecisions.ReplayDecides` | src/latent_compass/ledger.py:1062-1118 | A replay is refused exactly for a store not in order or a kept payload that is no valid episode; otherwise its two lists are the kept and the redacted episodes, all of them, in row order. |
| `LedgerDecisions.ReachableReplays` | src/latent_compass/ledger.py:1062-1118 | Every store that was only ever written through the operations replays. |
| `LedgerHistory.RootSealCommits` | src/latent_compass/ledger.py:307-326 | Two verifying stores with the same root seal have the same identity, length and links. |
| `LedgerHistory.RowsAreFixedByAnchor` | src/latent_compass/ledger.py:855-898 | With metadata and anchor fixed, no truncated, reordered, inserted or edited table verifies, except by redaction. |
| `LedgerHistory.TailCommits` | src/latent_compass/ledger.py:224-235 | Two chains with one tail seal start from the same genesis and agree link by link. |
| `LedgerHistory.TombstoneAppendCommute` | src/latent_compass/ledger.py:653-704 | Redacting one episode and appending another reach the same store with the same replies in either order. |
| `LedgerHistory.RunExtends` | src/latent_compass/ledger.py:525-745 | Over any run every row stays at its place, the same or with its payload dropped under a tombstone recorded since; an abandoned chain never grows. |
| `LedgerHistory.ReceiptsStay` | src/latent_compass/ledger.py:569-629 | Every receipt ever returned matches its row in all later states. |
| `LedgerHistory.AbandonmentReanchors` | src/latent_compass/ledger.py:706-745 | After abandonment the store verifies exactly when rows and tombstones were in order, whatever the anchor said. |
| `LedgerHistory.TruncationVerifiesAfterAbandonment` | src/latent_compass/ledger.py:706-745 | A truncated table, which does not verify, verifies once abandoned. |
| `LedgerStoreObject.LedgerStore.Create` | src/latent_compass/ledger.py:339-411 | Creation gives the empty anchored store. |
| `LedgerStoreObject.LedgerStore.VerifyUnlocked` | src/latent_compass/ledger.py:822-984 | The loop over rows reports exactly the findings, counts and root of the specification. |
| `LedgerStoreObject.LedgerStore.WalkRows` | src/latent_compass/ledger.py:855-968 | One pass carrying number and previous seal finds what the recursive walk finds. |
| `LedgerStoreObject.LedgerStore.Append` | src/latent_compass/ledger.py:525-629 | The append method does to the tables what the specification says, in every branch. |
| `LedgerStoreObject.LedgerStore.TombstoneEpisode` | src/latent_compass/ledger.py:653-704 | The redaction method, likewise. |
| `LedgerStoreObject.LedgerStore.AbandonEpoch` | src/latent_compass/ledger.py:706-745 | The abandonment method, likewise. |
| `LedgerStoreObject.LedgerStore.ReplayAll` | src/latent_compass/ledger.py:1062-1118 | Replay refuses or reports the specification's lists, root and digest. |
| `LedgerStoreObject.ReplayDigestExact` | src/latent_compass/ledger.py:1062-1118 | Two replay digests agree exactly when identity, numbers, episodes, contents and redactions agree. |
| `Holdout.AtMostOnce` | src/latent_compass/protocol.py:615-642 | Over all interleavings, crashes and timeouts of any number of processes, at most one consume succeeds for a corpus, and none for a corpus the ledger already held. |
| `Holdout.BegunTooLate` | src/latent_compass/protocol.py:615-642 | A consume begun when its corpus is on file never succeeds, whatever runs beside it. |
| `Holdout.ReceiptsEndure` | src/latent_compass/protocol.py:596-642 | A successful receipt, whose corpus was not on file before, and every entry of the initial file are in every later ledger unchanged. |
| `Holdout.RunKeepsSafe` | src/latent_compass/protocol.py:479-531 | Mutual exclusion, faithful snapshots and at-most-once spending hold after every step, and entries never change. |
| `Holdout.AloneIsConsume` | src/latent_compass/protocol.py:615-642 | One process left alone goes through the steps to exactly the result of the object's method. |
| `Holdout.ConsumedDecides` | src/latent_compass/protocol.py:615-642 | A spend goes through exactly when the file can be read, the corpus is not on file and the receipt is valid; it adds that one receipt. Each refusal has its own cause and leaves the file alone. |
| `Holdout.AloneSpends` | src/latent_compass/protocol.py:615-642 | The same for the steps of one undisturbed process. |
| `Holdout.AloneLooks` | src/latent_compass/protocol.py:611-614 | A lookup left alone finds what is on file and changes nothing. |
| `Holdout.RequiredDecides` | src/latent_compass/protocol.py:644-677 | A requirement is met exactly by a receipt on file that binds the same protocol, verdict, measurements and epoch. |
| `Holdout.SpentIsRequired` | src/latent_compass/protocol.py:615-677 | What was just spent can be required by what it was spent with, and by nothing else. |
| `Holdout.RefusalsHaveCause` | src/latent_compass/protocol.py:566-642 | Over every interleaving nobody is refused without cause: already consumed means on file, unreadable means no ledger, and a receipt looked up is the one on file. |
| `Holdout.HoldoutLedger.Consume` | src/latent_compass/protocol.py:615-642 | Under a free lock the spend is decided by file, corpus and receipt as specified, and the file and the reply are those of a single spend; under a held one nothing changes; the lock is released on every path. |
| `Holdout.HoldoutLedger.RequireConsumption` | src/latent_compass/protocol.py:644-677 | The check reads without changing the file and answers as specified. |
| `Verdicts.ScoreMeasurements` | src/latent_compass/protocol.py:680-814 | The loops filling the tables give the specified verdict or the first refusal. |
| `VerdictMeaning.ScoreMeans` | src/latent_compass/protocol.py:680-814 | A set is scored exactly when it was taken for the protocol, repeats nothing, names only declared metrics, and measures every required one and no metric in part; the verdict judges exactly the measured metrics, each by the median of exactly its measurements, and kills exactly when a required one fails. A refusal names a cause that is there. |
| `VerdictMeaning.MedianIsMiddle` | src/latent_compass/protocol.py:776-800 | The aggregate is the mean of the two middle values found by counting, and no other value is. |
| `VerdictMeaning.AggregateIsMedian` | src/latent_compass/protocol.py:741-800 | Read off the table at the declared seeds, a metric's aggregate is the median of exactly the values measured for it. |
| `VerdictLaws.ImprovementNeverKills` | src/latent_compass/protocol.py:741-814 | Moving measurements in their metrics' better directions never turns CONTINUE into KILL, nor an accepted set into a refused one. |
| `VerdictLaws.MedianMonotone` | src/latent_compass/protocol.py:776-800 | Raising values one by one never lowers the median, for odd and even counts. |
| `VerdictLaws.PermutationGivesSameVerdict` | src/latent_compass/protocol.py:680-814 | Permuting the measurements gives the identical verdict or refusal. |
| `VerdictLaws.ScoredVerdictIsValid` | src/latent_compass/protocol.py:398-437 | Every scored verdict passes its own validator: it has metrics, each over at least one seed, and flags, failing list and decision reproduce. |
| `VerdictLaws.CollectDescribes` | src/latent_compass/protocol.py:741-748 | Collecting succeeds exactly when no metric and seed repeat, and then the table holds exactly the measurements. |
| `VerdictLaws.PassKept` | src/latent_compass/protocol.py:154-158 | A metric that passes keeps passing when its values move in its direction. |
| `Ordering.SortMonotone` | src/latent_compass/protocol.py:776-800 | Order statistics are monotone: raising values raises every rank. |
| `Ordering.RankByCounting` | src/latent_compass/protocol.py:776-800 | The value at a rank is the only one with at most that many values below it and more not above it. |
| `Ordering.SortDependsOnlyOnContents` | src/latent_compass/protocol.py:776-800 | Sorting depends on the contents alone. |
| `Evaluation.Evaluate` | src/latent_compass/protocol.py:817-845 | A verdict is returned exactly when the measurements are scored and, for the holdout, its corpus was just spent; each refusal has its cause, and a refused evaluation spends nothing. |
| `OffPolicyLaws.IpsIsUnbiased` | src/latent_compass/benchmark/ope.py:361-383 | Summed over all joint assignments of logged actions, weighted by the product of propensities, the estimate equals the mean target outcome of the eligible cases. |
| `OffPolicyLaws.ActionsAverageOut` | src/latent_compass/benchmark/ope.py:10-24 | For one case the logged action averages out and only the target's outcome remains. |
| `OffPolicyLaws.ClassifyExact` | src/latent_compass/benchmark/ope.py:171-189 | Each state by its conditions, in the pre-registered order. |
| `OffPolicyLaws.PairsCount` | src/latent_compass/benchmark/ope.py:361-383 | How many pairs the estimator sees depends on eligibility alone, not on what was logged. |
| `OffPolicyLaws.CauchySchwarz` | src/latent_compass/benchmark/ope.py:307-324 | Sum of squares, squared sum and count times sum of squares are in this order. |
| `OffPolicyLaws.EssIsBetween` | src/latent_compass/benchmark/ope.py:307-324 | The effective sample size lies between one and the number of non-zero weights. |
| `OffPolicyLaws.EssIsInverseConcentration` | src/latent_compass/benchmark/ope.py:307-324 | The effective sample size is the inverse of the sum of the squared weight shares. |
| `OffPolicyLaws.SnipsIsBetween` | src/latent_compass/benchmark/ope.py:361-383 | SNIPS exists exactly with positive weight, lies within the weighted outcomes, and IPS is SNIPS times weight sum over count. |
| `OffPolicyLaws.EstimateBalances` | src/latent_compass/benchmark/ope.py:361-383 | SNIPS is the one value at which the weighted outcomes balance; IPS spreads them evenly over all cases; refused exactly for none. |
| `QuantileLaws.WeightedQuantileExact` | src/latent_compass/benchmark/ope.py:239-264 | The answer is the one observed value where the mass first reaches the share; refused exactly outside (0, 1] or without mass. |
| `QuantileLaws.WeightedQuantilePermutation` | src/latent_compass/benchmark/ope.py:239-264 | Permuting the samples never changes the answer. |
| `QuantileLaws.WeightedQuantileScaling` | src/latent_compass/benchmark/ope.py:239-264 | Scaling all weights never changes the answer. |
| `QuantileLaws.EqualWeightsGiveNearestRank` | src/latent_compass/benchmark/ope.py:222-236 | With equal weights the answer is the nearest-rank quantile. |
| `QuantileLaws.QuantileByCounting` | src/latent_compass/benchmark/ope.py:222-236 | The nearest-rank quantile has the first rank covering the share of the sample, clamped to it, and is found there by counting; refused exactly for an empty sample. |
| `OffPolicy.ComputeWeightedQuantile` | src/latent_compass/benchmark/ope.py:239-264 | The accumulating loop stops where the specification says. |
| `OffPolicy.CountStates` | src/latent_compass/benchmark/ope.py:313-319 | One pass counts every state and collects the eligible weights in order. |
| `OffPolicy.StatesPartition` | src/latent_compass/benchmark/ope.py:286-304 | The five states account for every record, and the eligible ones for every weight. |
| `OffPolicyLaws.CountsAreExact` | src/latent_compass/benchmark/ope.py:286-319 | Each state's count is the number of its records; the weights are those of the eligible ones, all of them, in order. |
| `OffPolicy.SummariseSupport` | src/latent_compass/benchmark/ope.py:307-342 | The diagnostics refuse exactly the empty set and otherwise satisfy their own validator, non-zero weights bounded by eligible cases included. |
| `CanonicalLaws.ValueRoundTrip` | src/latent_compass/canonical.py:78-86 | Printed values read back, whatever follows them. |
| `CanonicalLaws.CharsRoundTrip` | src/latent_compass/canonical.py:78-86 | Every string, control characters and quotes included, survives escaping. |
| `CanonicalLaws.NumberRoundTrip` | src/latent_compass/canonical.py:78-86 | Integers and float texts read back as the kind they were. |
| `CanonicalLaws.ShortestEscape` | src/latent_compass/canonical.py:78-86 | No shorter text reads as a character than the one printed for it, and no other as short without capital letters. |
| `CanonicalLaws.EscapeIsCanonical` | src/latent_compass/canonical.py:78-86 | What is printed for a character reads as it, without capital letters unless it is the character itself. |
| `CompactText.PrintedIsCompact` | src/latent_compass/canonical.py:78-86 | No whitespace is printed outside strings. |
| `SealLaws.CanonicalRoundTrip` | src/latent_compass/canonical.py:49-86 | A JSON parser applied to the canonical text gives the value back with members in key order. |
| `SealLaws.TextIffSame` | src/latent_compass/canonical.py:78-86 | Two payloads print identically exactly when they are equal with objects taken as mappings. |
| `SealLaws.SortedMembersInOrder` | src/latent_compass/canonical.py:78-86 | Members are printed in code-point order of their keys. |
| `SealLaws.NormalisedExact` | src/latent_compass/canonical.py:49-75 | Normalisation succeeds exactly on encodable payloads and changes nothing in them. |
| `SealLaws.PrintedIsPlain` | src/latent_compass/canonical.py:78-91 | No control character, so no separator, ever appears in canonical text. |
| `SealLaws.Utf8Injective` | src/latent_compass/canonical.py:89-91 | Different texts have different UTF-8 bytes. |
| `SealLaws.PreimageDeterminesBoth` | src/latent_compass/canonical.py:94-108 | The bytes under a seal determine domain and payload, even for a domain containing the separator. |
| `SealLaws.SealsAreExact` | src/latent_compass/canonical.py:94-108 | A seal is issued exactly for a non-empty domain and an encodable payload, and two are equal exactly when domain and payload are. |
| `SealLaws.SealRefusalNamesCause` | src/latent_compass/canonical.py:49-108 | A refused seal names its cause: the empty domain first, else a non-finite float, a non-text key or a foreign object that is in the payload. |
| `Canonical.Normalise` | src/latent_compass/canonical.py:49-75 | The loops over elements and entries compute the specified result, first refusal included. |
| `Canonical.Seal` | src/latent_compass/canonical.py:94-108 | Feeding the digest piece by piece seals exactly the preimage. |
| `HookCommand.CommandRoundTrip` | src/latent_compass/shadow_install.py:1569-1586 | The parser gives back exactly the runtime, wrapper and home that were printed, in both forms; the POSIX form even when they are empty. |
| `HookCommand.BareExactlyWhenSafe` | src/latent_compass/shadow_install.py:1569-1586 | A printed word is left unquoted exactly when it is non-empty and has only characters no shell minds. |
| `HookCommand.ParseExact` | src/latent_compass/shadow_harness.py:191-222 | Accepted are exactly the PowerShell lines of the host that has them, and otherwise the lines a POSIX shell splits into the words printed. |
| `HookCommand.PowerShellExact` | src/latent_compass/shadow_harness.py:195-207 | The PowerShell expression accepts exactly the lines printed for non-empty texts. |
| `HookCommand.SplitJoined` | src/latent_compass/shadow_harness.py:208-222 | Splitting what was quoted and joined gives the words back, whatever they contain. |
| `HookWords.SplitIsGrammar` | src/latent_compass/shadow_harness.py:208-211 | A line splits into given words exactly when it is written from the shell grammar of bare, backslashed, single- and double-quoted pieces with these words. |
| `HookCommand.ShellLineIsNotPowerShell` | src/latent_compass/shadow_harness.py:195-207 | No POSIX line is taken for the PowerShell form. |
| `HookCommand.CommentedLineParses` | src/latent_compass/shadow_harness.py:208-222 | A line that a shell skips as a comment still parses as a call of the wrapper it names. |
| `HookSettingsRuns.RunKeepsForeign` | src/latent_compass/shadow_install.py:2046-2097 | Over any sequence of installs and removes, unless some of everyone else's groups could be adopted, their groups stay, in order; while installed each event ends in the one shadow group, while removed nothing else is there. |
| `HookSettingsRuns.KeptExactly` | src/latent_compass/shadow_install.py:1946-2097 | Every run keeps everyone else's groups exactly when none of them could be adopted. |
| `HookSettingsRuns.AdoptionLosesGroups` | src/latent_compass/shadow_install.py:1946-2052 | With groups that could be adopted, remove and install again drops one of them from every event. |
| `HookSettingsRuns.AdoptedIsUnflagged` | src/latent_compass/shadow_install.py:1946-2045 | Groups an accepted install let stand are adopted only through a command that runs the wrapper and that the scan does not flag. |
| `HookSettingsRuns.CommentedGroupsAreAdoptable` | src/latent_compass/shadow_install.py:1626-1679 | Groups whose command is a shell comment naming the wrapper are adoptable under any scan that skips comments. |
| `HookSettingsRuns.InstallReachesKept` | src/latent_compass/shadow_install.py:2016-2052 | An accepted install of a command nobody else carries starts such a run: the groups it does not own stay in order with its own last, and the scan flags none of them. |
| `HookSettingsLaws.FlaggedIsUnused` | src/latent_compass/shadow_install.py:2033-2045 | If the scan flags the command to be installed, an accepted scan means that nobody else carries it. |
| `HookSettingsLaws.InstallKeepsForeign` | src/latent_compass/shadow_install.py:2016-2052 | An accepted install leaves exactly one group with its command in each of its events, none elsewhere, and the others untouched. |
| `HookSettingsLaws.InstalledGroupIs` | src/latent_compass/shadow_install.py:2046-2052 | The group an install adds comes last in its event: one handler with the command, under the event's matcher. |
| `HookSettingsLaws.ReinstallChangesNothing` | src/latent_compass/shadow_install.py:2046-2052 | Installing again is accepted and changes nothing. |
| `HookSettingsLaws.RemoveUndoesInstall` | src/latent_compass/shadow_install.py:2089-2097 | Removing after an install is accepted and gives the foreign groups back, missing events empty. |
| `HookSettingsLaws.HostsShareEvents` | src/latent_compass/shadow_install.py:77-97 | Both hosts have the same three hook events, so removal over the events of both hosts is removal over its own. |
| `HookSettings.WithoutShadowGroups` | src/latent_compass/shadow_install.py:1868-1901 | The loop drops exactly the owned groups. |
| `HookSettings.ValidateExistingShadowGroups` | src/latent_compass/shadow_install.py:1986-2013 | Accepted exactly when every group with the command is the installer's own, at most one an event. |
| `HookSettings.DiscoverOwnedCommand` | src/latent_compass/shadow_install.py:1946-1983 | Finds the one command present as the installer's group in exactly the host's events, or none; refuses exactly when neither reading is possible. |
| `HookSettings.ScanForeignCommands` | src/latent_compass/shadow_install.py:2033-2045 | Passes exactly when no command but the owned one is flagged. |
| `HookSettings.Settings.PlanInstall` | src/latent_compass/shadow_install.py:2016-2052 | Refuses, changing nothing, exactly when no reading of what is owned is acceptable, each refusal with its own cause; otherwise the settings become the installed ones. |
| `HookSettings.Settings.PlanRemove` | src/latent_compass/shadow_install.py:2055-2097 | Accepts exactly under its three checks, each refusal naming the one that failed, and then takes out exactly the owned groups. |
| `Allowance.AllowanceHolds` | examples/lab_rehearsal_launcher.py:766-820 | However runs interleave and die: sessions ever started are at most the ledger's lines, at most six, and at most one home exists. |
| `Allowance.NextKeepsSafe` | examples/lab_rehearsal_launcher.py:285-306 | Every step of any run, crash or operator keeps the lock exclusive and the counts covered. |
| `Allowance.EntryAppended` | examples/lab_rehearsal_launcher.py:645-649 | A whole entry closes its line and counts one, unless it completed a torn line. |
| `Allowance.EntryTorn` | examples/lab_rehearsal_launcher.py:645-649 | A torn entry is counted at once and leaves the line open. |
| `Allowance.LaunchedSoFar` | examples/lab_rehearsal_launcher.py:276-281 | The count is the number of non-blank lines, an unterminated one included. |
| `Allowance.LiveHomeStays` | examples/lab_rehearsal_launcher.py:568-594 | No other run's step removes the home of a live run. |
| `Allowance.LiveLockMatters` | examples/lab_rehearsal_launcher.py:285-306 | Dropping a live run's lock lets the next run delete the home in use: why the operator must not. |
| `Rehearsal.KeyDirectory.RunRehearsal` | examples/lab_rehearsal_launcher.py:766-891 | Whatever the world does, a rehearsal moves the files only along steps of the protocol and ends having left it; within its allowance it runs the tasks in order up to the first that stops it, with exactly their ledger lines and sessions, and lock and home end as the world lets them. |
| `ShadowHarness.ValidateHostJsonDepth` | src/latent_compass/shadow_harness.py:140-152 | The worklist accepts exactly when the nesting height is within the limit and every float is finite. |
| `ShadowHarness.HeightIsDepth` | src/latent_compass/shadow_harness.py:140-152 | The height is the length of the longest way down through lists and dictionaries. |
| `ShadowHarness.FiniteEverywhere` | src/latent_compass/shadow_harness.py:140-152 | All floats are finite exactly when no way down ends at one that is not. |
| `ShadowHarness.ProjectForCwd` | src/latent_compass/shadow_harness.py:259-270 | The project found is the first with the longest root around the directory; none exactly when no root contains it. |

## Left out

- Windows: handle-based leases and NT calls; the model's lease steps follow the POSIX bodies.
- Leaseless fallbacks of the installer (`_complete_transaction_journal`, `_set_create_publication_state`, `_backup`), used only where a plan carries no leases.
- The residual race between a lease's assertion and its mutation, which `confined_io.py:301-307` declares out of scope: assert and mutate are one step.
- The extra re-read of the transaction's files just before writing (`_transaction_snapshot`); it can only refuse earlier.
- Path safety, symlink, size and mode checks on files, and fsync durability.
- The JSON form of the pending journal: a journal is written as a value and read back as it; any other content is `Raw`. Malformed digests and fingerprints inside a journal are not distinguished from other undecodable journals.
- `plan_install`/`plan_remove` beyond what a plan must establish (before-bytes read, backups absent, journal absent); project merging in the shadow configuration.
- SQLite: each public ledger operation is one atomic step on tables; missing or invalid binding metadata is not modelled. Tombstone and orphan findings are in table order, not sorted by episode id.
- Ledger reads that do not verify (`get`, `list_records`, `count`) and `export`.
- Timestamps keep their shape but not calendar validity; an episode keeps its id and provenance and is otherwise one opaque body.
- SHA-256 is a free constructor; the seal of a verdict and of a protocol are opaque texts.
- Baselines in a protocol, protocol revision, and loading contracts from JSON.
- A stale holdout lock is never broken by the code; its removal by an operator is not modelled.
- Floating-point rounding: values, weights and propensities are exact reals, so the tolerances of the record validators become equalities. A float in a payload is carried as its shortest decimal text.
- Which outcome field each benchmark channel reads (`reward`): a case carries one reward per action.
- Strings with unpaired surrogates, which the code refuses to encode: characters are Unicode scalar values. The parser refuses surrogate escapes, which canonical text never contains. The digit limit of decimal conversion for huge integers.
- The path string inside a normalisation refusal.
- Path objects in the hook command: runtime, wrapper and home are texts, so separator normalisation between printing and parsing is not modelled.
- The foreign-hook scanner (`_command_references_wrapper` and its launcher tables) is an arbitrary predicate on commands, of which nothing is assumed; the results over runs hold for every owner test, the parser's included. One managed wrapper path is fixed throughout a run.
- The order of keys in the hooks dictionary, which JSON does not define; the wrapper variant of `_without_shadow_groups`, which no caller uses.
- Session handling of the launcher: extracting the copy, login, pipes, usage parsing and the report. The other line separators Python splits on, which ASCII JSON entries never contain.
- Resolving a working directory and a project root to path components.
- `authority.py`, `governance.py`, `vocabulary.py`, `episode.py`, `cli.py`, `shadow_status.py`, the benchmark runner and the other benchmark modules: single-branch validation or plumbing.
