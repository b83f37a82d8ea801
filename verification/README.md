# A verified model of Hands-Free Auto Lab

Hands-Free Auto Lab lets a model work in a disposable workspace and then carries the result into a real Git repository
under human control. This project models the parts of it whose correctness spans many steps, and proves what those
parts promise. Check everything with `dafny verify dfyconfig.toml`.

**Promotion, crash and rollback.** `PromotionExecutor` moves the files of a plan from their before images to their
after images: one rename per file, with a journal append around each. `RollbackExecutor` carries out a plan that
`RollbackPlan` makes from the journal's progress and from what `AppliedTarget` sees on the disk; `RollbackSteps` says
what its steps leave, and `RollbackDurability` what of that survives a power loss. `FileSystem` keeps directory
entries and contents that have not been synchronised apart from durable ones, so a power loss may take them away.
`Host` is the world: every call takes a tick, and an arbitrary function of ticks says whether the call succeeds, fails
before, in the middle of or after its effect, or kills the process. A contract that holds for all such functions holds
for every exception and every crash point; one about a returning operation says as well that no call failed on the way
and how many there were, and one about a dying operation that a call killed it. `PromotionProgress` gives closed forms
of where a promotion stands, `PromotionRuns` puts preparation, promotion, crash, power loss and rollback together, and
`CrashedRollback` is about a power loss during the rollback of a promotion that crashed.

**One-use human approval.** `ApprovalStore` holds challenges, decisions, approvals and terminal claims, with the
directories and files that interrupted operations leave behind. The clock is an arbitrary parameter of every call.

**The controller loop.** `Controller` runs a bounded session against arbitrary answers of the model and of the
executors, with the generations, digests and cached verdicts that the code keeps; `ReferenceLoop` is the same loop
without any of them, judging every answer by the whole history; `SessionHistory` says what the step list means,
`Candidate` folds that list into a promotion candidate, and `SessionRuns` shows that the fold, the controller's maps
and the workspace agree. `Previews` and `Utf8` (section 3 of RFC 3629) cover the bounded file previews.

**Coding jobs.** `JobLifecycle` is the transition system, `LifecycleJournal` its durable chain and loader, `CodingJob`
one worker call with its workspace, validation and candidate, `JobIntegration` the driver that records and publishes
it, `JobDispatch` the queue and the review packet that is gathered from journal and store. `CandidateStore` is the
publication of immutable records by write, link and unlink; the deployments of one queue share it, as those of one
runtime do (`src/hands_free_auto_lab/lab_coding_runtime_intake.py:293-359`).

## How the source is read

- An identifier that is a SHA-256 digest of some data is represented by the data, which makes it injective. Where the
  controller compares digests the digest is a parameter assumed injective; the names of temporaries use a digest about
  which nothing is assumed. The digests of requests, results, candidates and packets are functions into strings of 64
  hexadecimal digits; that of candidates is assumed injective only where a contract says so.
- An append to a journal that returns is durable. One that does not return may have left the journal alone, torn or
  extended, and a power loss may take a promotion's last record back again.
- An image is the pair (bytes, mode); the source compares byte count, SHA-256 and mode.
- Git is an oracle that lists exactly the untracked, not ignored paths and the changed tracked paths, in any order.
  Its index and its ignore rules do not change during a run.
- Workers, models, acceptance tests and clocks are arbitrary. An acceptance verdict is a function of the workspace.
- One process at a time works on a target, as the source assumes; the stores serialise their callers with a lock.
- "Calm" in a contract means that no call fails from here on. Such clauses say that nothing but a failing call keeps
  an operation from succeeding.

## Where the code does less than one might expect

These are properties that do not hold of the code as they stand, with the exact condition under which they do.

- A promotion dies between a rename and the fsync that follows it, and a rollback starts. It is safe from a further
  power loss at every point, under any faults, exactly if some file promoted earlier is in the same directory, because
  restoring that one synchronises the directory (`CrashedRollback.NeighbourShelters`,
  `CrashedRollback.RollBackSheltered`). Without such a neighbour the rollback records INSTALLED for a rename that
  still waits; when power is lost then, the file is back at its before image with its temporary, and no plan exists
  (`CrashedRollback.RollBackUnsheltered`, for every plan and every file without such a neighbour). Whatever the
  rollback has done to other files, after such a loss a plan exists if and only if the journal still says PENDING for
  the file (`RollbackDurability.LostRename`). A rollback that starts with nothing waiting is safe at every point.
- A death in the middle of an append leaves a record that does not decode, and no recovery is possible from then on:
  recovery succeeds if and only if no append was torn, the transaction is active and the plan passes the fixed checks
  of the inspection (`PromotionRuns.RecoverPromotion`, `PromotionRuns.PromoteThenRecover`). Such a death is possible
  after each of the renames, and no sequence of calls gets past it (`PromotionRuns.TornForGood`).
- A leftover rollback temporary stops the inspection if and only if Git does not ignore it
  (`RollbackSteps.StrandedInspection`). While Git sees one, no sequence of calls moves the target or the journal; in
  sight or not, the file it belongs to is never changed again (`PromotionRuns.Run`). Ignore rules that hide it are
  possible for every target (`RollbackSteps.HiddenSpare`).
- A plan with a file whose two images are equal passes every check made before the promotion starts
  (`PromotionProgress.SameImagesAreReady`). So does one with an untracked destination as far as the preparer and the
  executor themselves check, but only if Git ignores it or it has a temporary's name
  (`PromotionProgress.ReadyButUnchecked`); the inspection made for the proposal refuses it
  (`src/hands_free_auto_lab/lab_promotion_inspector.py:782-834`). Such a plan gets no further than APPLYING, with
  nothing changed (`PromotionExecutor.Execute`, `PromotionRuns.PromoteThenRecover`).
- A challenge directory that a crash left incomplete prevents every later challenge
  (`ApprovalStore.PartialBlocksForever`). The very first creation can leave one, and then no sequence of requests ever
  makes a challenge (`ApprovalStore.BlockedForGood`).
- A job directory without its directory of snapshots prevents every operation on every job
  (`LifecycleJournal.Journal.Run`). The very first creation can leave one (`LifecycleJournal.BlockedForGood`).

## Model

| member | source | states |
|---|---|---|
| Transaction.TransitionClimbs | src/hands_free_auto_lab/lab_promotion_transaction_state.py:1237-1388 | every legal transition that changes anything raises a measure of state and progress, so no snapshot ever comes back |
| Transaction.TerminalIsFinal | src/hands_free_auto_lab/lab_promotion_transaction_state.py:98-131 | COMPLETED, ROLLED_BACK and RECOVERY_REQUIRED have no legal successor with any progress, and every other valid snapshot has one |
| TransactionJournal.Load | src/hands_free_auto_lab/lab_promotion_transaction_journal.py:1360-1512 | the loader answers exactly on complete, gapless chains of legal transitions from the initial snapshot, with the last snapshot |
| TransactionJournal.RecordsInOrder | src/hands_free_auto_lab/lab_promotion_transaction_state.py:98-131 | in any journal that loads the states follow one another in their order and every file moves one stage or none; COMPLETED comes straight after VERIFYING with every file verified, ROLLED_BACK straight after ROLLING_BACK with every file untouched or restored |
| TransactionJournal.ExtendedLoads | src/hands_free_auto_lab/lab_promotion_transaction_journal.py:1704-1858 | a journal extended by an accepted append loads, at the appended snapshot |
| TransactionJournal.ChainClimbs | src/hands_free_auto_lab/lab_promotion_transaction_journal.py:1360-1512 | snapshots of one chain never repeat, so an identifier names one place in it |
| TransactionJournal.SamePredecessorOnce | src/hands_free_auto_lab/lab_promotion_transaction_journal.py:1749-1764 | of two appends naming the same predecessor at most one is ever accepted, however much was appended in between |
| Host.Host.Append | src/hands_free_auto_lab/lab_promotion_transaction_journal.py:1704-1858 | an append that fails leaves the journal alone, torn, or extended by the legal successor of the expected snapshot; one that returns has extended it; a legal append that could read the journal returns or is torn as the fault of its write says |
| Host.Host.CreateFile | src/hands_free_auto_lab/lab_promotion_target_preparer.py:427-561 | exclusive creation, write and both fsyncs: no other path is ever affected, even by a power loss; on return the file is exact and durable |
| Target.Target.TempIsNotSpare | src/hands_free_auto_lab/lab_promotion_rollback_executor.py:1279-1300 | a promotion temporary and a rollback temporary never share a name, for any files and any digest |
| PromotionProgress.PromotableIsLaid | src/hands_free_auto_lab/lab_promotion_applied_target.py:704-768 | once the plan has passed preparation and the fixed checks, all destinations and temporaries are there and no two of them coincide |
| AppliedTarget.ValidateGitStatus | src/hands_free_auto_lab/lab_promotion_applied_target.py:549-648 | the record loop accepts exactly the lists without duplicates in which every record is an expected untracked path or an unstaged change of a plan path, and returns the set of listed paths |
| AppliedTarget.StatusDecidesClean | src/hands_free_auto_lab/lab_promotion_applied_target.py:549-648 | on an exact answer from Git that check decides precisely whether the target has no dirt beyond the plan's own |
| AppliedTarget.CheckPlan | src/hands_free_auto_lab/lab_promotion_applied_target.py:385-487 | the plan passes exactly if every modified file is tracked and has two different images, added files are untracked and visible, and the temporaries are visible and distinct |
| AppliedTarget.ObserveFiles | src/hands_free_auto_lab/lab_promotion_applied_target.py:828-914 | every file is classified as it is on the disk, exactly if what Git lists fits what is there: a temporary or an added file is listed if and only if it exists |
| AppliedTarget.Inspect | src/hands_free_auto_lab/lab_promotion_applied_target.py:651-974 | it answers only for the journal's current active snapshot on an inspectable target, with the true evidence, and fails to answer there only if a call fails |
| PreparedTarget.ValidateStatus | src/hands_free_auto_lab/lab_promotion_prepared_target.py:680-745 | before anything is applied, the list may hold each temporary once as untracked and nothing else |
| PreparedTarget.ObserveTemporaries | src/hands_free_auto_lab/lab_promotion_prepared_target.py:1265-1372 | answers exactly if every destination is as the plan found it and Git lists a temporary if and only if it exists, with the status of every temporary |
| PreparedTarget.Inspect | src/hands_free_auto_lab/lab_promotion_prepared_target.py:1204-1421 | answers only for the untouched target of a PREPARED transaction, with the true status of every temporary |
| TargetPreparer.CreateTemps | src/hands_free_auto_lab/lab_promotion_target_preparer.py:804-881 | whatever happens only temporaries change; on return every one holds its after image and everything is durable |
| TargetPreparer.CreatedIsUntouched | src/hands_free_auto_lab/lab_promotion_target_preparer.py:883-901 | creating the temporaries is exactly what the final verification asks for |
| TargetPreparer.Prepare | src/hands_free_auto_lab/lab_promotion_target_preparer.py:710-946 | no approval is touched for a target that cannot be prepared, and no temporary is created before the approval is durably consumed for this proposal and run; destinations never change; on return the target is ready; without a failing call and with a usable approval it returns |
| RollbackPlan.BuildPlan | src/hands_free_auto_lab/lab_promotion_rollback_plan.py:403-627 | the growing list is entry, the files' plans in order, and the finish, or nothing as soon as one file is ambiguous |
| RollbackPlan.PlanExists | src/hands_free_auto_lab/lab_promotion_rollback_plan.py:263-400 | a plan exists exactly if every file's progress, destination and temporary form one of the listed recoverable triples |
| RollbackPlan.StepsFit | src/hands_free_auto_lab/lab_promotion_rollback_plan.py:240-400 | every kind of step stands for one situation of its file only; every file with its after image is undone by the plan, a modified one by putting its preimage back, an added one by removing it |
| RollbackPlan.OwnStepContinues | src/hands_free_auto_lab/lab_promotion_rollback_plan.py:263-400 | each file's first step expects exactly what was seen, and after its effect the file's plan is the rest of it |
| RollbackPlan.Continues | src/hands_free_auto_lab/lab_promotion_rollback_plan.py:403-627 | after the first step of any plan, planning again gives the other steps in order |
| RollbackPlan.ReplanAfterPrefix | src/hands_free_auto_lab/lab_promotion_rollback_plan.py:403-627 | a rollback is its own continuation: for any files and any k, inspecting and planning after k steps gives exactly the remaining steps |
| RollbackPlan.FinishReady | src/hands_free_auto_lab/lab_promotion_rollback_executor.py:1512-1552 | when only the finish is left, every destination is before, no temporary remains and every file is PENDING or RESTORED |
| PromotionProgress.LogLoads | src/hands_free_auto_lab/lab_promotion_executor.py:806-929 | the promotion's sequence of snapshots is a loadable journal at every length |
| PromotionProgress.InstalledEntry | src/hands_free_auto_lab/lab_promotion_executor.py:600-613 | what any path names after k renames |
| PromotionProgress.CrashTriples | src/hands_free_auto_lab/lab_promotion_executor.py:816-902 | at every crash point the triples are (PENDING, BEFORE, EXACT), (INSTALLED or VERIFIED, AFTER, ABSENT), or for at most one file (PENDING, AFTER, ABSENT), and the target can be inspected |
| PromotionProgress.PowerLossOfPromotion | src/hands_free_auto_lab/lab_promotion_executor.py:816-869 | the crash points of journal and disk together are closed under power loss, which may take back the snapshot on its way, the waiting rename, or both; so (INSTALLED, BEFORE, _) cannot come about and no destination becomes OTHER |
| PromotionProgress.CrashIsPlannable | src/hands_free_auto_lab/lab_promotion_rollback_plan.py:263-400 | from every crash point in an active state a rollback can be planned |
| PromotionProgress.ReadyButUnchecked | src/hands_free_auto_lab/lab_promotion_prepared_target.py:680-745 | a prepared target fails the fixed checks of the later inspections exactly where a file is untracked or has two equal images, and untracked only if ignored or named like a temporary |
| PromotionProgress.SameImagesAreReady | src/hands_free_auto_lab/lab_promotion_prepared_target.py:1204-1421 | a tracked file with two equal images is prepared like any other |
| PromotionExecutor.RequireShape | src/hands_free_auto_lab/lab_promotion_executor.py:624-694 | passes only if every observed file has the shape asked for, and always if it has and no call fails |
| PromotionExecutor.GuardedInstall | src/hands_free_auto_lab/lab_promotion_executor.py:564-621 | whatever the disk holds by then, no file is replaced unless it still is the exact before image and its temporary the exact after image |
| PromotionExecutor.InstallModify | src/hands_free_auto_lab/lab_promotion_executor.py:564-621 | where an installation is due the rename happens or not; on return it has happened and nothing waits for the disk |
| PromotionExecutor.InstallAll | src/hands_free_auto_lab/lab_promotion_executor.py:816-869 | every way out of the loop leaves a crash point; on return all files are installed and journaled |
| PromotionExecutor.VerifyAll | src/hands_free_auto_lab/lab_promotion_executor.py:871-929 | every way out leaves a crash point; on return the journal is at COMPLETED |
| PromotionExecutor.FailClosed | src/hands_free_auto_lab/lab_promotion_executor.py:697-736 | once failure marking succeeds the durable state is the untouched PREPARED snapshot, COMPLETED, or RECOVERY_REQUIRED with the files as they were |
| PromotionExecutor.Execute | src/hands_free_auto_lab/lab_promotion_executor.py:739-963 | refusing changes nothing; nothing is attempted without a matching consumed approval; returning means exactly 2n+3 appends in order, all files installed, and 13n+13 calls none of which failed; past the preflight a single call that raises, wherever it is, leads to a return or to a state read back or marked RECOVERY_REQUIRED, and so does a plan that fails the fixed checks; without a failing call a promotable target is promoted; it dies exactly if a call kills it, and a death in the append after any installation leaves exactly that many files installed and the journal torn |
| RollbackExecutor.RequireStepObservation | src/hands_free_auto_lab/lab_promotion_rollback_executor.py:1073-1147 | a step goes on only if its file has exactly the progress, destination and temporary the step expects |
| RollbackExecutor.GuardedUnlink | src/hands_free_auto_lab/lab_promotion_rollback_executor.py:1193-1276 | whatever the disk holds by then, no temporary is unlinked unless it is the exact after image and its destination as the step expects it |
| RollbackExecutor.ReplaceBySpare | src/hands_free_auto_lab/lab_promotion_rollback_executor.py:1302-1486 | whatever the disk holds by then, no destination is replaced by its preimage unless it still is the exact after image |
| RollbackExecutor.RemoveExactTemp | src/hands_free_auto_lab/lab_promotion_rollback_executor.py:1193-1276 | only the exact temporary of the step's file may disappear, also under power loss and while a rename of the promotion still waits |
| RollbackExecutor.RestorePreimage | src/hands_free_auto_lab/lab_promotion_rollback_executor.py:1302-1486 | either nothing changed, or one rollback temporary was added while the destination kept its after image, or the before image is back and no temporary is left; also under power loss and while a rename of the promotion still waits |
| RollbackSteps.StrandedDestinations | src/hands_free_auto_lab/lab_promotion_rollback_executor.py:1472-1486 | a stray rollback temporary leaves every destination as it was and its own at the after image |
| RollbackSteps.SafeDestinations | src/hands_free_auto_lab/lab_promotion_rollback_executor.py:1604-1756 | whatever an interrupted rollback leaves, no destination is anything but one of its two images |
| RollbackSteps.StrandedInspection | src/hands_free_auto_lab/lab_promotion_applied_target.py:608-617 | a rollback temporary left by an interrupted restoration makes the inspection refuse if and only if Git does not ignore it |
| RollbackSteps.HiddenSpare | src/hands_free_auto_lab/lab_promotion_applied_target.py:608-617 | for every such state there are ignore rules under which it comes about as well and the inspection passes |
| RollbackSteps.RecordResumes | src/hands_free_auto_lab/lab_promotion_rollback_executor.py:1489-1509 | entering, reconciling and marking are legal when due, and the next step is due afterwards |
| RollbackSteps.FinishResumes | src/hands_free_auto_lab/lab_promotion_rollback_executor.py:1512-1552 | when the finish is due the plan is only the finish, and ROLLED_BACK is legal |
| RollbackDurability.LostRename | src/hands_free_auto_lab/lab_promotion_rollback_plan.py:263-400 | a power loss takes back the rename found waiting, after any prefix of any rollback: a plan exists if and only if the journal still says PENDING for the file |
| RollbackDurability.RemovalIsPowerSafe | src/hands_free_auto_lab/lab_promotion_rollback_executor.py:1193-1276 | whatever a power loss takes while a temporary is removed from a sheltered disk, what is left can be planned, or one rollback temporary is in the way, and other paths are as before |
| RollbackDurability.RestorationIsPowerSafe | src/hands_free_auto_lab/lab_promotion_rollback_executor.py:1302-1486 | the same while a before image is put back |
| RollbackExecutor.RunFinish | src/hands_free_auto_lab/lab_promotion_rollback_executor.py:1512-1552 | ROLLED_BACK is recorded only when planning again leaves nothing else to do |
| RollbackExecutor.RunSteps | src/hands_free_auto_lab/lab_promotion_rollback_executor.py:1625-1712 | every way out of the loop leaves the remaining plan resumable or one rollback temporary in the way; on return everything is back |
| RollbackExecutor.FailClosed | src/hands_free_auto_lab/lab_promotion_rollback_executor.py:1555-1601 | once failure marking succeeds the durable state is RECOVERY_REQUIRED or ROLLED_BACK |
| RollbackExecutor.Execute | src/hands_free_auto_lab/lab_promotion_rollback_executor.py:1604-1756 | nothing changes unless the plan given is exactly the plan of what is there; every ending is resumable or stopped by one temporary, also after power loss if the start was sheltered; returning means every file restored, no temporary, all else unchanged, and none of the calls of its steps failed; once the plan has been found exact a single call that raises, wherever it is, leads to a return or to a journal at RECOVERY_REQUIRED or ROLLED_BACK, and so does a rollback temporary in the way; it dies exactly if a call kills it; an exact plan fails only if a call fails or a temporary is in the way |
| PromotionRuns.RecoverPromotion | src/hands_free_auto_lab/lab_promotion_rollback_executor.py:1604-1756 | from every state a promotion leaves, by death, unmarked failure or power loss, recovery succeeds if and only if no append was torn, the transaction is active and the plan passes the fixed checks; then it ends ROLLED_BACK with every file restored, no temporary and all other paths as before the promotion; otherwise nothing changes |
| PromotionRuns.PromoteThenRecover | src/hands_free_auto_lab/lab_promotion_executor.py:739-963 | one process promotes under any faults and another recovers, successfully if and only if no append was torn, the transaction is still active and the plan passes the fixed checks; a plan that does not pass them changes nothing |
| PromotionRuns.Perform | src/hands_free_auto_lab/lab_promotion_target_preparer.py:744-929 | no call of preparer, executor, rollback or store moves target or journal except on an active journal or, from PREPARED, with a consumed and backed approval for the proposal and run, and never with a rollback temporary in sight; a file with a rollback temporary is not changed once PREPARED is left |
| PromotionRuns.Run | src/hands_free_auto_lab/lab_promotion_transaction_state.py:98-131 | over any sequence of calls and faults: the journal only grows; terminal states, torn journals and a rollback temporary in sight are absorbing; nothing moves from PREPARED without a durably consumed approval; and once PREPARED is left a file whose rollback temporary is there, in sight or not, never changes |
| PromotionRuns.FailedPromotionStays | src/hands_free_auto_lab/lab_promotion_executor.py:931-963 | a promotion past its preflight in which one call raises has changed nothing or ends COMPLETED or RECOVERY_REQUIRED, and then no sequence of calls under any faults moves target or journal |
| PromotionRuns.FailedRollbackStays | src/hands_free_auto_lab/lab_promotion_rollback_executor.py:1741-1756 | an exact rollback in which one call raises ends ROLLED_BACK or RECOVERY_REQUIRED, and then no sequence of calls under any faults moves target or journal |
| PromotionRuns.TornForGood | src/hands_free_auto_lab/lab_promotion_transaction_journal.py:534-587 | for every promotable plan and every one of its renames, a death in the append after it leaves the files so far installed and the journal torn, and no later calls change that |
| PromotionRuns.PrepareThenPromote | src/hands_free_auto_lab/lab_promotion_executor.py:739-963 | the net effect of a run that returns is that every file has its after image and nothing else changed, with one receipt; with a usable approval and no failing call it returns |
| CrashedRollback.NeighbourShelters | src/hands_free_auto_lab/lab_promotion_rollback_executor.py:1625-1712 | what a rollback starts with after a death before the k-th fsync is sheltered from power loss if and only if some file promoted earlier is in the same directory |
| CrashedRollback.RollBackSheltered | src/hands_free_auto_lab/lab_promotion_rollback_executor.py:1472-1486 | with nothing waiting, or with such a neighbour, a rollback of any crash point under any faults is safe from power loss wherever it stops |
| CrashedRollback.RollBackUnsheltered | src/hands_free_auto_lab/lab_promotion_rollback_executor.py:1645-1661 | for every plan and every file without such a neighbour, there is a rollback that records INSTALLED and a power loss that leaves evidence for which there is no plan |
| ApprovalStore.ConfirmedIsReported | src/hands_free_auto_lab/lab_promotion_approval_store.py:1689-1780 | in a reachable store a query says "consumed" for a run and a time exactly if the approval was consumed for it then |
| ApprovalStore.AttemptIsReported | src/hands_free_auto_lab/lab_promotion_approval_store.py:1783-1831 | what an attempt has written is what every later query reports, at any time: "revoked", "expired" or "consumed" by the time of the attempt alone |
| ApprovalStore.UnclaimedIsReported | src/hands_free_auto_lab/lab_promotion_approval_store.py:1783-1831 | before any attempt a query raises, says "approved" or says "expired" by its own time |
| ApprovalStore.ConsumptionWindow | src/hands_free_auto_lab/lab_promotion_approval_store.py:1950-2010 | every consumption is backed by an approved decision about the same proposal and lies strictly before three hours and thirty seconds after its challenge, whatever the clock did |
| ApprovalStore.ClaimedIsNeverApproved | src/hands_free_auto_lab/lab_promotion_approval_store.py:1783-1831 | once a terminal file is claimed, even if it stays empty, no query in any later store says "approved" |
| ApprovalStore.PartialBlocksForever | src/hands_free_auto_lab/lab_promotion_approval_store.py:908-1034 | a challenge directory that does not load never loads again, and no challenge can be made any more |
| ApprovalStore.BlockedForGood | src/hands_free_auto_lab/lab_promotion_approval_store.py:1357-1454 | the process that makes the first challenge can die so that, whatever is asked afterwards with any clock and faults, no challenge can be made |
| ApprovalStore.DecisionAdded | src/hands_free_auto_lab/lab_promotion_approval_store.py:1061-1093 | adding a decision file, cut short or complete, to an undecided challenge keeps the store sound |
| ApprovalStore.Approvals.ExpireOldPending | src/hands_free_auto_lab/lab_promotion_approval_store.py:1273-1354 | only challenges whose window is over are touched, and only to write that they lapsed; unless a call fails exactly those have lapsed; the answer lists exactly the challenges that are open |
| ApprovalStore.Approvals.Create | src/hands_free_auto_lab/lab_promotion_approval_store.py:1357-1454 | a challenge is made only when every earlier one is decided, with a window of exactly three hours, and earlier ones are at most marked as lapsed; without a failing call it is made if and only if every earlier one loads and is decided or over, and made or not, exactly the one that is over has lapsed |
| ApprovalStore.Approvals.Decide | src/hands_free_auto_lab/lab_promotion_approval_store.py:1457-1644 | one irreversible decision inside the window, as asked; a decision that cannot be made leaves no trace, and one after the window is written as lapsed; no other challenge changes; an approval record follows the durable decision that names it; the exact condition for success |
| ApprovalStore.Approvals.Consume | src/hands_free_auto_lab/lab_promotion_approval_store.py:1880-2042 | an attempt refused by the first checks leaves no trace; any other claims the terminal as soon as its first call takes effect, whatever the clock says, and writes into it revoked, consumed by this run or expired by the clock, whether it returns or raises; success means the approval was unclaimed, is backed and inside its window; without a failing call it succeeds if and only if a query would say "approved" |
| ApprovalStore.Approvals.Run | src/hands_free_auto_lab/lab_promotion_approval_store.py:1880-2042 | over any calls, clocks, faults and crashes no approval is consumed twice and none whose terminal had been claimed; at most one challenge is undecided |
| ApprovalStore.OneAttempt | src/hands_free_auto_lab/lab_promotion_approval_store.py:1880-2042 | once an attempt has claimed the terminal no later attempt returns, for any run, with any clock, after any calls |
| Utf8.CutDecodes | src/hands_free_auto_lab/lab_controller.py:199-206 | cutting UTF-8 after n bytes and decoding with errors ignored gives the longest prefix that fits into n bytes |
| Utf8.RoundTrip | src/hands_free_auto_lab/lab_controller.py:195-206 | decoding an encoding gives the text back |
| Previews.CurrentFilePreviews | src/hands_free_auto_lab/lab_controller.py:173-232 | one preview for each known file, in the order of the paths; their lengths sum to at most 4096; each is the longest prefix of its content that fits into what is left, and is marked truncated exactly if it is a proper prefix |
| Previews.LittleIsWasted | src/hands_free_auto_lab/lab_controller.py:199-224 | a truncated preview leaves at most three bytes of its budget unused |
| SessionHistory.GenerationsOrdered | src/hands_free_auto_lab/lab_controller.py:709-980 | the accepted generation is at most the tested one, which is at most the number of writes |
| SessionHistory.TestedMeans | src/hands_free_auto_lab/lab_controller.py:606-628 | the current generation is tested exactly if some successful run has nothing written after it |
| SessionHistory.AcceptedMeans | src/hands_free_auto_lab/lab_controller.py:630-655 | and accepted exactly if the acceptance test passed on such a run |
| SessionHistory.RetryNeedsWrite | src/hands_free_auto_lab/lab_controller.py:882-907 | between a failed run and another execution of the same run there is a write |
| SessionHistory.RerunNeedsChange | src/hands_free_auto_lab/lab_controller.py:845-880 | between a successful run and another execution of it there is a write or the success of a different run |
| SessionHistory.AcceptanceAt | src/hands_free_auto_lab/lab_controller.py:730-800 | every acceptance result in the history, cached or fresh, is that of the workspace it was given for |
| ReferenceLoop.CourseIsLawful | src/hands_free_auto_lab/lab_controller.py:557-1076 | a session is done if and only if some turn is a claim on, or a run with acceptance leading to, a history with a successful run, accepted where there is a test, and nothing written after it; that turn is its last; fewer turns than allowed without one mean failure |
| Controller.NoOpWritesAreNoOps | src/hands_free_auto_lab/lab_controller.py:709-730 | what the controller refuses as a no-op write would have changed nothing |
| Controller.WroteIsSound | src/hands_free_auto_lab/lab_controller.py:824-843 | the bookkeeping of a write keeps generations, known writes, evidence and failed runs those of the history |
| Controller.RanIsSound | src/hands_free_auto_lab/lab_controller.py:909-980 | so does the bookkeeping of a run with or without acceptance |
| Controller.KnownIsContent | src/hands_free_auto_lab/lab_controller.py:709-730 | the digest comparison refuses a write exactly if its content is what was last written to the path |
| Controller.RanIsAnswer | src/hands_free_auto_lab/lab_controller.py:909-1060 | what the bookkeeping records of a run, and whether it ends the session, is what the whole history asks for |
| Controller.Session.HandleWrite | src/hands_free_auto_lab/lab_controller.py:709-843 | a write is skipped exactly if its content is known to be there; otherwise it is carried out and accounted for, or ends the session |
| Controller.Session.HandleRun | src/hands_free_auto_lab/lab_controller.py:845-980 | a run is refused exactly if its outcome is known for the current generation, and otherwise executed; it keeps the session sound and ends it only when tested and accepted |
| Controller.Session.Iterate | src/hands_free_auto_lab/lab_controller.py:578-702 | the model's claim to be done is accepted exactly if the current generation is tested and, with an acceptance test, accepted |
| Controller.Session.Run | src/hands_free_auto_lab/lab_controller.py:471-1076 | the session is the one of the loop that judges every answer by the whole history and by fresh acceptance runs, step for step; it is done exactly if some turn completes it, that turn is its last, it has failed exactly if its last step is an error or the model stopped answering, and otherwise it made every turn there is; generations are ordered and count writes, no run is repeated on an unchanged workspace after it failed or was the last to succeed, and the fold of a candidate succeeds with the paths and digests of the controller's own maps |
| Candidate.LatestSuccessfulWrites | src/hands_free_auto_lab/lab_promotion_candidate.py:67-148 | the pass over the steps is the last write of every path, or nothing if a write step does not fit its action |
| Candidate.LatestMeans | src/hands_free_auto_lab/lab_promotion_candidate.py:67-148 | where the pass succeeds every last write is what its own action asked for, and every write step was an action carried out |
| Candidate.BuildableMeans | src/hands_free_auto_lab/lab_promotion_candidate.py:151-295 | every file that a candidate takes holds exactly the content last written to it, within the read limit |
| Candidate.Build | src/hands_free_auto_lab/lab_promotion_candidate.py:151-295 | a candidate is built exactly from a finished, tested session with current acceptance whose every written file reads back as its last write left it |
| SessionRuns.RunThenBuild | src/hands_free_auto_lab/lab_promotion_candidate.py:151-295 | an undisturbed session gives a candidate exactly if it finished and wrote something, with the contents the controller knows |
| JobLifecycle.ChainGrows | src/hands_free_auto_lab/lab_coding_job_lifecycle.py:499-629 | along a chain the job is constant, the stage climbs, and identifiers once recorded never change or vanish |
| JobLifecycle.ChainIsShort | src/hands_free_auto_lab/lab_coding_job_lifecycle.py:60-77 | a legal chain has one to three snapshots |
| JobLifecycle.SuccessorStates | src/hands_free_auto_lab/lab_coding_job_lifecycle.py:60-77 | from a valid snapshot exactly five steps are possible, with suitable evidence |
| JobLifecycle.EvidenceMeans | src/hands_free_auto_lab/lab_coding_job_lifecycle.py:220-325 | a valid snapshot names a candidate and a result exactly if it is COMPLETED, then with all the evidence before them; whatever it names is an identifier |
| LifecycleJournal.FilenameRoundTrip | src/hands_free_auto_lab/lab_coding_job_lifecycle_journal.py:810-855 | every sequence is read back from its file name |
| LifecycleJournal.SequenceRoundTrip | src/hands_free_auto_lab/lab_coding_job_lifecycle_journal.py:825-855 | and every accepted file name is the one of its sequence |
| LifecycleJournal.LoadChain | src/hands_free_auto_lab/lab_coding_job_lifecycle_journal.py:1430-1638 | a directory loads exactly if it is the image of some legal chain, and the answer is the end and length of that chain |
| LifecycleJournal.OneChain | src/hands_free_auto_lab/lab_coding_job_lifecycle_journal.py:1430-1638 | a directory is the image of at most one chain |
| LifecycleJournal.LoadsIffWritten | src/hands_free_auto_lab/lab_coding_job_lifecycle_journal.py:1641-1926 | a directory loads as a chain exactly if creating and appending wrote it |
| LifecycleJournal.SamePredecessorOnce | src/hands_free_auto_lab/lab_coding_job_lifecycle_journal.py:1833-1841 | when a chain has grown its end is another, so of two appends naming one predecessor at most one succeeds |
| LifecycleJournal.Journal.Create | src/hands_free_auto_lab/lab_coding_job_lifecycle_journal.py:1641-1787 | only a new job in a valid root is created, other jobs are untouched whatever happens, and on return the directory is the image of the one REQUESTED snapshot; a death after the first of two directories leaves the job bare |
| LifecycleJournal.Journal.Append | src/hands_free_auto_lab/lab_coding_job_lifecycle_journal.py:1790-1926 | only a legal successor of the chain's end is written, no existing file changes, and on return the directory is the image of the longer chain |
| LifecycleJournal.Journal.Load | src/hands_free_auto_lab/lab_coding_job_lifecycle_journal.py:1929-1960 | the answer is the end of the one chain the directory is the image of |
| LifecycleJournal.Journal.Run | src/hands_free_auto_lab/lab_coding_job_lifecycle_journal.py:1641-1960 | over any calls and faults no snapshot file is changed or removed, and a root that is not valid never changes again |
| LifecycleJournal.BlockedForGood | src/hands_free_auto_lab/lab_coding_job_lifecycle_journal.py:1641-1787 | the process that creates the first job can die so that no call on any job changes anything from then on |
| CodingJob.JobIsBound | src/hands_free_auto_lab/lab_worker.py:843-995 | whatever the worker answers, a job that does not raise has the worker's own result, bound to its request, with digests for identifiers, in the workspace of its own session |
| CodingJob.JobReturns | src/hands_free_auto_lab/lab_worker_job.py:49-177 | the exact condition under which a job does not raise: workspace, snapshots, change policy, and an answer bound to its request |
| CodingJob.CandidateIsBuilt | src/hands_free_auto_lab/lab_coding_candidate.py:509-630 | the exact condition under which a candidate is built from any record, none of it taken on trust |
| CodingJob.CandidateIsBound | src/hands_free_auto_lab/lab_coding_candidate.py:509-630 | a candidate is built exactly from a completed job whose changes can be collected and whose workspace is still as it was; it names the session of its deployment and itself |
| JobIntegration.FinalIsLegal | src/hands_free_auto_lab/lab_coding_integration.py:309-442 | whatever the worker answers and whatever the store does, the terminal transition the driver asks for is legal, and COMPLETED only with a stored candidate |
| JobIntegration.FinalIsTruthful | src/hands_free_auto_lab/lab_coding_integration.py:309-442 | the last snapshot is TIMED_OUT exactly if the job has a result that says so, COMPLETED exactly if its candidate was stored, FAILED otherwise; it names the job's request and result exactly if there are any, candidate and integration result exactly if it is COMPLETED |
| JobIntegration.Judge | src/hands_free_auto_lab/lab_coding_integration.py:309-442 | the branches of the driver come to that snapshot's state and evidence |
| JobIntegration.Begin | src/hands_free_auto_lab/lab_coding_integration.py:262-284 | returns only with REQUESTED and RUNNING durable for a job that was new |
| JobIntegration.Finalize | src/hands_free_auto_lab/lab_coding_workflow.py:38-67 | returns only the job's own candidate, new and durable in the store, where nothing else changed; with a working store it returns if and only if there is a candidate that the store can take |
| JobIntegration.RunRequest | src/hands_free_auto_lab/lab_coding_integration.py:234-442 | the worker runs at most once, and worker and store only behind a durable RUNNING; a result is returned only with the whole chain and its candidate durable; with a working journal whatever worker and store do is recorded truthfully as a terminal state, unless the process dies in the store, which leaves the job RUNNING; it dies exactly if a call kills it |
| JobDispatch.ValidateQueue | src/hands_free_auto_lab/lab_coding_job_queue.py:183-252 | counting different identifiers accepts exactly the queues of one to 32 jobs of which no two are for one request or in one run |
| JobDispatch.ValidateDeployments | src/hands_free_auto_lab/lab_coding_job_dispatcher.py:21-51 | and exactly one deployment for each job, no two of them with one session |
| JobDispatch.RunQueue | src/hands_free_auto_lab/lab_coding_job_dispatcher.py:54-100 | items before the stop are COMPLETED with their candidates in the store, later ones untouched, each worker ran at most once and in order; with a working journal dispatch stops only at a job whose last snapshot tells truthfully why it is FAILED or TIMED_OUT; with a working store as well it returns if and only if every job yields a candidate |
| JobDispatch.ValidatePacket | src/hands_free_auto_lab/lab_coding_review_packet.py:297-367 | accepts exactly valid queues with one consistent item for each job, in order, under the identifier that is the digest of both |
| JobDispatch.ItemIsBound | src/hands_free_auto_lab/lab_coding_review_packet.py:197-294 | a valid item is complete, and its snapshot determines result and candidate, as candidate, job and worker identifiers determine the rest: an item that differs from a valid one in one part only is refused |
| JobDispatch.BuildPacket | src/hands_free_auto_lab/lab_coding_review_packet.py:370-418 | a packet is built exactly from items that match the queue, and it then holds them under their digest |
| JobDispatch.DispatchIsReviewable | src/hands_free_auto_lab/lab_coding_review_packet.py:197-294 | the packet of a full dispatch always validates: in particular every candidate comes from the session it was deployed in |
| JobDispatch.DispatchAndReview | src/hands_free_auto_lab/lab_coding_review_packet.py:370-418 | whatever goes wrong, what is returned is a matching packet whose candidates come from the sessions they were deployed in; without a failing call it returns if and only if every job yields a candidate |
| CandidateStore.NamesOfId | src/hands_free_auto_lab/lab_coding_candidate_store.py:186-197 | names and identifiers correspond, and no name is both a record's and a temporary's |
| CandidateStore.LayoutMeansNoTemporaries | src/hands_free_auto_lab/lab_coding_candidate_store.py:200-222 | in an orderly store the layout check, link counts included, refuses exactly while a temporary remains |
| CandidateStore.PowerLossKeepsOrder | src/hands_free_auto_lab/lab_coding_candidate_store.py:354-440 | after any power loss every visible record is complete and every durable one is there, unchanged |
| CandidateStore.Store.Persist | src/hands_free_auto_lab/lab_coding_candidate_store.py:354-440 | however it ends every visible record is complete and none that was visible has changed; it refuses while a temporary remains; on return the record is durable and no temporary is left; without a failing call it returns if and only if no temporary remains, the record is not too large and its name is free; it returns after eight calls, none of which failed |
| CandidateStore.Store.Load | src/hands_free_auto_lab/lab_coding_candidate_store.py:443-467 | refuses while a temporary remains, and otherwise returns exactly the record with this identifier; without a failing call it returns if and only if that record is there |
| CandidateStore.Store.Run | src/hands_free_auto_lab/lab_coding_candidate_store.py:354-467 | over any calls, faults and power losses a durable record stays, with the same content |
| CandidateStore.LoadsWhatWasPersisted | src/hands_free_auto_lab/lab_coding_candidate_store.py:443-467 | whatever a later load returns under a persisted candidate's identifier is that candidate |

## Left out

- Host.Host.Append: what a power loss makes of a record whose append did not return is modelled for the promotion's
  appends, not for the rollback's, whose last record counts as durable once it can be read. The four fsyncs after the
  write are one call.
- ApprovalStore.Approvals.Perform: the store is likewise exposed to failing calls and process death only; its fsyncs,
  root initialisation and file modes are not modelled.
- Controller.Session.Run: the order of files in a candidate, the context shown to the model other than the file
  previews, and the text and integer checks on the arguments are not modelled; an acceptance verdict is a function of
  the workspace, so timeouts that strike only sometimes are not. That two accepted path texts never name one file,
  which the policy's canonical-path rule provides, is built into the workspace being a map from path texts.
- Previews.CurrentFilePreviews: the paths come sorted.
- JobDispatch.ValidatePacket: the wire decoders of the review packet are not modelled.
- CodingJob.JobIsBound: goal, policy and limits of a request come with its job; what the change policy and the text
  checks say, and what walking a workspace finds, are arbitrary functions.
- ADD operations in the two executors, which both refuse them; the planner and the inspections model them.
- Creation of the transaction journal and the recovery-material store: a journal starts as created, and the preimage
  of a file is the before image of its plan. Loading recovery materials is a call that may fail.
- Descriptor-level checks of owner, mode, link count and inode identity, beyond one flag for a file that fails them;
  link counts are modelled where the candidate store depends on them.
- Byte-level parsing of Git's answer, and the comparison of branch and HEAD.
- Canonical JSON: a record is its contents, and the candidate store's encoding is any codec whose decoder inverts it.
- Processes that work on one target at the same time; the source takes no repository lock.
- The lifecycle journal under power loss: a crash may leave a job's directory bare, empty or with a torn file.
- Sandboxes, workers, model adapters, snapshots of workspaces and every other foreign call.
