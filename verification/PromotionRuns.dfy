/** Whole runs: preparation, promotion, crash, rollback, and any sequence of them. */
module PromotionRuns {
  import opened Basics
  import opened FileSystem
  import opened Transaction
  import opened TransactionJournal
  import opened Target
  import opened Host
  import opened PromotionProgress
  import opened RollbackPlan
  import ApprovalStore
  import AppliedTarget
  import TargetPreparer
  import PreparedTarget
  import PromotionExecutor
  import RollbackDurability
  import RollbackExecutor
  import RollbackSteps

  // ---- crash anywhere, then roll back --------------------------------------------------------

  lemma {:induction false} PlanIsShort(state: State, es: seq<Evidence>)
    requires PlanFiles(state, es).Some?
    ensures |PlanFiles(state, es).value| <= 3 * |es|
  {
    if es != [] { PlanIsShort(state, es[1..]); }
  }

  /** Nothing but a fault can keep a recovery from succeeding. */
  ghost predicate Recoverable(t: Target, disk: Disk, j: Journal) {
    && t.ModifyOnly() && RollbackSteps.NoSpares(t, disk)
    && Loads(j) && AppliedTarget.Inspectable(t, disk, Current(j))
    && PlanSteps(Current(j).state, t.Observed(disk, Current(j).progress)).Some?
    && |j.records| + 3 * t.Size() + 2 <= MAX_SNAPSHOTS
  }

  /** There is something to recover: the journal loads, at an active state, and the target can be inspected. */
  ghost predicate Open(t: Target, disk: Disk, j: Journal) { Loads(j) && AppliedTarget.Inspectable(t, disk, Current(j)) }

  /** Inspect, plan and roll back, the way an operator recovers. */
  method Recover(h: Host) returns (e: Ending)
    requires h.target.Valid() && h.disk.Valid() && h.journal.size == h.target.Size()
    modifies h`tick, h`disk, h`journal
    ensures e.Finished? ==> RollbackExecutor.Rolled(h.target, old(h.disk), h.disk, h.journal, e.snapshot)
    ensures e.Refused? ==> h.disk == old(h.disk) && h.journal == old(h.journal)
    ensures !Open(h.target, old(h.disk), old(h.journal)) ==> e.Refused?
    ensures old(h.Calm()) && Recoverable(h.target, old(h.disk), old(h.journal)) ==> e.Finished?
  {
    var loaded := h.LoadJournal();
    if !loaded.Done? { return Refused; }
    var s := loaded.value;
    var files := AppliedTarget.Inspect(h, s);
    if !files.Done? { return Refused; }
    var steps := BuildPlan(s.state, files.value);
    if steps.None? { return Refused; }
    PlanIsShort(s.state, files.value);
    ghost var s';
    e, s' := RollbackExecutor.Execute(h, s, steps.value);
  }

  /** `disk` and `m'` snapshots are what is found after a promotion stopped at `crashed` and `m`: the same, or what a
      power loss made of them. */
  ghost predicate FoundAfter(n: nat, before: Disk, crashed: Disk, m: nat, k: nat, disk: Disk, m': nat) {
    || (disk == crashed && m' == m)
    || (before.AtRest() && AfterPowerLoss(crashed, disk) && Leaves(n, m, k, m'))
  }

  /** The states that a promotion can leave unmarked, whether the process died, raised without managing to mark the
      failure, or lost power on top. The last append may have been torn. */
  ghost predicate LeftBehind(t: Target, before: Disk, crashed: Disk, disk: Disk, j: Journal, m: nat, k: nat, m': nat) {
    && Ready(t, before) && before.Valid() && RollbackSteps.NoSpares(t, before)
    && InStep(t.Size(), m, k) && Stands(t, before, crashed, m, k) && (1 < m || 0 < k ==> t.Checked())
    && FoundAfter(t.Size(), before, crashed, m, k, disk, m')
    && m' <= m && j.size == t.Size() && j.records == Log(t.Size(), m')
  }

  /** From such a state recovery restores every file, removes every promotion temporary, and leaves all other paths as
      they were before the promotion - exactly if no append was torn, the transaction is active and the plan passes the
      fixed checks of the inspection. Otherwise it is refused and nothing changes. */
  method RecoverPromotion(h: Host, ghost before: Disk, ghost crashed: Disk, ghost m: nat, ghost k: nat, ghost m': nat)
    returns (e: Ending)
    requires h.disk.Valid() && LeftBehind(h.target, before, crashed, h.disk, h.journal, m, k, m')
    requires h.Calm() && 5 * h.target.Size() + 5 <= MAX_SNAPSHOTS
    modifies h`tick, h`disk, h`journal
    ensures e.Finished? <==>
      !old(h.journal).torn && Active(Current(old(h.journal)).state) && h.target.Checked()
    ensures e.Finished? ==> Recovered(h.target, before, h.disk, h.journal, e.snapshot)
    ensures !e.Finished? ==> e.Refused? && h.disk == old(h.disk) && h.journal == old(h.journal)
  {
    RecoveryDecided(h.target, before, crashed, h.disk, h.journal, m, k, m');
    e := Recover(h);
  }

  lemma RecoveryDecided(t: Target, before: Disk, crashed: Disk, disk: Disk, j: Journal, m: nat, k: nat, m': nat)
    requires LeftBehind(t, before, crashed, disk, j, m, k, m') && 5 * t.Size() + 5 <= MAX_SNAPSHOTS
    ensures j.records != []
    ensures Open(t, disk, j) <==> !j.torn && Active(Current(j).state) && t.Checked()
    ensures Open(t, disk, j) ==>
      && disk.Valid() && Recoverable(t, disk, j)
      && forall p :: p !in t.Temps() && p !in t.Dests(Modify) ==> disk.Look(p) == before.Look(p)
  {
    if !j.torn && Active(Current(j).state) && t.Checked() {
      assert j == Journal(t.Size(), Log(t.Size(), m'), false);
      CrashIsRecoverable(t, before, crashed, disk, m, k, m');
    }
  }

  /** Everything is as it was before the promotion, apart from the temporaries, which are gone. */
  ghost predicate Recovered(t: Target, before: Disk, disk: Disk, j: Journal, s: Snapshot) {
    && s.state == RolledBack && Loads(j) && Current(j) == s && RollbackSteps.AllBack(t, disk)
    && forall p :: p !in t.Temps() && p !in t.Dests(Modify) ==> disk.Look(p) == before.Look(p)
  }

  lemma CrashIsRecoverable(t: Target, before: Disk, crashed: Disk, disk: Disk, m: nat, k: nat, m': nat)
    requires Promotable(t, before) && before.Valid() && RollbackSteps.NoSpares(t, before)
    requires InStep(t.Size(), m, k) && Stands(t, before, crashed, m, k)
    requires FoundAfter(t.Size(), before, crashed, m, k, disk, m')
    requires 1 <= m' <= 2 * t.Size() + 2 && 5 * t.Size() + 5 <= MAX_SNAPSHOTS
    ensures disk.Valid() && Recoverable(t, disk, Journal(t.Size(), Log(t.Size(), m'), false))
    ensures forall p :: p !in t.Temps() && p !in t.Dests(Modify) ==> disk.Look(p) == before.Look(p)
  {
    hide Disk.AtRest, AfterPowerLoss, AppliedTarget.Inspectable, PlanSteps;
    var k' := k;
    if disk != crashed || m' != m { k' := PowerLossOfPromotion(t, before, crashed, m, k, m', disk); }
    CrashIsPlannable(t, before, disk, m', k');
    InstalledKeepsBounds(t, before, k');
    InstalledIsClean(t, before, disk, k');
    InstalledKeepsSpares(t, before, disk, k');
    LogLoads(t.Size(), m');
    assert Current(Journal(t.Size(), Log(t.Size(), m'), false)) == SnapshotAt(t.Size(), m');
  }

  /** One process promotes, under any faults; another recovers. Recovery succeeds exactly if the first one left the
      transaction active, did not die in the middle of an append, and the plan passes the fixed checks of the
      inspection. A plan that does not gets no further than APPLYING, with nothing of the target changed. */
  method PromoteThenRecover(h: Host, store: ApprovalStore.Store, now: ApprovalStore.Time, s: Snapshot,
                            prep: TargetPreparer.Preparation)
    returns (e: Ending, r: Host, recovered: Ending)
    requires h.target.Valid() && h.disk.Valid() && h.journal.size == h.target.Size()
    requires Loads(h.journal) && !Active(Current(h.journal).state)
    requires RollbackSteps.NoSpares(h.target, h.disk) && 5 * h.target.Size() + 5 <= MAX_SNAPSHOTS
    modifies h`tick, h`disk, h`journal
    ensures fresh(r) && r.target == h.target && h.journal.records != []
    ensures !h.target.Checked() ==> h.disk.live == old(h.disk).live && h.disk.inodes == old(h.disk).inodes
    ensures recovered.Finished? <==> !h.journal.torn && Active(Current(h.journal).state) && h.target.Checked()
    ensures recovered.Finished? ==> Recovered(h.target, old(h.disk), r.disk, r.journal, recovered.snapshot)
    ensures !recovered.Finished? ==> recovered.Refused? && r.disk == h.disk && r.journal == h.journal
  {
    hide PromotionExecutor.Approved, PromotionExecutor.Matches, Disk.AtRest, AfterPowerLoss, Leaves,
      RollbackSteps.AllBack;
    ghost var before := h.disk;
    ghost var m, k;
    e, m, k := PromotionExecutor.Execute(h, store, now, s, prep);
    r := new Host(h.target, _ => Quiet, h.disk, h.journal);
    if PromotionExecutor.Attempted(h, before, store, now, prep, m, k) {
      if 0 < k { InstalledKeepsBounds(h.target, before, k); }
      if PromotionExecutor.At(h, before, m, k) {
        RecoveryDecided(h.target, before, h.disk, h.disk, h.journal, m, k, m);
      }
    }
    recovered := Recover(r);
  }

  lemma {:induction false} InstalledKeepsBounds(t: Target, before: Disk, k: nat)
    requires Promotable(t, before) && before.Valid() && k <= t.Size()
    ensures forall p :: p in InstalledIn(t, before.live, k) ==> InstalledIn(t, before.live, k)[p] < |before.inodes|
  {
    if k > 0 { InstalledKeepsBounds(t, before, k - 1); }
  }

  lemma InstalledKeepsSpares(t: Target, before: Disk, disk: Disk, k: nat)
    requires Promotable(t, before) && k <= t.Size() && RollbackSteps.NoSpares(t, before)
    requires disk.inodes == before.inodes && disk.live == InstalledIn(t, before.live, k)
    ensures RollbackSteps.NoSpares(t, disk)
  {
    InstalledIsClean(t, before, disk, k);
    forall i | 0 <= i < t.Size() ensures t.Spare(i) !in t.Temps() && t.Spare(i) !in t.Dests(Modify) {
      forall j | 0 <= j < t.Size() ensures t.Temp(j) != t.Spare(i) && t.Dest(j) != t.Spare(i) {
        t.TempIsNotSpare(j, i);
        assert t.DestinationSeen(before, j) == Before;
        assert before.Look(t.Dest(j)).Some?;
      }
    }
  }

  // ---- any sequence of calls -----------------------------------------------------------------

  datatype Call =
    | Store(request: ApprovalStore.Request)
    | Prepare(transaction: Snapshot, approvalId: string, now: ApprovalStore.Time)
    | Promote(transaction: Snapshot, preparation: TargetPreparer.Preparation, now: ApprovalStore.Time)
    | Rollback(transaction: Snapshot, steps: seq<Step>)

  /** Nothing moves the target without a consumed approval, on a journal that is not open for it, or with a rollback
      temporary in sight. */
  ghost predicate Justified(t: Target, before: Disk, disk: Disk, was: Journal, j: Journal, store: ApprovalStore.Store) {
    && was.records <= j.records
    && (disk != before || j != was ==>
          && Loads(was) && !SpareInSight(t, before)
          && (Active(Current(was).state) || (Current(was).state == State.Prepared && Authorised(store, t))))
    && (PastPrepared(was) ==> RollbackSteps.Blocked(t, before, disk))
  }

  /** The path is there, and Git lists it as untracked. */
  predicate InSight(t: Target, disk: Disk, p: Path) {
    disk.Look(p).Some? && p !in t.git.tracked && !t.git.ignored(p)
  }

  /** Git sees the rollback temporary of some file. */
  ghost predicate SpareInSight(t: Target, disk: Disk) {
    exists i :: 0 <= i < t.Size() && InSight(t, disk, t.Spare(i))
  }

  /** The transaction has left PREPARED, or its journal does not load. */
  ghost predicate PastPrepared(j: Journal) { Loads(j) ==> Current(j).state != State.Prepared }

  lemma PastPreparedStays(was: Journal, j: Journal)
    requires PastPrepared(was) && was.records <= j.records && (j != was ==> Loads(was))
    ensures PastPrepared(j)
  {
    if j != was && Loads(j) {
      assert was.records[0] == Record(0, None, Initial(was.size));
      assert |was.records| > 1;
      PromotionExecutor.NeverPreparedAgain(j, |j.records| - 1);
    }
  }

  /** A rollback temporary in sight is foreign dirt to every inspection; its name is never one of the promotion's
      own. */
  lemma SpareIsForeign(t: Target, disk: Disk)
    requires SpareInSight(t, disk)
    ensures !(t.Untracked(disk) <= t.Temps())
  {
    var i :| 0 <= i < t.Size() && InSight(t, disk, t.Spare(i));
    forall j | 0 <= j < t.Size() ensures t.Temp(j) != t.Spare(i) { t.TempIsNotSpare(j, i); }
    assert t.Spare(i) in t.Untracked(disk);
  }

  method PerformPrepare(h: Host, approvals: ApprovalStore.Approvals, s: Snapshot, approvalId: string,
                      now: ApprovalStore.Time)
    requires h.target.Valid() && h.disk.Valid() && approvals.Safe()
    modifies h`tick, h`disk, approvals
    ensures h.disk.Valid() && approvals.Safe() && ApprovalStore.Grows(old(approvals.store), approvals.store)
    ensures Justified(h.target, old(h.disk), h.disk, h.journal, h.journal, approvals.store)
  {
    if SpareInSight(h.target, h.disk) { SpareIsForeign(h.target, h.disk); }
    var o := TargetPreparer.Prepare(h, approvals, s, approvalId, now);
  }

  method PerformPromote(h: Host, store: ApprovalStore.Store, s: Snapshot, prep: TargetPreparer.Preparation,
                      now: ApprovalStore.Time)
    requires h.target.Valid() && h.disk.Valid() && h.journal.size == h.target.Size() && ApprovalStore.Sound(store)
    modifies h`tick, h`disk, h`journal
    ensures h.disk.Valid() && h.journal.size == h.target.Size()
    ensures Justified(h.target, old(h.disk), h.disk, old(h.journal), h.journal, store)
  {
    ghost var before := h.disk;
    ghost var m, k;
    var e;
    if SpareInSight(h.target, h.disk) { SpareIsForeign(h.target, h.disk); }
    e, m, k := PromotionExecutor.Execute(h, store, now, s, prep);
    ApprovedIsAuthorised(h.target, store, prep, now);
    if h.disk != before || h.journal != old(h.journal) {
      PromotionExecutor.InitialLog(old(h.journal));
      LogStarts(h.target.Size(), m);
      if 0 < k { InstalledKeepsBounds(h.target, before, k); }
    }
  }

  lemma LogStarts(n: nat, m: nat)
    requires m <= 2 * n + 3
    ensures Log(n, 0) <= Log(n, m)
  {
  }

  method PerformRollback(h: Host, ghost store: ApprovalStore.Store, s: Snapshot, steps: seq<Step>)
    requires h.target.Valid() && h.disk.Valid() && h.journal.size == h.target.Size()
    modifies h`tick, h`disk, h`journal
    ensures h.disk.Valid() && h.journal.size == h.target.Size()
    ensures Justified(h.target, old(h.disk), h.disk, old(h.journal), h.journal, store)
  {
    if SpareInSight(h.target, h.disk) { SpareIsForeign(h.target, h.disk); }
    ghost var s';
    var e;
    e, s' := RollbackExecutor.Execute(h, s, steps);
  }

  method Perform(h: Host, approvals: ApprovalStore.Approvals, call: Call)
    requires h.target.Valid() && h.disk.Valid() && h.journal.size == h.target.Size() && approvals.Safe()
    modifies h`tick, h`disk, h`journal, approvals
    ensures h.disk.Valid() && h.journal.size == h.target.Size() && approvals.Safe()
    ensures ApprovalStore.Grows(old(approvals.store), approvals.store)
    ensures Justified(h.target, old(h.disk), h.disk, old(h.journal), h.journal, approvals.store)
  {
    match call {
      case Store(request) => approvals.Run([request]);
      case Prepare(s, approvalId, now) => PerformPrepare(h, approvals, s, approvalId, now);
      case Promote(s, preparation, now) => PerformPromote(h, approvals.store, s, preparation, now);
      case Rollback(s, steps) => PerformRollback(h, approvals.store, s, steps);
    }
  }

  /** Some approval was durably consumed for this proposal and this run, backed by a decision that approved it. */
  ghost predicate Authorised(store: ApprovalStore.Store, t: Target) {
    exists id :: ApprovalStore.ConsumedBy(store, id, t.plan.proposalId, t.plan.runId)
  }

  lemma ApprovedIsAuthorised(t: Target, store: ApprovalStore.Store, prep: TargetPreparer.Preparation,
                      now: ApprovalStore.Time)
    requires ApprovalStore.Sound(store)
    ensures PromotionExecutor.Approved(t, store, prep, now) ==> Authorised(store, t)
  {
    if PromotionExecutor.Approved(t, store, prep, now) {
      ApprovalStore.ConfirmedIsReported(store, prep.approvalId, t.plan.proposalId, t.plan.runId, prep.terminalAt, now);
      assert ApprovalStore.ConsumedBy(store, prep.approvalId, t.plan.proposalId, t.plan.runId);
    }
  }

  /** Nothing can move the target any more: the journal does not load or is at its end, or Git sees a rollback
      temporary. */
  ghost predicate Stuck(t: Target, disk: Disk, j: Journal) {
    !Loads(j) || Terminal(Current(j).state) || SpareInSight(t, disk)
  }

  /** Any number of calls, in any order, under any faults. The journal only ever grows. After COMPLETED, ROLLED_BACK or
      RECOVERY_REQUIRED, over a torn journal, or while Git sees a rollback temporary, nothing moves the target or the
      journal ever again. From a transaction not yet applied, nothing moves them - no temporary is created, no
      destination replaced - without an approval durably consumed for it. And once it has been applied, a file whose
      rollback temporary is there, in sight or not, is never changed again. */
  method Run(h: Host, approvals: ApprovalStore.Approvals, calls: seq<Call>)
    requires h.target.Valid() && h.disk.Valid() && h.journal.size == h.target.Size() && approvals.Safe()
    modifies h`tick, h`disk, h`journal, approvals
    ensures old(h.journal).records <= h.journal.records
    ensures Stuck(h.target, old(h.disk), old(h.journal)) ==> h.disk == old(h.disk) && h.journal == old(h.journal)
    ensures (h.disk != old(h.disk) || h.journal != old(h.journal)) ==>
      Loads(old(h.journal))
        && (Current(old(h.journal)).state == State.Prepared ==> Authorised(approvals.store, h.target))
    ensures PastPrepared(old(h.journal)) ==> RollbackSteps.Blocked(h.target, old(h.disk), h.disk)
  {
    for i := 0 to |calls|
      invariant h.disk.Valid() && h.journal.size == h.target.Size() && approvals.Safe()
      invariant old(h.journal).records <= h.journal.records
      invariant Stuck(h.target, old(h.disk), old(h.journal)) ==> h.disk == old(h.disk) && h.journal == old(h.journal)
      invariant h.disk != old(h.disk) || h.journal != old(h.journal) ==> Loads(old(h.journal))
      invariant
        && (h.disk != old(h.disk) || h.journal != old(h.journal)) && Current(old(h.journal)).state == State.Prepared
        ==> Authorised(approvals.store, h.target)
      invariant PastPrepared(old(h.journal)) ==>
        PastPrepared(h.journal) && RollbackSteps.Blocked(h.target, old(h.disk), h.disk)
    {
      ghost var store, was := approvals.store, h.journal;
      Perform(h, approvals, calls[i]);
      AuthorisedGrows(h.target, store, approvals.store);
      if PastPrepared(was) { PastPreparedStays(was, h.journal); }
    }
  }

  /** A death in the middle of an append is for good. There is such a death after any number of renames, and whatever is
      called afterwards, under any faults, the files installed by then stay installed and the journal never loads
      again. */
  method TornForGood(t: Target, before: Disk, store: ApprovalStore.Store, now: ApprovalStore.Time,
                     prep: TargetPreparer.Preparation, w: nat, faults: nat -> Fault, approvals: ApprovalStore.Approvals,
                     calls: seq<Call>)
    returns (h: Host)
    requires Promotable(t, before) && before.Valid() && w < t.Size() && 2 * t.Size() + 4 <= MAX_SNAPSHOTS
    requires PromotionExecutor.Matches(t, prep) && PromotionExecutor.Approved(t, store, prep, now) && approvals.Safe()
    modifies approvals
    ensures fresh(h) && TornAt(t, before, h.disk, h.journal, w + 1)
  {
    var p := PromoteUntilTorn(t, before, store, now, prep, w);
    h := new Host(t, faults, p.disk, p.journal);
    hide *;
    Run(h, approvals, calls);
  }

  /** The first `k` files are installed and a torn file follows the snapshot of installation `k - 1`. */
  ghost predicate TornAt(t: Target, before: Disk, disk: Disk, j: Journal, k: nat)
    requires k <= t.Size()
  {
    && j.records == Log(t.Size(), k) && !Loads(j) && disk.live == InstalledIn(t, before.live, k)
    && forall i :: 0 <= i < k ==> t.DestinationSeen(disk, i) == After && t.TemporarySeen(disk, i) == Absent
  }

  method PromoteUntilTorn(t: Target, before: Disk, store: ApprovalStore.Store, now: ApprovalStore.Time,
                          prep: TargetPreparer.Preparation, w: nat)
    returns (p: Host)
    requires Promotable(t, before) && before.Valid() && w < t.Size() && 2 * t.Size() + 4 <= MAX_SNAPSHOTS
    requires PromotionExecutor.Matches(t, prep) && PromotionExecutor.Approved(t, store, prep, now)
    ensures fresh(p) && p.target == t && p.disk.Valid() && p.journal.size == t.Size() && !Loads(p.journal)
    ensures TornAt(t, before, p.disk, p.journal, w + 1)
  {
    LogLoads(t.Size(), 0);
    var deadly := u requires 0 <= u => if u < 9 * w + 15 then Quiet else DieTorn(0);
    p := new Host(t, deadly, before, Journal(t.Size(), Log(t.Size(), 0), false));
    assert PromotionExecutor.DiesTorn(p.faults, p.tick, 9 * w + 15);
    var e;
    ghost var m, k;
    assert Current(p.journal) == Initial(t.Size());
    hide PromotionExecutor.DiesTorn, Log, Promotable, Disk.AtRest, Target.Checked;
    e, m, k := PromotionExecutor.Execute(p, store, now, Initial(t.Size()), prep);
    StandsTorn(t, before, p.disk, w + 1);
  }

  lemma StandsTorn(t: Target, before: Disk, disk: Disk, k: nat)
    requires Promotable(t, before) && before.Valid() && 0 < k <= t.Size() && Stands(t, before, disk, k, k)
    ensures disk.Valid() && disk.live == InstalledIn(t, before.live, k)
    ensures forall i :: 0 <= i < k ==> t.DestinationSeen(disk, i) == After && t.TemporarySeen(disk, i) == Absent
  {
    InstalledEvidence(t, before, disk, k);
    InstalledKeepsBounds(t, before, k);
  }

  lemma AuthorisedGrows(t: Target, s: ApprovalStore.Store, s': ApprovalStore.Store)
    requires ApprovalStore.Grows(s, s')
    ensures Authorised(s, t) ==> Authorised(s', t)
  {
    if Authorised(s, t) {
      var id :| ApprovalStore.ConsumedBy(s, id, t.plan.proposalId, t.plan.runId);
      ApprovalStore.ConsumedGrows(s, s', id, t.plan.proposalId, t.plan.runId);
    }
  }

  // ---- a failure that is marked ----------------------------------------------------------------

  /** A promotion past its preflight, in which at most one call raises, wherever that is. Either nothing has been
      appended and no file replaced, or the transaction is COMPLETED or marked RECOVERY_REQUIRED, and then nothing that
      is called afterwards, under any faults, moves the target or the journal. */
  method FailedPromotionStays(h: Host, store: ApprovalStore.Store, now: ApprovalStore.Time, s: Snapshot,
                              prep: TargetPreparer.Preparation, faults: nat -> Fault,
                              approvals: ApprovalStore.Approvals, calls: seq<Call>)
    returns (e: Ending, r: Host)
    requires h.target.Valid() && h.disk.Valid() && h.journal.size == h.target.Size() && approvals.Safe()
    requires Loads(h.journal) && Current(h.journal) == s == Initial(h.target.Size()) && Promotable(h.target, h.disk)
    requires PromotionExecutor.Matches(h.target, prep) && PromotionExecutor.Approved(h.target, store, prep, now)
    requires h.QuietFor(5) && h.OneRaise() && 2 * h.target.Size() + 4 <= MAX_SNAPSHOTS
    modifies h`tick, h`disk, h`journal, approvals
    ensures fresh(r) && r.target == h.target && (e.Finished? || e.FailedClosed?)
    ensures Loads(h.journal) && e.snapshot == Current(h.journal)
    ensures
      || (h.journal.records == old(h.journal).records
          && h.disk.live == old(h.disk).live && h.disk.inodes == old(h.disk).inodes)
      || (&& (Current(h.journal).state == State.Completed || Current(h.journal).state == RecoveryRequired)
          && r.disk == h.disk && r.journal == h.journal)
  {
    hide PromotionExecutor.Approved, PromotionExecutor.Matches, Target.Checked, Stuck, Linked;
    ghost var before, n := h.disk, h.target.Size();
    ghost var m, k;
    PromotionExecutor.InitialLog(h.journal);
    e, m, k := PromotionExecutor.Execute(h, store, now, s, prep);
    ClosedIsTerminal(h.target, before, h.disk, h.journal, m, k);
    r := new Host(h.target, faults, h.disk, h.journal);
    EndIsStuck(h.target, h.disk, h.journal);
    Run(r, approvals, calls);
  }

  lemma EndIsStuck(t: Target, disk: Disk, j: Journal)
    ensures Loads(j) && Terminal(Current(j).state) ==> Stuck(t, disk, j)
  {
  }

  /** What a promotion leaves that has finished, or that has failed and was marked. */
  lemma ClosedIsTerminal(t: Target, before: Disk, disk: Disk, j: Journal, m: nat, k: nat)
    requires Promotable(t, before) && before.Valid() && 2 * t.Size() + 4 <= MAX_SNAPSHOTS && !j.torn
    requires j.size == t.Size() && InStep(t.Size(), m, k) && Stands(t, before, disk, m, k)
    requires j.records == Log(t.Size(), m) + if 1 <= m <= 2 * t.Size() + 2 then [PromotionExecutor.Marker(t.Size(), m)]
                                             else []
    ensures disk.Valid() && Loads(j)
    ensures m == 0 ==> j.records == Log(t.Size(), 0) && disk.live == before.live
    ensures 0 < m ==> Current(j).state == if m == 2 * t.Size() + 3 then State.Completed else RecoveryRequired
  {
    var n := t.Size();
    InstalledKeepsBounds(t, before, k);
    LogLoads(n, m);
    if 1 <= m <= 2 * n + 2 {
      var log := Journal(n, Log(n, m), false);
      PromotionExecutor.MarkIsLegal(log, n, m);
      ExtendedLoads(log, SnapshotAt(n, m), PromotionExecutor.Marker(n, m).snapshot);
      assert j == Extended(log, PromotionExecutor.Marker(n, m).snapshot);
    } else {
      assert j == Journal(n, Log(n, m), false);
    }
  }

  /** The same for a rollback: once the plan has been found exact, with no rollback temporary in the way and at most one
      call that raises, the transaction ends ROLLED_BACK or RECOVERY_REQUIRED, and stays as it is. */
  method FailedRollbackStays(h: Host, s: Snapshot, steps: seq<Step>, faults: nat -> Fault,
                             approvals: ApprovalStore.Approvals, calls: seq<Call>)
    returns (e: Ending, r: Host)
    requires h.target.Valid() && h.disk.Valid() && h.journal.size == h.target.Size() && approvals.Safe()
    requires RollbackExecutor.Inspects(h, s) && h.target.ModifyOnly() && RollbackSteps.NoSpares(h.target, h.disk)
    requires PlanSteps(s.state, h.target.Observed(h.disk, s.progress)) == Some(steps)
    requires h.QuietFor(5) && h.OneRaise() && |h.journal.records| + |steps| < MAX_SNAPSHOTS
    modifies h`tick, h`disk, h`journal, approvals
    ensures fresh(r) && r.target == h.target && (e.Finished? || e.FailedClosed?)
    ensures Loads(h.journal) && e.snapshot == Current(h.journal)
    ensures Current(h.journal).state == RolledBack || Current(h.journal).state == RecoveryRequired
    ensures e.Finished? ==> RollbackExecutor.Rolled(h.target, old(h.disk), h.disk, h.journal, e.snapshot)
    ensures r.disk == h.disk && r.journal == h.journal
  {
    hide Stuck, RollbackExecutor.Ended, RollbackExecutor.ExactPlan, RollbackSteps.Safe;
    ghost var s';
    e, s' := RollbackExecutor.Execute(h, s, steps);
    r := new Host(h.target, faults, h.disk, h.journal);
    EndIsStuck(h.target, h.disk, h.journal);
    Run(r, approvals, calls);
  }

  // ---- a run in which nothing goes wrong -----------------------------------------------------

  /** What COMPLETED means for the target. */
  ghost predicate Promoted(t: Target, before: Disk, disk: Disk) {
    && (forall i :: 0 <= i < t.Size() ==> disk.Holds(t.Dest(i), t.plan.files[i].after) && disk.Look(t.Temp(i)).None?)
    && (forall p :: p !in t.Temps() && p !in t.Dests(Modify) ==> disk.Look(p) == before.Look(p))
  }

  lemma CompletedIsPromoted(t: Target, before: Disk, disk: Disk)
    requires Promotable(t, before) && Stands(t, before, disk, 2 * t.Size() + 3, t.Size())
    ensures Promoted(t, before, disk) && (before.AtRest() ==> disk.AtRest())
  {
    InstalledEvidence(t, before, disk, t.Size());
    InstalledIsClean(t, before, disk, t.Size());
    forall i | 0 <= i < t.Size() ensures disk.Holds(t.Dest(i), t.plan.files[i].after) && disk.Look(t.Temp(i)).None? {
      assert t.DestinationSeen(disk, i) == After && t.TemporarySeen(disk, i) == Absent;
    }
  }

  /** Creating the temporaries first makes no difference to the net effect. */
  lemma PromotedSince(t: Target, before: Disk, prepared: Disk, disk: Disk)
    requires TargetPreparer.OnlyTemps(t, before, prepared) && Promoted(t, prepared, disk)
    ensures Promoted(t, before, disk)
  {
  }

  /** A promotion that returns has promoted. */
  method Promote(h: Host, store: ApprovalStore.Store, now: ApprovalStore.Time, s: Snapshot,
                 prep: TargetPreparer.Preparation)
    returns (e: Ending)
    requires h.target.Valid() && h.journal.size == h.target.Size()
    modifies h`tick, h`disk, h`journal
    ensures e.Finished? ==>
      && Promoted(h.target, old(h.disk), h.disk)
      && h.journal == Journal(h.target.Size(), Log(h.target.Size(), 2 * h.target.Size() + 3), false)
    ensures
      && old(h.Calm()) && Loads(old(h.journal)) && Current(old(h.journal)) == s == Initial(h.target.Size())
      && Promotable(h.target, old(h.disk)) && PromotionExecutor.Matches(h.target, prep)
      && PromotionExecutor.Approved(h.target, store, prep, now) && 2 * h.target.Size() + 4 <= MAX_SNAPSHOTS
      ==> e.Finished?
  {
    ghost var before := h.disk;
    ghost var m, k;
    e, m, k := PromotionExecutor.Execute(h, store, now, s, prep);
    if e.Finished? { CompletedIsPromoted(h.target, before, h.disk); }
  }

  /** Consume an approval, prepare and promote. The net effect of a run that returns is that every file has its after
      image and nothing else has changed; and with a usable approval and no fault, a run does return. */
  method PrepareThenPromote(h: Host, approvals: ApprovalStore.Approvals, s: Snapshot, approvalId: string,
                            now: ApprovalStore.Time, later: ApprovalStore.Time) returns (e: Ending)
    requires h.target.Valid() && h.disk.Valid() && h.journal.size == h.target.Size() && approvals.Safe()
    modifies h`tick, h`disk, h`journal, approvals
    ensures e.Finished? ==>
      && Promoted(h.target, old(h.disk), h.disk)
      && h.journal == Journal(h.target.Size(), Log(h.target.Size(), 2 * h.target.Size() + 3), false)
      && ApprovalStore.Confirms(approvals.store, approvalId, h.target.plan.proposalId, h.target.plan.runId, now)
      && |approvals.receipts| == |old(approvals.receipts)| + 1
    ensures
      && old(h.Calm()) && old(approvals.Calm())
      && TargetPreparer.Preparable(h.target, old(h.disk)) && h.target.Checked()
      && Loads(old(h.journal)) && Current(old(h.journal)) == s == Initial(h.target.Size())
      && ApprovalStore.Allows(old(approvals.store), approvalId, h.target.plan.proposalId, now)
      && 2 * h.target.Size() + 4 <= MAX_SNAPSHOTS
      ==> e.Finished?
  {
    var t := h.target;
    var prepared := TargetPreparer.Prepare(h, approvals, s, approvalId, now);
    if !prepared.Done? { return Refused; }
    PreparedIsReady(h, approvals.store, prepared.value, approvalId, now, later);
    ghost var before := h.disk;
    e := Promote(h, approvals.store, later, s, prepared.value);
    if e.Finished? { PromotedSince(t, old(h.disk), before, h.disk); }
  }

  /** What a preparation leaves is what the executor asks for. */
  lemma PreparedIsReady(h: Host, store: ApprovalStore.Store, prep: TargetPreparer.Preparation,
                        approvalId: string, now: ApprovalStore.Time, later: ApprovalStore.Time)
    requires h.target.Valid() && ApprovalStore.Sound(store)
    requires prep == TargetPreparer.Evidence(h.target, approvalId, now)
    requires ApprovalStore.Confirms(store, approvalId, h.target.plan.proposalId, h.target.plan.runId, now)
    requires PreparedTarget.Untouched(h.target, h.disk)
    requires PreparedTarget.Temporaries(h.target, h.disk) == seq(h.target.Size(), _ => Exact)
    ensures PromotionExecutor.Matches(h.target, prep) && PromotionExecutor.Approved(h.target, store, prep, later)
    ensures h.target.ModifyOnly() ==> Ready(h.target, h.disk)
  {
    ApprovalStore.ConfirmedIsReported(store, approvalId, h.target.plan.proposalId, h.target.plan.runId, now, later);
    if h.target.ModifyOnly() { PromotionExecutor.ReadyAsInspected(h.target, h.disk); }
  }
}
