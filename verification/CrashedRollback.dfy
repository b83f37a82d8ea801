/** Rolling back a promotion that died between a rename and its fsync, when power is lost on top. */
module CrashedRollback {
  import opened Basics
  import opened FileSystem
  import opened Transaction
  import opened TransactionJournal
  import opened Target
  import opened Host
  import opened PromotionProgress
  import opened RollbackPlan
  import AppliedTarget
  import PromotionRuns
  import RollbackDurability
  import RollbackExecutor
  import RollbackSteps

  /** The promotion died before the fsync that follows its `k`-th rename. */
  ghost predicate RenameWaits(t: Target, before: Disk, crashed: Disk, k: nat) {
    && Promotable(t, before) && before.Valid() && before.AtRest() && 0 < k <= t.Size()
    && Stands(t, before, crashed, k, k) && !crashed.Settled()
  }

  /** Some file promoted earlier is in the same directory as file `k - 1`. */
  ghost predicate NeighbourBefore(t: Target, k: nat)
    requires k <= t.Size()
  {
    0 < k && exists j :: 0 <= j < k - 1 && t.Dest(j).dir == t.Dest(k - 1).dir
  }

  lemma WaitingRenameIsHeld(t: Target, before: Disk, crashed: Disk, k: nat)
    requires RenameWaits(t, before, crashed, k)
    ensures crashed.Valid() && RollbackDurability.Held(t, crashed, k - 1)
    ensures RollbackDurability.Plans(t, crashed.Durable(), SnapshotAt(t.Size(), k))
  {
    RenameWaitsLoosely(t, before, crashed, k);
    hide Disk.Loose, Disk.AtRest, Laid;
    InstalledEvidence(t, before, crashed.Durable(), k - 1);
    CrashIsPlannable(t, before, crashed.Durable(), k, k - 1);
  }

  lemma RenameWaitsLoosely(t: Target, before: Disk, crashed: Disk, k: nat)
    requires RenameWaits(t, before, crashed, k)
    ensures crashed.Valid() && RollbackDurability.Waiting(t, crashed, k - 1)
  {
    PromotionRuns.InstalledKeepsBounds(t, before, k);
    PromotionRuns.InstalledKeepsBounds(t, before, k - 1);
    PromotableIsLaid(t, before);
    InstalledEntry(t, before.live, k - 1, t.Temp(k - 1));
  }

  /** The plan that a rollback starts with: two steps for every file before `k - 1`, then the reconciliation. */
  lemma {:induction false} PlanOfInstalled(state: State, es: seq<Evidence>, k: nat)
    requires 0 < k <= |es| && PlanFiles(state, es).Some?
    requires forall i :: 0 <= i < k - 1 ==>
      PlanFile(state, es[i]) == Some([RestoreStep(es[i]), MarkStep(es[i])]) && es[i].operation == Modify
    requires PlanFile(state, es[k - 1]).Some? && |PlanFile(state, es[k - 1]).value| > 1
    ensures var steps := PlanFiles(state, es).value;
            && |steps| > 2 * k - 1
            && steps[2 * (k - 1)] == PlanFile(state, es[k - 1]).value[0]
            && steps[2 * k - 1] == PlanFile(state, es[k - 1]).value[1]
            && forall i :: 0 <= i < k - 1 ==> steps[2 * i] == RestoreStep(es[i]) && steps[2 * i + 1] == MarkStep(es[i])
    decreases k
  {
    var first, rest := PlanFile(state, es[0]).value, PlanFiles(state, es[1..]).value;
    if 1 < k {
      forall i | 0 <= i < k - 2 ensures es[1..][i] == es[i + 1] { }
      PlanOfInstalled(state, es[1..], k - 1);
      var steps := first + rest;
      assert steps[2 * (k - 1)] == rest[2 * (k - 2)] && steps[2 * k - 1] == rest[2 * k - 3];
      forall i | 0 <= i < k - 1 ensures steps[2 * i] == RestoreStep(es[i]) && steps[2 * i + 1] == MarkStep(es[i]) {
        if 0 < i { assert steps[2 * i] == rest[2 * (i - 1)] && steps[2 * i + 1] == rest[2 * (i - 1) + 1]; }
      }
    }
  }

  /** Step 0 enters the rollback, steps 2i + 1 and 2i + 2 restore and mark file i, step 2k - 1 reconciles file k - 1,
      and step 2k restores it. */
  ghost predicate RollbackOpens(t: Target, steps: seq<Step>, k: nat)
    requires 0 < k <= t.Size()
  {
    && |steps| > 2 * k && steps[0].kind == EnterRollback
    && (forall i :: 0 <= i < k - 1 ==> Restores(steps, 2 * i + 1, t.Dest(i)))
    && steps[2 * k - 1].kind == ReconcileInstalled && RollbackDurability.Records(steps[2 * k - 1], t.Dest(k - 1))
    && steps[2 * k].kind == StepKind.RestorePreimage && steps[2 * k].expected.Some?
    && steps[2 * k].expected.value.path == t.Dest(k - 1) && steps[2 * k].expected.value.progress == Installed
  }

  predicate Restores(steps: seq<Step>, i: nat, path: Path) {
    && i + 1 < |steps|
    && steps[i].kind == StepKind.RestorePreimage && steps[i].expected.Some? && steps[i].expected.value.path == path
    && steps[i + 1].kind == MarkRestored && steps[i + 1].expected.Some? && steps[i + 1].expected.value.path == path
  }

  /** The plan of the file starts with its reconciliation and its restoration. */
  predicate Reconciles(state: State, e: Evidence) {
    var plan := PlanFile(state, e);
    && plan.Some? && |plan.value| > 1
    && plan.value[0] == Step(ReconcileInstalled, Some(e)) && plan.value[1] == RestoreStep(e.(progress := Installed))
  }

  lemma CrashFilePlans(t: Target, before: Disk, crashed: Disk, k: nat, i: nat)
    requires RenameWaits(t, before, crashed, k) && i < k
    ensures var s := SnapshotAt(t.Size(), k);
            var e := t.Seen(crashed, s.progress, i);
            && e.operation == Modify && PlanFile(s.state, e).Some?
            && (i < k - 1 ==> PlanFile(s.state, e) == Some([RestoreStep(e), MarkStep(e)]))
            && (i == k - 1 ==> Reconciles(s.state, e))
  {
    InstalledEvidence(t, before, crashed, k);
  }

  lemma CrashPlanOpens(t: Target, before: Disk, crashed: Disk, k: nat, steps: seq<Step>)
    requires RenameWaits(t, before, crashed, k)
    requires var s := SnapshotAt(t.Size(), k); PlanSteps(s.state, t.Observed(crashed, s.progress)) == Some(steps)
    ensures RollbackOpens(t, steps, k)
  {
    var s := SnapshotAt(t.Size(), k);
    var es := t.Observed(crashed, s.progress);
    forall i | 0 <= i < k
      ensures es[i] == t.Seen(crashed, s.progress, i) && es[i].operation == Modify && PlanFile(s.state, es[i]).Some?
      ensures i < k - 1 ==> PlanFile(s.state, es[i]) == Some([RestoreStep(es[i]), MarkStep(es[i])])
      ensures i == k - 1 ==> Reconciles(s.state, es[i])
    {
      CrashFilePlans(t, before, crashed, k, i);
    }
    CrashIsPlannable(t, before, crashed, k, k);
    PlanOpens(t, s.state, es, k, steps);
  }

  lemma PlanOpens(t: Target, state: State, es: seq<Evidence>, k: nat, steps: seq<Step>)
    requires 0 < k <= t.Size() == |es| && PlanSteps(state, es) == Some(steps) && state != RollingBack
    requires forall i :: 0 <= i < k ==>
      es[i].path == t.Dest(i) && es[i].operation == Modify && PlanFile(state, es[i]).Some?
    requires forall i :: 0 <= i < k - 1 ==> PlanFile(state, es[i]) == Some([RestoreStep(es[i]), MarkStep(es[i])])
    requires Reconciles(state, es[k - 1])
    ensures RollbackOpens(t, steps, k)
  {
    PlanOfInstalled(state, es, k);
    hide PlanFiles, PlanFile;
    var files := PlanFiles(state, es).value;
    assert steps == [Step(EnterRollback, None)] + files + [Step(FinishRollback, None)];
    assert steps[2 * k - 1] == files[2 * (k - 1)] && steps[2 * k] == files[2 * k - 1];
    forall i | 0 <= i < k - 1 ensures Restores(steps, 2 * i + 1, t.Dest(i)) {
      assert steps[2 * i + 1] == files[2 * i] && steps[2 * i + 2] == files[2 * i + 1];
    }
  }

  /** What a rollback starts with after such a crash is sheltered from power loss exactly if some file promoted earlier
      is in the same directory: restoring that one synchronises the directory before the journal records anything
      of the other. */
  lemma NeighbourShelters(t: Target, before: Disk, crashed: Disk, k: nat, steps: seq<Step>)
    requires RenameWaits(t, before, crashed, k)
    requires var s := SnapshotAt(t.Size(), k); PlanSteps(s.state, t.Observed(crashed, s.progress)) == Some(steps)
    ensures RollbackDurability.Sheltered(t, crashed, SnapshotAt(t.Size(), k), steps, 0) <==> NeighbourBefore(t, k)
  {
    CrashPlanOpens(t, before, crashed, k, steps);
    WaitingRenameIsHeld(t, before, crashed, k);
    SheltersOpening(t, steps, k);
    var s := SnapshotAt(t.Size(), k);
    if RollbackDurability.Sheltered(t, crashed, s, steps, 0) {
      var q :| RollbackDurability.ShelteredAt(t, crashed, s, steps, 0, q);
      assert t.Dest(q) == crashed.pending[0].target == t.Dest(k - 1);
    }
    if NeighbourBefore(t, k) { assert RollbackDurability.ShelteredAt(t, crashed, s, steps, 0, k - 1); }
  }

  /** The steps before the reconciliation are about earlier files. */
  lemma OpeningStep(t: Target, steps: seq<Step>, k: nat, i: nat) returns (j: nat)
    requires t.Valid() && 0 < k <= t.Size() && RollbackOpens(t, steps, k) && 0 < i < 2 * k - 1
    ensures j < k - 1 && steps[i].expected.Some? && steps[i].expected.value.path == t.Dest(j) != t.Dest(k - 1)
  {
    j := (i - 1) / 2;
    assert i == 2 * j + 1 || i == 2 * j + 2;
    assert Restores(steps, 2 * j + 1, t.Dest(j));
  }

  lemma SheltersOpening(t: Target, steps: seq<Step>, k: nat)
    requires t.Valid() && 0 < k <= t.Size() && RollbackOpens(t, steps, k)
    ensures RollbackDurability.Shelters(steps, 0, t.Dest(k - 1)) <==> NeighbourBefore(t, k)
    ensures NeighbourBefore(t, k) || RollbackDurability.Undisturbed(steps, 2 * k, t.Dest(k - 1).dir)
  {
    var path, last := t.Dest(k - 1), 2 * k - 1;
    forall i | 0 <= i < last ensures !RollbackDurability.Records(steps[i], path) {
      if 0 < i { var j := OpeningStep(t, steps, k, i); }
    }
    forall i | 0 <= i <= last && RollbackDurability.Syncs(steps[i], path.dir) ensures NeighbourBefore(t, k) {
      var j := OpeningStep(t, steps, k, i);
      assert t.Dest(j).dir == path.dir;
    }
    if j :| 0 <= j < k - 1 && t.Dest(j).dir == path.dir {
      assert Restores(steps, 2 * j + 1, t.Dest(j));
      assert RollbackDurability.Syncs(steps[2 * j + 1], path.dir);
    }
  }

  /** Whenever nothing waits, or what waits is sheltered, a rollback of a crashed promotion is safe from power loss at
      every point, whatever else goes wrong: what is left can be planned, or one rollback temporary stands in the
      way. */
  method RollBackSheltered(h: Host, ghost before: Disk, ghost m: nat, ghost k: nat)
    returns (e: Ending, ghost s: Snapshot)
    requires Promotable(h.target, before) && before.Valid() && before.AtRest()
    requires InStep(h.target.Size(), m, k) && Stands(h.target, before, h.disk, m, k)
    requires 1 <= m <= 2 * h.target.Size() + 2
    requires h.journal == Journal(h.target.Size(), Log(h.target.Size(), m), false)
    requires h.disk.Settled() || NeighbourBefore(h.target, k)
    modifies h`tick, h`disk, h`journal
    ensures RollbackDurability.StaysPowerSafe(h.target, old(h.disk), h.disk, s)
  {
    hide PlanSteps, AppliedTarget.Inspectable;
    var t := h.target;
    ghost var crashed := h.disk;
    s := SnapshotAt(t.Size(), m);
    ghost var planned := CrashIsSheltered(t, before, crashed, m, k);
    UntouchedStaysSafe(t, crashed, s, planned);
    var loaded := h.LoadJournal();
    if !loaded.Done? { return Refused, s; }
    var files := AppliedTarget.Inspect(h, loaded.value);
    if !files.Done? { return Refused, s; }
    var steps := BuildPlan(loaded.value.state, files.value);
    if steps.None? { return Refused, s; }
    assert Current(h.journal) == s;
    e, s := RollbackExecutor.Execute(h, loaded.value, steps.value);
    if h.disk == crashed && h.journal == old(h.journal) { s := SnapshotAt(t.Size(), m); }
  }

  lemma CrashIsSheltered(t: Target, before: Disk, crashed: Disk, m: nat, k: nat) returns (steps: seq<Step>)
    requires Promotable(t, before) && before.Valid() && before.AtRest()
    requires InStep(t.Size(), m, k) && Stands(t, before, crashed, m, k) && 1 <= m <= 2 * t.Size() + 2
    requires crashed.Settled() || NeighbourBefore(t, k)
    ensures var s := SnapshotAt(t.Size(), m);
            && PlanSteps(s.state, t.Observed(crashed, s.progress)) == Some(steps)
            && crashed.Valid() && RollbackSteps.Resumable(t, crashed, s, steps, 0)
            && RollbackDurability.Sheltered(t, crashed, s, steps, 0)
  {
    var s := SnapshotAt(t.Size(), m);
    CrashIsPlannable(t, before, crashed, m, k);
    PromotionRuns.InstalledKeepsBounds(t, before, k);
    steps := PlanSteps(s.state, t.Observed(crashed, s.progress)).value;
    assert steps[0..] == steps;
    FinishIsLast(s.state, t.Observed(crashed, s.progress));
    if !crashed.Settled() { NeighbourShelters(t, before, crashed, k, steps); }
  }

  lemma UntouchedStaysSafe(t: Target, d: Disk, s: Snapshot, steps: seq<Step>)
    requires RollbackSteps.Resumable(t, d, s, steps, 0) && RollbackDurability.Sheltered(t, d, s, steps, 0)
    ensures RollbackDurability.StaysPowerSafe(t, d, d, s)
  {
    RollbackDurability.ShelteredIsAtEase(t, d, s, steps, 0);
    forall after | AfterPowerLoss(d, after) ensures RollbackDurability.PowerSafe(t, d, after, s) {
      PowerLossWhileLoose(d, after);
      RollbackDurability.NothingIsPowerSafe(t, d, after, s, steps, 0);
    }
  }

  /** A rollback of such a crash that is not sheltered, up to the step after which it dies. It has recorded INSTALLED
      for a rename that still waits; when power is lost then, the file has its before image and its temporary back,
      there is no plan, and no rollback temporary explains it. */
  method RollBackUnsheltered(h: Host, ghost before: Disk, k: nat) returns (s: Snapshot, ghost after: Disk)
    requires RenameWaits(h.target, before, h.disk, k) && !NeighbourBefore(h.target, k)
    requires RollbackSteps.NoSpares(h.target, before) && h.Calm()
    requires h.journal == Journal(h.target.Size(), Log(h.target.Size(), k), false)
    requires 5 * h.target.Size() + 5 <= MAX_SNAPSHOTS
    modifies h`tick, h`disk, h`journal
    ensures Loads(h.journal) && Current(h.journal) == s && s.state == RollingBack
    ensures |s.progress| == h.target.Size() && s.progress[k - 1] == Installed
    ensures AfterPowerLoss(h.disk, after) && h.target.DestinationSeen(after, k - 1) == Before
    ensures !RollbackDurability.Sound(h.target, after, s)
  {
    var t := h.target;
    ghost var crashed, current := h.disk, SnapshotAt(t.Size(), k);
    PromotionRuns.CrashIsRecoverable(t, before, crashed, crashed, k, k, k);
    var loaded := h.LoadJournal();
    var files := AppliedTarget.Inspect(h, loaded.value);
    var plan := BuildPlan(loaded.value.state, files.value);
    var steps := plan.value;
    CrashPlanOpens(t, before, crashed, k, steps);
    SheltersOpening(t, steps, k);
    WaitingRenameIsHeld(t, before, crashed, k);
    assert steps[0..] == steps;
    var run;
    ghost var s';
    run, s' := RollbackExecutor.RunFirst(h, loaded.value, steps, 2 * k);
    s := run.value;
    after := LostOnTheWay(t, h.disk, s, steps, k);
  }

  lemma LostOnTheWay(t: Target, d: Disk, s: Snapshot, steps: seq<Step>, k: nat) returns (after: Disk)
    requires t.Valid() && t.ModifyOnly() && 0 < k <= t.Size() && RollbackOpens(t, steps, k)
    requires RollbackSteps.Resumable(t, d, s, steps, 2 * k) && RollbackDurability.Held(t, d, k - 1)
    ensures s.state == RollingBack && s.progress[k - 1] == Installed
    ensures AfterPowerLoss(d, after) && t.DestinationSeen(after, k - 1) == Before
    ensures !RollbackDurability.Sound(t, after, s)
  {
    var target := RollbackSteps.StepTarget(t, d, s, steps, 2 * k);
    assert t.Dest(target) == t.Dest(k - 1) && target == k - 1;
    var none: nat -> bool, noise: nat -> Inode := _ => false, _ => Inode(Image([], 0), true, true);
    after := Rebooted(d, none, noise);
    RebootedAfterPowerLoss(d, none, noise);
    AllLost(d, none, noise);
    assert t.Temp(k - 1) in d.stable && t.Temp(k - 1) !in d.live;
    RollbackDurability.LostForGood(t, d, s, steps, 2 * k, k - 1, after);
  }

  lemma AllLost(d: Disk, kept: nat -> bool, noise: nat -> Inode)
    requires d.Loose() && |d.pending| == 1 && !kept(0)
    ensures Rebooted(d, kept, noise).live == d.stable && SameLook(d.Durable(), Rebooted(d, kept, noise))
  {
    var chosen := seq(|d.pending|, i requires 0 <= i => kept(i));
    assert chosen == [false] && d.pending[1..] == [] && chosen[1..] == [];
    assert Replay(d.stable, d.pending, chosen) == Replay(d.stable, [], []);
  }
}
