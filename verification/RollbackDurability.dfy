/** What a power loss leaves of a rollback, also of one that starts while a rename of the promotion still waits to reach
    the disk. */
module RollbackDurability {
  import opened Basics
  import opened FileSystem
  import opened Transaction
  import opened Target
  import opened RollbackPlan
  import AppliedTarget
  import opened RollbackSteps

  /** The step in directory `dir` is over: what waited elsewhere waits still, and nothing else does. */
  ghost predicate Carried(before: Disk, after: Disk, dir: string) {
    after.Loose() && after.pending == Elsewhere(before.pending, dir) && (after.pending == [] ==> after.AtRest())
  }

  /** The rename of file `q` by the promotion still waits. */
  ghost predicate Waiting(t: Target, d: Disk, q: nat) {
    && q < t.Size() && d.Loose() && d.pending == [Rename(t.Temp(q), t.Dest(q))]
    && t.Temp(q) in d.stable && t.Temp(q) != t.Dest(q)
  }

  /** And without it the file is as it was before. */
  ghost predicate Held(t: Target, d: Disk, q: nat) {
    && Waiting(t, d, q)
    && t.DestinationSeen(d.Durable(), q) == Before && t.TemporarySeen(d.Durable(), q) == Exact
  }

  /** Nothing waits but at most one rename of the promotion. */
  ghost predicate AtEase(t: Target, d: Disk) { d.Loose() && (d.Settled() || exists q :: Waiting(t, d, q)) }

  lemma LoosePowerLoss(d: Disk)
    ensures d.Loose() ==>
      forall after :: AfterPowerLoss(d, after) ==> SameLook(d, after) || SameLook(d.Durable(), after)
  {
    if d.Loose() {
      forall after | AfterPowerLoss(d, after) ensures SameLook(d, after) || SameLook(d.Durable(), after) {
        PowerLossWhileLoose(d, after);
      }
    }
  }

  /** An entry operation on a loose disk, before and after its fsync, with and without a power loss. */
  lemma LooseStep(d: Disk, op: DirOp)
    requires !op.Link? && WithinDirectory(op)
    ensures d.Loose() ==>
      var s := d.Do(op).SyncDirectory(op.Dir());
      && Carried(d, s, op.Dir()) && SameLook(d.Do(op), s)
      && (s.pending != [] ==> SameLook(d.Durable().Do(op), s.Durable()))
      && (forall after :: AfterPowerLoss(s, after) ==>
            SameLook(d.Do(op), after) || SameLook(d.Durable().Do(op), after))
      && (forall after :: AfterPowerLoss(d.Do(op), after) ==>
            || SameLook(d, after) || SameLook(d.Do(op), after)
            || SameLook(d.Durable(), after) || SameLook(d.Durable().Do(op), after))
  {
    if d.Loose() {
      var s := d.Do(op).SyncDirectory(op.Dir());
      StepSynced(d, op);
      LoosePowerLoss(s);
      forall after | AfterPowerLoss(d.Do(op), after)
        ensures || SameLook(d, after) || SameLook(d.Do(op), after)
                || SameLook(d.Durable(), after) || SameLook(d.Durable().Do(op), after)
      {
        PowerLossOfStep(d, op, after);
      }
    }
  }

  // ---- removing a temporary --------------------------------------------------------------------

  /** The removal is durable, and what waited elsewhere waits still. */
  ghost predicate RemovedLoosely(t: Target, before: Disk, after: Disk, k: nat)
    requires k < t.Size()
  {
    && Carried(before, after, t.Dest(k).dir)
    && (after.pending != [] ==> TempGone(t, before.Durable(), after.Durable(), k))
  }

  /** What a power loss may leave while the temporary of file `k` is being removed. */
  ghost predicate RemovalSafe(t: Target, before: Disk, disk: Disk, k: nat)
    requires k < t.Size()
  {
    forall after :: AfterPowerLoss(disk, after) ==>
      || SameLook(before, after) || SameLook(before.Durable(), after)
      || TempGone(t, before, after, k) || TempGone(t, before.Durable(), after, k)
  }

  lemma TempUnlinked(t: Target, d: Disk, k: nat)
    requires d.Valid() && k < t.Size()
    ensures var gone := d.Do(Unlink(t.Temp(k)));
            var synced := gone.SyncDirectory(t.Dest(k).dir);
            && gone.Valid() && synced.Valid() && TempGone(t, d, gone, k) && TempGone(t, d, synced, k)
            && (d.Loose() ==>
                  && RemovalSafe(t, d, d, k) && RemovalSafe(t, d, gone, k) && RemovalSafe(t, d, synced, k)
                  && RemovedLoosely(t, d, synced, k))
  {
    var op := Unlink(t.Temp(k));
    LoosePowerLoss(d);
    LooseStep(d, op);
    var gone, lost := d.Do(op), d.Durable().Do(op);
    var synced := gone.SyncDirectory(t.Dest(k).dir);
    assert gone.Valid() && synced.Valid();
    assert TempGone(t, d, gone, k) && TempGone(t, d, synced, k) && TempGone(t, d.Durable(), lost, k);
    hide Disk.Loose, Disk.Do, Disk.SyncDirectory, AfterPowerLoss, Apply, Disk.Valid;
    LooksGone(t, d, gone, k);
    LooksGone(t, d.Durable(), lost, k);
  }

  lemma LooksGone(t: Target, base: Disk, x: Disk, k: nat)
    requires k < t.Size() && TempGone(t, base, x, k)
    ensures forall after :: SameLook(x, after) ==> TempGone(t, base, after, k)
  {
  }

  // ---- restoring a file ------------------------------------------------------------------------

  /** The restoration is durable, and what waited elsewhere waits still. */
  ghost predicate RestoredLoosely(t: Target, before: Disk, after: Disk, k: nat)
    requires k < t.Size() && t.plan.files[k].before.Some?
  {
    && Carried(before, after, t.Dest(k).dir)
    && (after.pending != [] ==> BeforeBack(t, before.Durable(), after.Durable(), k))
  }

  ghost predicate Either(t: Target, base: Disk, x: Disk, k: nat)
    requires k < t.Size() && t.plan.files[k].before.Some?
  {
    Replacing(t, base, x, k) || Replacing(t, base.Durable(), x, k)
  }

  /** What a power loss may leave while file `k` is being restored. */
  ghost predicate ReplacementSafe(t: Target, before: Disk, disk: Disk, k: nat)
    requires k < t.Size() && t.plan.files[k].before.Some?
  {
    forall after :: AfterPowerLoss(disk, after) ==>
      SameLook(before, after) || SameLook(before.Durable(), after) || Either(t, before, after, k)
  }

  /** The rename puts the before image back, on what is visible and on what is durable. */
  lemma MoveIsReplacing(t: Target, base: Disk, d: Disk, k: nat)
    requires t.Valid() && t.ModifyOnly() && k < t.Size() && base.Valid() && d.Valid()
    requires SpareOnly(t, base, d, k) && d.Holds(t.Spare(k), t.plan.files[k].before.value) && base.Look(t.Dest(k)).Some?
    ensures BeforeBack(t, base, d.Do(Rename(t.Spare(k), t.Dest(k))), k)
    ensures AtEase(t, base) && LooselyAdded(base, d, t.Spare(k)) && t.Spare(k) !in base.stable ==>
      if d.pending == [] then d.Durable() == d
      else
        && SpareOnly(t, base.Durable(), d.Durable(), k)
        && BeforeBack(t, base.Durable(), d.Durable().Do(Rename(t.Spare(k), t.Dest(k))), k)
  {
  }

  lemma LooksEither(t: Target, base: Disk, x: Disk, after: Disk, k: nat)
    requires k < t.Size() && t.plan.files[k].before.Some? && SameLook(x, after) && Either(t, base, x, k)
    ensures Either(t, base, after, k)
  {
  }

  lemma LooksBack(t: Target, base: Disk, x: Disk, after: Disk, k: nat)
    requires k < t.Size() && t.plan.files[k].before.Some? && SameLook(x, after) && BeforeBack(t, base, x, k)
    ensures BeforeBack(t, base, after, k)
  {
  }

  /** The same for a power loss: only what the rename changes is at stake, and what waited before. */
  lemma MoveIsSafe(t: Target, base: Disk, d: Disk, k: nat)
    requires t.Valid() && t.ModifyOnly() && k < t.Size() && base.Valid() && d.Valid() && AtEase(t, base)
    requires SpareOnly(t, base, d, k) && d.Holds(t.Spare(k), t.plan.files[k].before.value) && base.Look(t.Dest(k)).Some?
    requires LooselyAdded(base, d, t.Spare(k)) && t.Spare(k) !in base.stable
    ensures var moved := d.Do(Rename(t.Spare(k), t.Dest(k)));
            var synced := moved.SyncDirectory(t.Dest(k).dir);
            && ReplacementSafe(t, base, d, k) && ReplacementSafe(t, base, moved, k)
            && ReplacementSafe(t, base, synced, k) && RestoredLoosely(t, base, synced, k)
  {
    var op := Rename(t.Spare(k), t.Dest(k));
    var moved := d.Do(op);
    var synced := moved.SyncDirectory(t.Dest(k).dir);
    MoveIsReplacing(t, base, d, k);
    LoosePowerLoss(d);
    LooseStep(d, op);
    assert Carried(base, synced, t.Dest(k).dir) by { ElsewhereTwice(base.pending, t.Dest(k).dir); }
    var lost, replaced := d.Durable(), d.Durable().Do(op);
    assert Either(t, base, d, k) && Either(t, base, moved, k);
    assert Either(t, base, lost, k) && Either(t, base, replaced, k);
    forall after, x | SameLook(x, after) && Either(t, base, x, k) ensures Either(t, base, after, k) {
      LooksEither(t, base, x, after, k);
    }
    if synced.pending != [] { LooksBack(t, base.Durable(), replaced, synced.Durable(), k); }
  }

  lemma {:induction false} ElsewhereTwice(ops: seq<DirOp>, dir: string)
    ensures Elsewhere(Elsewhere(ops, dir), dir) == Elsewhere(ops, dir)
  {
    if ops != [] {
      var rest := Elsewhere(ops[1..], dir);
      ElsewhereTwice(ops[1..], dir);
      if ops[0].Dir() == dir {
        assert Elsewhere(ops, dir) == [] + rest == rest;
      } else {
        assert ([ops[0]] + rest)[1..] == rest;
        assert Elsewhere([ops[0]] + rest, dir) == [ops[0]] + rest;
      }
    }
  }

  lemma SpareMoved(t: Target, base: Disk, d: Disk, k: nat)
    requires t.Valid() && t.ModifyOnly() && k < t.Size() && base.Valid() && d.Valid()
    requires SpareOnly(t, base, d, k) && d.Holds(t.Spare(k), t.plan.files[k].before.value) && base.Look(t.Dest(k)).Some?
    requires AtEase(t, base) ==> LooselyAdded(base, d, t.Spare(k)) && t.Spare(k) !in base.stable
    ensures var moved := d.Do(Rename(t.Spare(k), t.Dest(k)));
            var synced := moved.SyncDirectory(t.Dest(k).dir);
            && moved.Valid() && synced.Valid() && Replacing(t, base, d, k)
            && BeforeBack(t, base, moved, k) && BeforeBack(t, base, synced, k)
            && (AtEase(t, base) ==>
                  && ReplacementSafe(t, base, d, k) && ReplacementSafe(t, base, moved, k)
                  && ReplacementSafe(t, base, synced, k) && RestoredLoosely(t, base, synced, k))
  {
    MoveIsReplacing(t, base, d, k);
    if AtEase(t, base) { MoveIsSafe(t, base, d, k); }
  }

  lemma SpareIsNotDurable(t: Target, d: Disk, k: nat)
    requires AtEase(t, d) && k < t.Size() && t.Spare(k) !in d.live
    ensures t.Spare(k) !in d.stable
  {
    if !d.Settled() {
      var q :| Waiting(t, d, q);
      t.TempIsNotSpare(q, k);
    }
  }

  // ---- what can be planned without what waits ----------------------------------------------------

  /** A rollback can be planned for what is there, or there is nothing left to roll back. */
  ghost predicate Plans(t: Target, x: Disk, s: Snapshot) {
    && |s.progress| == t.Size()
    && if s.state == RolledBack then
         forall i :: 0 <= i < t.Size() ==> t.DestinationSeen(x, i) == Before && t.TemporarySeen(x, i) == Absent
       else AppliedTarget.Inspectable(t, x, s) && PlanSteps(s.state, t.Observed(x, s.progress)).Some?
  }

  /** Or one rollback temporary stands in the way while its destination still has the after image. */
  ghost predicate Sound(t: Target, x: Disk, s: Snapshot) {
    || Plans(t, x, s)
    || (exists base: Disk, k :: Obstructed(t, base, x, s, k))
  }

  ghost predicate Obstructed(t: Target, base: Disk, x: Disk, s: Snapshot, k: nat) {
    Plans(t, base, s) && k < t.Size() && SpareOnly(t, base, x, k) && t.DestinationSeen(base, k) == After
  }

  /** A plan exists exactly if every file can be planned. */
  lemma PlansPerFile(t: Target, x: Disk, s: Snapshot)
    requires t.Valid() && AppliedTarget.Inspectable(t, x, s)
    ensures Plans(t, x, s) <==> forall i :: 0 <= i < t.Size() ==> Plannable(s.state, t.Seen(x, s.progress, i))
  {
    var es := t.Observed(x, s.progress);
    PlanExists(s.state, es);
    forall i | 0 <= i < t.Size() ensures es[i] == t.Seen(x, s.progress, i) && es[i] in es { }
    forall e | e in es ensures exists i :: 0 <= i < t.Size() && e == t.Seen(x, s.progress, i) {
      var i :| 0 <= i < |es| && es[i] == e;
    }
  }

  lemma ResumablePlans(t: Target, x: Disk, s: Snapshot, steps: seq<Step>, n: nat)
    requires n <= |steps| && Resumable(t, x, s, steps, n)
    ensures Plans(t, x, s)
  {
  }

  /** Something that can be planned still can when one file has become another that can be planned. */
  lemma OneFileChanged(t: Target, x: Disk, x': Disk, s: Snapshot, s': Snapshot, k: nat)
    requires t.Valid() && k < t.Size() && Plans(t, x, s) && s.state == s'.state == RollingBack
    requires AppliedTarget.Inspectable(t, x', s')
    requires forall i :: 0 <= i < t.Size() && i != k ==> t.Seen(x', s'.progress, i) == t.Seen(x, s.progress, i)
    requires Plannable(RollingBack, t.Seen(x', s'.progress, k))
    ensures Plans(t, x', s')
  {
    PlansPerFile(t, x, s);
    PlansPerFile(t, x', s');
  }

  lemma SameLookPlans(t: Target, x: Disk, x': Disk, s: Snapshot)
    requires SameLook(x, x') && Plans(t, x, s)
    ensures Plans(t, x', s)
  {
    forall i | 0 <= i < t.Size()
      ensures t.DestinationSeen(x', i) == t.DestinationSeen(x, i) && t.TemporarySeen(x', i) == t.TemporarySeen(x, i)
    {
    }
    assert t.Observed(x', s.progress) == t.Observed(x, s.progress);
    assert t.Untracked(x') == t.Untracked(x) && t.Changed(x') == t.Changed(x);
  }

  predicate Syncs(step: Step, dir: string) {
    && (step.kind == StepKind.RemoveExactTemp || step.kind == StepKind.RestorePreimage)
    && step.expected.Some? && step.expected.value.path.dir == dir
  }

  predicate Records(step: Step, path: Path) {
    && (step.kind == ReconcileInstalled || step.kind == MarkRestored)
    && step.expected.Some? && step.expected.value.path == path
  }

  /** Some step from `n` on synchronises the directory of `path`, before any step records anything of that file. */
  ghost predicate Shelters(steps: seq<Step>, n: nat, path: Path) {
    exists i :: n <= i < |steps| && Syncs(steps[i], path.dir) && forall j :: n <= j < i ==> !Records(steps[j], path)
  }

  /** The rename of file `q` waits; without it a rollback can be planned too, and before the plan records anything of
      the file it synchronises its directory. */
  ghost predicate ShelteredAt(t: Target, d: Disk, s: Snapshot, steps: seq<Step>, n: nat, q: nat) {
    Waiting(t, d, q) && Plans(t, d.Durable(), s) && Shelters(steps, n, t.Dest(q))
  }

  /** Whatever a power loss takes, a rollback can go on. */
  ghost predicate Sheltered(t: Target, d: Disk, s: Snapshot, steps: seq<Step>, n: nat) {
    d.Valid() && (d.AtRest() || exists q :: ShelteredAt(t, d, s, steps, n, q))
  }

  lemma ShelteredIsAtEase(t: Target, d: Disk, s: Snapshot, steps: seq<Step>, n: nat)
    requires Sheltered(t, d, s, steps, n)
    ensures AtEase(t, d) && (d.AtRest() ==> d.Durable() == d)
  {
    if !d.AtRest() {
      var q :| ShelteredAt(t, d, s, steps, n, q);
      assert Waiting(t, d, q);
    }
  }

  /** Without the waiting rename every other file looks as it does with it. */
  lemma DurableSeen(t: Target, d: Disk, q: nat, progress: seq<Progress>, i: nat)
    requires t.Valid() && t.ModifyOnly() && t.Checked() && Waiting(t, d, q) && i < t.Size() && |progress| == t.Size()
    ensures i != q ==> t.Seen(d.Durable(), progress, i) == t.Seen(d, progress, i)
    ensures d.Durable().Look(t.Temp(q)).Some? && d.Look(t.Temp(q)).None?
  {
    t.DestIsNotTemp(i, q);
    t.DestIsNotTemp(q, i);
  }

  /** The file of a step that is due is not the one whose rename waits, unless the step is to reconcile it. */
  lemma DueElsewhere(t: Target, d: Disk, s: Snapshot, steps: seq<Step>, n: nat, q: nat, k: nat)
    requires t.Valid() && t.ModifyOnly() && n < |steps| && Resumable(t, d, s, steps, n) && k < t.Size()
    requires Waiting(t, d, q) && Plans(t, d.Durable(), s) && Meets(t, d, s, steps[n], k)
    requires steps[n].kind != ReconcileInstalled && steps[n].kind != FinishRollback && steps[n].kind != EnterRollback
    ensures k != q && s.state == RollingBack
    ensures t.Seen(d.Durable(), s.progress, k) == t.Seen(d, s.progress, k)
    ensures PlanFile(RollingBack, t.Seen(d, s.progress, k)).Some?
            && PlanFile(RollingBack, t.Seen(d, s.progress, k)).value != []
            && PlanFile(RollingBack, t.Seen(d, s.progress, k)).value[0] == steps[n]
  {
    var target := StepTarget(t, d, s, steps, n);
    assert t.Dest(target) == t.Dest(k) && target == k;
    PlansPerFile(t, d.Durable(), s);
    DurableSeen(t, d, q, s.progress, k);
    assert Plannable(RollingBack, t.Seen(d.Durable(), s.progress, q));
  }

  /** Removing a temporary, or putting a before image back, keeps what can be planned so. */
  lemma TempGonePlans(t: Target, x: Disk, x': Disk, s: Snapshot, k: nat)
    requires t.Valid() && t.ModifyOnly() && Plans(t, x, s) && s.state == RollingBack && k < t.Size()
    requires t.Seen(x, s.progress, k).progress == Pending && t.DestinationSeen(x, k) == Before && TempGone(t, x, x', k)
    ensures Plans(t, x', s)
  {
    TempRemoved(t, x, x', s, k);
    OneFileChanged(t, x, x', s, s, k);
  }

  lemma BeforeBackPlans(t: Target, x: Disk, x': Disk, s: Snapshot, k: nat)
    requires t.Valid() && t.ModifyOnly() && Plans(t, x, s) && s.state == RollingBack && k < t.Size()
    requires s.progress[k] != Pending && t.TemporarySeen(x, k) == Absent && BeforeBack(t, x, x', k)
    ensures Plans(t, x', s)
  {
    DestRestored(t, x, x', s, k);
    OneFileChanged(t, x, x', s, s, k);
  }

  lemma PlansHasDestinations(t: Target, x: Disk, s: Snapshot)
    requires t.Valid() && t.ModifyOnly() && Plans(t, x, s)
    ensures forall i :: 0 <= i < t.Size() ==> x.Look(t.Dest(i)).Some?
  {
    if s.state != RolledBack { PlansPerFile(t, x, s); }
    forall i | 0 <= i < t.Size() ensures x.Look(t.Dest(i)).Some? {
      assert t.plan.files[i].operation.Modify?;
      assert s.state != RolledBack ==> Plannable(s.state, t.Seen(x, s.progress, i));
      assert t.DestinationSeen(x, i) != Other;
    }
  }

  // ---- step after step -------------------------------------------------------------------------

  /** The shelter of a file whose rename waits outlasts every step but the one that synchronises its directory. */
  lemma ShelterStays(steps: seq<Step>, n: nat, path: Path)
    requires n < |steps| && Shelters(steps, n, path) && !Syncs(steps[n], path.dir)
    ensures Shelters(steps, n + 1, path) && !Records(steps[n], path) && n + 1 < |steps|
  {
    var i :| n <= i < |steps| && Syncs(steps[i], path.dir) && forall j :: n <= j < i ==> !Records(steps[j], path);
    assert i != n;
  }

  /** A journal step keeps things sheltered. */
  lemma RecordShelters(t: Target, d: Disk, s: Snapshot, steps: seq<Step>, n: nat, k: nat)
    requires t.Valid() && t.ModifyOnly() && n < |steps| && Resumable(t, d, s, steps, n) && k < t.Size()
    requires || steps[n].kind == EnterRollback
             || ((steps[n].kind == ReconcileInstalled || steps[n].kind == MarkRestored) && Meets(t, d, s, steps[n], k))
    ensures Sheltered(t, d, s, steps, n) ==> Sheltered(t, d, Recorded(s, steps[n].kind, k), steps, n + 1)
  {
    if Sheltered(t, d, s, steps, n) && !d.AtRest() {
      var q :| ShelteredAt(t, d, s, steps, n, q);
      ShelterStays(steps, n, t.Dest(q));
      if steps[n].kind == EnterRollback {
        EnterPlans(t, d.Durable(), s);
      } else {
        RecordPlans(t, d, s, steps, n, q, k);
      }
      assert ShelteredAt(t, d, Recorded(s, steps[n].kind, k), steps, n + 1, q);
    }
  }

  lemma EnterPlans(t: Target, x: Disk, s: Snapshot)
    requires t.Valid() && Plans(t, x, s) && s.state != RolledBack
    ensures Plans(t, x, Snapshot(RollingBack, s.progress))
  {
    PlansPerFile(t, x, s);
    PlansPerFile(t, x, Snapshot(RollingBack, s.progress));
    forall i | 0 <= i < t.Size() ensures Plannable(RollingBack, t.Seen(x, s.progress, i)) {
      assert Plannable(s.state, t.Seen(x, s.progress, i));
    }
  }

  lemma RecordPlans(t: Target, d: Disk, s: Snapshot, steps: seq<Step>, n: nat, q: nat, k: nat)
    requires t.Valid() && t.ModifyOnly() && n < |steps| && Resumable(t, d, s, steps, n) && k < t.Size()
    requires Waiting(t, d, q) && Plans(t, d.Durable(), s) && !Records(steps[n], t.Dest(q))
    requires (steps[n].kind == ReconcileInstalled || steps[n].kind == MarkRestored) && Meets(t, d, s, steps[n], k)
    ensures Plans(t, d.Durable(), Recorded(s, steps[n].kind, k))
  {
    var x, s' := d.Durable(), Recorded(s, steps[n].kind, k);
    var target := StepTarget(t, d, s, steps, n);
    assert t.Dest(target) == t.Dest(k) && target == k;
    DurableSeen(t, d, q, s.progress, k);
    assert k != q;
    OneFileChanged(t, x, x, s, s', k);
  }

  lemma StillWaiting(d: Disk, d': Disk, dir: string, w: DirOp)
    requires d.pending == [w] && d'.pending == Elsewhere(d.pending, dir) && d'.pending != []
    ensures d'.pending == [w] && w.Dir() != dir
  {
  }

  /** So does the removal of a temporary, and so does a restoration. */
  lemma RemovalShelters(t: Target, d: Disk, d': Disk, s: Snapshot, steps: seq<Step>, n: nat, k: nat)
    requires t.Valid() && t.ModifyOnly() && n < |steps| && Resumable(t, d, s, steps, n) && k < t.Size()
    requires steps[n].kind == StepKind.RemoveExactTemp && Meets(t, d, s, steps[n], k)
    requires Sheltered(t, d, s, steps, n) && d'.Valid() && RemovedLoosely(t, d, d', k)
    ensures Sheltered(t, d', s, steps, n + 1)
    ensures d'.pending != [] ==> OthersKept(t, d.Durable(), d'.Durable())
  {
    if d'.pending != [] {
      assert !d.AtRest();
      var q :| ShelteredAt(t, d, s, steps, n, q);
      StillWaiting(d, d', t.Dest(k).dir, Rename(t.Temp(q), t.Dest(q)));
      ShelterStays(steps, n, t.Dest(q));
      DueElsewhere(t, d, s, steps, n, q, k);
      TempGonePlans(t, d.Durable(), d'.Durable(), s, k);
      TempGoneBlocks(t, d.Durable(), d'.Durable(), k);
      t.DestIsNotTemp(q, k);
      assert t.Temp(k) in t.Temps();
      assert d'.Durable().Look(t.Temp(q)) == d.Durable().Look(t.Temp(q));
      assert ShelteredAt(t, d', s, steps, n + 1, q);
    }
  }

  lemma RestorationShelters(t: Target, d: Disk, d': Disk, s: Snapshot, steps: seq<Step>, n: nat, k: nat)
    requires t.Valid() && t.ModifyOnly() && n < |steps| && Resumable(t, d, s, steps, n) && k < t.Size()
    requires steps[n].kind == StepKind.RestorePreimage && Meets(t, d, s, steps[n], k)
    requires Sheltered(t, d, s, steps, n) && d'.Valid() && RestoredLoosely(t, d, d', k)
    ensures Sheltered(t, d', s, steps, n + 1)
    ensures d'.pending != [] ==> OthersKept(t, d.Durable(), d'.Durable())
  {
    if d'.pending != [] {
      assert !d.AtRest();
      var q :| ShelteredAt(t, d, s, steps, n, q);
      StillWaiting(d, d', t.Dest(k).dir, Rename(t.Temp(q), t.Dest(q)));
      ShelterStays(steps, n, t.Dest(q));
      DueElsewhere(t, d, s, steps, n, q, k);
      BeforeBackPlans(t, d.Durable(), d'.Durable(), s, k);
      PlansHasDestinations(t, d.Durable(), s);
      RestoreBlocks(t, d.Durable(), d'.Durable(), k);
      t.DestIsNotTemp(k, q);
      assert t.Dest(k) in t.Dests(Modify);
      assert d'.Durable().Look(t.Temp(q)) == d.Durable().Look(t.Temp(q));
      assert ShelteredAt(t, d', s, steps, n + 1, q);
    }
  }

  /** At the end of a sheltered plan nothing waits any more. */
  lemma FinishIsAtRest(t: Target, d: Disk, s: Snapshot, steps: seq<Step>, n: nat)
    requires n + 1 == |steps| && steps[n].kind == FinishRollback && Sheltered(t, d, s, steps, n)
    ensures d.AtRest()
  {
  }

  ghost predicate ShelteredStill(t: Target, before: Disk, disk: Disk, s: Snapshot, steps: seq<Step>, n: nat) {
    && Sheltered(t, disk, s, steps, n)
    && (disk.pending != [] ==> OthersKept(t, before.Durable(), disk.Durable()))
  }

  lemma ShelteredSince(t: Target, start: Disk, before: Disk, disk: Disk, s: Snapshot, s': Snapshot, steps: seq<Step>,
                       n: nat)
    requires ShelteredStill(t, start, before, s, steps, n) && ShelteredStill(t, before, disk, s', steps, n + 1)
    requires before.AtRest() ==> disk.AtRest()
    ensures ShelteredStill(t, start, disk, s', steps, n + 1)
  {
  }

  /** None of the first `n` steps synchronises the directory. */
  ghost predicate Undisturbed(steps: seq<Step>, n: nat, dir: string)
    requires n <= |steps|
  {
    forall i :: 0 <= i < n ==> !Syncs(steps[i], dir)
  }

  /** A step that does not synchronise its directory leaves a rename held. */
  lemma RemovalHolds(t: Target, d: Disk, d': Disk, s: Snapshot, k: nat, q: nat)
    requires t.Valid() && t.ModifyOnly() && AppliedTarget.Inspectable(t, d, s) && k < t.Size()
    requires Held(t, d, q) && t.Dest(k).dir != t.Dest(q).dir && RemovedLoosely(t, d, d', k)
    ensures Held(t, d', q)
  {
    KeptElsewhere(d, d', t.Dest(k).dir, Rename(t.Temp(q), t.Dest(q)));
    var x, x' := d.Durable(), d'.Durable();
    assert x'.Look(t.Temp(q)) == x.Look(t.Temp(q)) && x'.Look(t.Dest(q)) == x.Look(t.Dest(q));
  }

  lemma KeptElsewhere(d: Disk, d': Disk, dir: string, w: DirOp)
    requires d.pending == [w] && w.Dir() != dir && d'.pending == Elsewhere(d.pending, dir)
    ensures d'.pending == [w]
  {
    assert [w][1..] == [];
  }

  lemma RestorationHolds(t: Target, d: Disk, d': Disk, s: Snapshot, k: nat, q: nat)
    requires t.Valid() && t.ModifyOnly() && AppliedTarget.Inspectable(t, d, s) && k < t.Size()
    requires Held(t, d, q) && t.Dest(k).dir != t.Dest(q).dir && RestoredLoosely(t, d, d', k)
    ensures Held(t, d', q)
  {
    KeptElsewhere(d, d', t.Dest(k).dir, Rename(t.Temp(q), t.Dest(q)));
    var x, x' := d.Durable(), d'.Durable();
    assert x'.Look(t.Temp(q)) == x.Look(t.Temp(q)) && x'.Look(t.Dest(q)) == x.Look(t.Dest(q));
  }

  /** A power loss takes the rename that a rollback found waiting. Whatever the rollback has done to other files by
      then, a plan exists exactly if the journal has recorded nothing of this one. */
  lemma LostRename(t: Target, d: Disk, s: Snapshot, steps: seq<Step>, n: nat, q: nat, after: Disk)
    requires t.Valid() && t.ModifyOnly() && n < |steps| && Resumable(t, d, s, steps, n) && Held(t, d, q)
    requires AfterPowerLoss(d, after) && after.live != d.live
    ensures Plans(t, after, s) <==> s.progress[q] == Pending
  {
    var x := d.Durable();
    PowerLossOfOne(d, after, d.pending[0]);
    assert SameLook(x, after);
    DurableIsInspectable(t, d, s, q);
    PlansPerFile(t, d, s);
    PlansPerFile(t, x, s);
    forall i | 0 <= i < t.Size() && i != q ensures Plannable(s.state, t.Seen(x, s.progress, i)) {
      DurableSeen(t, d, q, s.progress, i);
      assert Plannable(s.state, t.Seen(d, s.progress, i));
    }
    assert Plannable(s.state, t.Seen(x, s.progress, q)) <==> s.progress[q] == Pending;
    if Plans(t, x, s) { SameLookPlans(t, x, after, s); }
    if Plans(t, after, s) { SameLookPlans(t, after, x, s); }
  }

  /** Nor is it a rollback temporary that stands in the way then. */
  lemma LostForGood(t: Target, d: Disk, s: Snapshot, steps: seq<Step>, n: nat, q: nat, after: Disk)
    requires t.Valid() && t.ModifyOnly() && n < |steps| && Resumable(t, d, s, steps, n) && Held(t, d, q)
    requires AfterPowerLoss(d, after) && after.live != d.live && s.progress[q] != Pending
    ensures !Sound(t, after, s)
  {
    LostRename(t, d, s, steps, n, q, after);
    PowerLossOfOne(d, after, d.pending[0]);
    assert SameLook(d.Durable(), after);
    forall base: Disk, k ensures !Obstructed(t, base, after, s, k) { NotObstructed(t, base, after, s, k, q); }
  }

  lemma NotObstructed(t: Target, base: Disk, x: Disk, s: Snapshot, k: nat, q: nat)
    requires t.Valid() && q < t.Size() && |s.progress| == t.Size() && s.progress[q] != Pending
    requires t.TemporarySeen(x, q) == Exact
    ensures !Obstructed(t, base, x, s, k)
  {
    if Obstructed(t, base, x, s, k) {
      t.TempIsNotSpare(q, k);
      assert base.Look(t.Temp(q)) == x.Look(t.Temp(q));
      if s.state != RolledBack {
        assert !Plannable(s.state, t.Seen(base, s.progress, q));
        PlansPerFile(t, base, s);
      }
    }
  }

  lemma DurableIsInspectable(t: Target, d: Disk, s: Snapshot, q: nat)
    requires t.Valid() && t.ModifyOnly() && AppliedTarget.Inspectable(t, d, s) && Waiting(t, d, q)
    ensures AppliedTarget.Inspectable(t, d.Durable(), s)
  {
    var x := d.Durable();
    forall p | p != t.Temp(q) && p != t.Dest(q) ensures x.Look(p) == d.Look(p) { }
    assert t.Temp(q) in t.Temps() && t.Dest(q) in t.Dests(Modify);
    forall p | p in t.Untracked(x) && p != t.Temp(q) ensures p in t.Untracked(d) { assert t.Dest(q) in t.git.tracked; }
    forall p | p in t.Changed(x) && p != t.Dest(q) ensures p in t.Changed(d) { }
  }

  // ---- power loss at any point -----------------------------------------------------------------

  /** What a power loss leaves of a disk that was `before`: a rollback can go on, and nothing but the plan's own paths
      differs from what was visible, or from what was durable. */
  ghost predicate PowerSafe(t: Target, before: Disk, after: Disk, s: Snapshot) {
    Sound(t, after, s) && (Confined(t, before, after) || Confined(t, before.Durable(), after))
  }

  ghost predicate StaysPowerSafe(t: Target, before: Disk, disk: Disk, s: Snapshot) {
    forall after :: AfterPowerLoss(disk, after) ==> PowerSafe(t, before, after, s)
  }

  lemma NothingIsPowerSafe(t: Target, d: Disk, after: Disk, s: Snapshot, steps: seq<Step>, n: nat)
    requires n <= |steps| && Resumable(t, d, s, steps, n) && Sheltered(t, d, s, steps, n)
    requires SameLook(d, after) || SameLook(d.Durable(), after)
    ensures PowerSafe(t, d, after, s)
  {
    ShelteredIsAtEase(t, d, s, steps, n);
    if SameLook(d, after) {
      SameLookPlans(t, d, after, s);
    } else {
      SameLookPlans(t, d.Durable(), after, s);
    }
  }

  /** With nothing changed, or a temporary removed, a power loss leaves something safe. */
  lemma RemovalIsPowerSafe(t: Target, d: Disk, after: Disk, s: Snapshot, steps: seq<Step>, n: nat, k: nat)
    requires t.Valid() && t.ModifyOnly() && n < |steps| && Resumable(t, d, s, steps, n) && k < t.Size()
    requires steps[n].kind == StepKind.RemoveExactTemp && Sheltered(t, d, s, steps, n)
    requires || SameLook(d, after) || SameLook(d.Durable(), after)
             || (Meets(t, d, s, steps[n], k) && (TempGone(t, d, after, k) || TempGone(t, d.Durable(), after, k)))
    ensures PowerSafe(t, d, after, s)
  {
    ShelteredIsAtEase(t, d, s, steps, n);
    hide Plans, Sheltered, Resumable, Blocked, Safe;
    if SameLook(d, after) || SameLook(d.Durable(), after) {
      NothingIsPowerSafe(t, d, after, s, steps, n);
    } else if TempGone(t, d, after, k) {
      RemovedIsSafe(t, d, after, s, steps, n, k);
      TempGoneResumes(t, d, after, s, steps, n, k);
      ResumablePlans(t, after, s, steps, n + 1);
    } else {
      DurableRemovalIsSound(t, d, after, s, steps, n, k);
    }
  }

  lemma DurableRemovalIsSound(t: Target, d: Disk, after: Disk, s: Snapshot, steps: seq<Step>, n: nat, k: nat)
    requires t.Valid() && t.ModifyOnly() && n < |steps| && Resumable(t, d, s, steps, n) && k < t.Size()
    requires steps[n].kind == StepKind.RemoveExactTemp && Sheltered(t, d, s, steps, n) && !d.AtRest()
    requires Meets(t, d, s, steps[n], k) && TempGone(t, d.Durable(), after, k)
    ensures Plans(t, after, s) && Confined(t, d.Durable(), after)
  {
    var q :| ShelteredAt(t, d, s, steps, n, q);
    DueElsewhere(t, d, s, steps, n, q, k);
    TempGonePlans(t, d.Durable(), after, s, k);
    TempGoneBlocks(t, d.Durable(), after, k);
    assert t.Temp(k) in t.Temps();
  }

  /** The same while a before image is being put back. */
  lemma RestorationIsPowerSafe(t: Target, d: Disk, after: Disk, s: Snapshot, steps: seq<Step>, n: nat, k: nat)
    requires t.Valid() && t.ModifyOnly() && n < |steps| && Resumable(t, d, s, steps, n) && k < t.Size()
    requires steps[n].kind == StepKind.RestorePreimage && Sheltered(t, d, s, steps, n)
    requires || SameLook(d, after) || SameLook(d.Durable(), after)
             || (&& Meets(t, d, s, steps[n], k) && steps[n].expected.value.destination == After
                 && (Replacing(t, d, after, k) || Replacing(t, d.Durable(), after, k)))
    ensures PowerSafe(t, d, after, s)
  {
    ShelteredIsAtEase(t, d, s, steps, n);
    hide Plans, Sheltered, Resumable, Blocked, Safe;
    if SameLook(d, after) || SameLook(d.Durable(), after) {
      NothingIsPowerSafe(t, d, after, s, steps, n);
    } else if Replacing(t, d, after, k) {
      RestoredIsSafe(t, d, after, s, steps, n, k);
      if SpareOnly(t, d, after, k) {
        ResumablePlans(t, d, s, steps, n);
        assert Obstructed(t, d, after, s, k);
      } else {
        BeforeBackResumes(t, d, after, s, steps, n, k);
        ResumablePlans(t, after, s, steps, n + 1);
      }
    } else {
      DurableRestorationIsSound(t, d, after, s, steps, n, k);
    }
  }

  lemma DurableRestorationIsSound(t: Target, d: Disk, after: Disk, s: Snapshot, steps: seq<Step>, n: nat, k: nat)
    requires t.Valid() && t.ModifyOnly() && n < |steps| && Resumable(t, d, s, steps, n) && k < t.Size()
    requires steps[n].kind == StepKind.RestorePreimage && Sheltered(t, d, s, steps, n) && !d.AtRest()
    requires Meets(t, d, s, steps[n], k) && steps[n].expected.value.destination == After
    requires Replacing(t, d.Durable(), after, k)
    ensures Sound(t, after, s) && Confined(t, d.Durable(), after)
  {
    var q :| ShelteredAt(t, d, s, steps, n, q);
    DueElsewhere(t, d, s, steps, n, q, k);
    PlansHasDestinations(t, d.Durable(), s);
    RestoreBlocks(t, d.Durable(), after, k);
    assert t.Spare(k) in t.Spares() && t.Dest(k) in t.Dests(Modify);
    if SpareOnly(t, d.Durable(), after, k) {
      assert Obstructed(t, d.Durable(), after, s, k);
    } else {
      BeforeBackPlans(t, d.Durable(), after, s, k);
    }
  }

  /** What a power loss leaves after part of a removal. */
  lemma RemovalStaysSafe(t: Target, before: Disk, disk: Disk, s: Snapshot, steps: seq<Step>, n: nat, k: nat)
    requires t.Valid() && t.ModifyOnly() && n < |steps| && Resumable(t, before, s, steps, n) && k < t.Size()
    requires steps[n].kind == StepKind.RemoveExactTemp && before.Valid()
    requires before.Loose() ==> forall after :: AfterPowerLoss(disk, after) ==>
      || SameLook(before, after) || SameLook(before.Durable(), after)
      || (&& Meets(t, before, s, steps[n], k)
          && (TempGone(t, before, after, k) || TempGone(t, before.Durable(), after, k)))
    ensures before.AtRest() ==>
      forall after :: AfterPowerLoss(disk, after) ==> Confined(t, before, after) && Safe(t, after, s, steps)
    ensures Sheltered(t, before, s, steps, n) ==> StaysPowerSafe(t, before, disk, s)
  {
    if Sheltered(t, before, s, steps, n) {
      ShelteredIsAtEase(t, before, s, steps, n);
      forall after | AfterPowerLoss(disk, after)
        ensures PowerSafe(t, before, after, s)
        ensures before.AtRest() ==> Confined(t, before, after) && Safe(t, after, s, steps)
      {
        RemovalIsPowerSafe(t, before, after, s, steps, n, k);
        if before.AtRest() { RemovedIsSafe(t, before, after, s, steps, n, k); }
      }
    }
  }

  lemma RestorationStaysSafe(t: Target, before: Disk, disk: Disk, s: Snapshot, steps: seq<Step>, n: nat, k: nat)
    requires t.Valid() && t.ModifyOnly() && n < |steps| && Resumable(t, before, s, steps, n) && k < t.Size()
    requires steps[n].kind == StepKind.RestorePreimage && before.Valid()
    requires AtEase(t, before) ==> forall after :: AfterPowerLoss(disk, after) ==>
      || SameLook(before, after) || SameLook(before.Durable(), after)
      || (&& Meets(t, before, s, steps[n], k) && steps[n].expected.value.destination == After
          && (Replacing(t, before, after, k) || Replacing(t, before.Durable(), after, k)))
    ensures before.AtRest() ==>
      forall after :: AfterPowerLoss(disk, after) ==> Confined(t, before, after) && Safe(t, after, s, steps)
    ensures Sheltered(t, before, s, steps, n) ==> StaysPowerSafe(t, before, disk, s)
  {
    if Sheltered(t, before, s, steps, n) {
      ShelteredIsAtEase(t, before, s, steps, n);
      forall after | AfterPowerLoss(disk, after)
        ensures PowerSafe(t, before, after, s)
        ensures before.AtRest() ==> Confined(t, before, after) && Safe(t, after, s, steps)
      {
        RestorationIsPowerSafe(t, before, after, s, steps, n, k);
        if before.AtRest() { RestoredIsSafe(t, before, after, s, steps, n, k); }
      }
    }
  }
}
