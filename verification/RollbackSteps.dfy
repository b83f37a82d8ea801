/** What the steps of a rollback do to the disk and to the snapshot, and that the steps still to come are always those
    that inspecting and planning again would give. */
module RollbackSteps {
  import opened Basics
  import opened FileSystem
  import opened Transaction
  import opened Target
  import opened RollbackPlan
  import AppliedTarget

  /** The steps still to come are exactly what inspecting and planning now would give; after the last step
      everything is back. */
  ghost predicate Resumable(t: Target, disk: Disk, s: Snapshot, steps: seq<Step>, next: nat) {
    && |s.progress| == t.Size()
    && if next < |steps| then
         && AppliedTarget.Inspectable(t, disk, s)
         && PlanSteps(s.state, t.Observed(disk, s.progress)) == Some(steps[next..])
       else
         next == |steps| && s.state == RolledBack
         && forall i :: 0 <= i < t.Size() ==> t.DestinationSeen(disk, i) == Before && t.TemporarySeen(disk, i) == Absent
  }

  lemma ObservedPathsDiffer(t: Target, disk: Disk, progress: seq<Progress>)
    requires t.Valid() && |progress| == t.Size()
    ensures DistinctPaths(t.Observed(disk, progress))
  {
  }

  /** A step whose effect on the evidence is the planned one leads to the next step. */
  lemma StepDone(t: Target, disk: Disk, s: Snapshot, steps: seq<Step>, next: nat, disk': Disk, s': Snapshot)
    requires t.Valid() && next < |steps| && Resumable(t, disk, s, steps, next)
    requires |s'.progress| == t.Size() && AppliedTarget.Inspectable(t, disk', s')
    requires steps[next].kind != FinishRollback
    requires s'.state == StateAfter(s.state, steps[next])
    requires t.Observed(disk', s'.progress) == FilesAfter(t.Observed(disk, s.progress), steps[next])
    ensures next + 1 < |steps| && Resumable(t, disk', s', steps, next + 1)
  {
    ObservedPathsDiffer(t, disk, s.progress);
    FinishIsLast(s.state, t.Observed(disk, s.progress));
    Continues(s.state, t.Observed(disk, s.progress));
    assert steps[next..][0] == steps[next] && steps[next..][1..] == steps[next + 1..];
    FinishIsLast(s'.state, t.Observed(disk', s'.progress));
  }

  /** The file the next step is about, and what the step expects of it: exactly what is there. */
  lemma StepTarget(t: Target, disk: Disk, s: Snapshot, steps: seq<Step>, next: nat) returns (k: nat)
    requires t.Valid() && next < |steps| && Resumable(t, disk, s, steps, next)
    requires steps[next].kind != FinishRollback && steps[next].kind != EnterRollback
    ensures k < t.Size() && s.state == RollingBack
    ensures steps[next].expected == Some(t.Seen(disk, s.progress, k))
    ensures PlanFile(RollingBack, t.Seen(disk, s.progress, k)).Some?
    ensures PlanFile(RollingBack, t.Seen(disk, s.progress, k)).value != []
    ensures PlanFile(RollingBack, t.Seen(disk, s.progress, k)).value[0] == steps[next]
  {
    var es := t.Observed(disk, s.progress);
    assert steps[next..][0] == steps[next];
    assert s.state == RollingBack;
    var files := PlanFiles(s.state, es).value;
    assert steps[next..] == files + [Step(FinishRollback, None)];
    assert files != [] && files[0] == steps[next];
    k := StepHasTarget(s.state, es);
  }

  /** Changing one file as its step says changes the evidence as its step says. */
  lemma FileStepEvidence(t: Target, disk: Disk, disk': Disk, progress: seq<Progress>, progress': seq<Progress>,
                      step: Step, k: nat)
    requires t.Valid() && k < t.Size() && |progress| == |progress'| == t.Size()
    requires step.expected == Some(t.Seen(disk, progress, k))
    requires forall i :: 0 <= i < t.Size() && i != k ==>
               && t.DestinationSeen(disk', i) == t.DestinationSeen(disk, i)
               && t.TemporarySeen(disk', i) == t.TemporarySeen(disk, i)
               && progress'[i] == progress[i]
    requires t.Seen(disk', progress', k) == FileAfter(t.Seen(disk, progress, k), step)
    ensures t.Observed(disk', progress') == FilesAfter(t.Observed(disk, progress), step)
  {
    var es := t.Observed(disk, progress);
    forall i | 0 <= i < t.Size() ensures t.Observed(disk', progress')[i] == FileAfter(es[i], step) {
      if i != k { assert es[i].path != es[k].path; }
    }
  }

  /** Removing a temporary disturbs nothing else. */
  lemma TempRemoved(t: Target, disk: Disk, disk': Disk, s: Snapshot, k: nat)
    requires t.Valid() && t.ModifyOnly() && AppliedTarget.Inspectable(t, disk, s) && k < t.Size()
    requires SameBut(disk, disk', t.Temp(k)) && disk'.Look(t.Temp(k)).None?
    ensures AppliedTarget.Inspectable(t, disk', s)
    ensures forall i :: 0 <= i < t.Size() ==> t.DestinationSeen(disk', i) == t.DestinationSeen(disk, i)
    ensures forall i :: 0 <= i < t.Size() && i != k ==> t.TemporarySeen(disk', i) == t.TemporarySeen(disk, i)
    ensures t.TemporarySeen(disk', k) == Absent
  {
    forall i | 0 <= i < t.Size() ensures t.Dest(i) != t.Temp(k) { t.DestIsNotTemp(i, k); }
    forall p | p in t.Untracked(disk') ensures p in t.Untracked(disk) { assert p != t.Temp(k); }
    forall p | p in t.Changed(disk') ensures p in t.Changed(disk) { assert p != t.Temp(k); }
  }

  /** Putting a before image back disturbs nothing else. */
  lemma DestRestored(t: Target, disk: Disk, disk': Disk, s: Snapshot, k: nat)
    requires t.Valid() && t.ModifyOnly() && AppliedTarget.Inspectable(t, disk, s) && k < t.Size()
    requires SameBut(disk, disk', t.Dest(k)) && disk'.Holds(t.Dest(k), t.plan.files[k].before.value)
    ensures AppliedTarget.Inspectable(t, disk', s)
    ensures forall i :: 0 <= i < t.Size() && i != k ==> t.DestinationSeen(disk', i) == t.DestinationSeen(disk, i)
    ensures forall i :: 0 <= i < t.Size() ==> t.TemporarySeen(disk', i) == t.TemporarySeen(disk, i)
    ensures t.DestinationSeen(disk', k) == Before
  {
    forall i | 0 <= i < t.Size() ensures t.Dest(k) != t.Temp(i) { t.DestIsNotTemp(k, i); }
    assert t.Dest(k) in t.Dests(Modify) && t.Dest(k) in t.git.tracked;
    forall p | p in t.Untracked(disk') ensures p in t.Untracked(disk) { assert p != t.Dest(k); }
    forall p | p in t.Changed(disk') && p != t.Dest(k) ensures p in t.Changed(disk) { }
  }

  // ---- what one step does -------------------------------------------------------------------

  /** The step is about file `k` and expects of it what is there. */
  predicate Meets(t: Target, disk: Disk, s: Snapshot, step: Step, k: nat)
    requires |s.progress| == t.Size() && k < t.Size()
  {
    step.expected == Some(t.Seen(disk, s.progress, k))
  }

  /** The temporary of file `k` is gone and nothing else has changed. */
  ghost predicate TempGone(t: Target, before: Disk, after: Disk, k: nat)
    requires k < t.Size()
  {
    SameBut(before, after, t.Temp(k)) && after.Look(t.Temp(k)).None?
  }

  /** File `k` has its before image again, nothing else has changed, and no rollback temporary was in the way. */
  ghost predicate BeforeBack(t: Target, before: Disk, after: Disk, k: nat)
    requires k < t.Size() && t.plan.files[k].before.Some?
  {
    && t.Spare(k) !in before.live
    && SameBut(before, after, t.Dest(k)) && after.Holds(t.Dest(k), t.plan.files[k].before.value)
  }

  /** At most a rollback temporary has come into being. */
  ghost predicate SpareOnly(t: Target, before: Disk, after: Disk, k: nat)
    requires k < t.Size()
  {
    t.Spare(k) !in before.live && SameBut(before, after, t.Spare(k))
  }

  /** The rollback temporary is there, or the before image is back in its place. */
  ghost predicate Replacing(t: Target, before: Disk, after: Disk, k: nat)
    requires k < t.Size() && t.plan.files[k].before.Some?
  {
    SpareOnly(t, before, after, k) || BeforeBack(t, before, after, k)
  }

  /** The image a step expects the destination to have; None where nothing definite is expected. */
  function ExpectedImage(t: Target, e: Evidence, k: nat): Option<Image>
    requires k < t.Size()
  {
    match e.destination
    case Before => t.plan.files[k].before
    case After => Some(t.plan.files[k].after)
    case Other => None
  }

  // ---- what any interruption leaves ----------------------------------------------------------

  /** A file whose rollback temporary is already there is left alone, and so is the temporary. */
  ghost predicate Blocked(t: Target, before: Disk, after: Disk) {
    forall i :: 0 <= i < t.Size() && before.Look(t.Spare(i)).Some? ==>
      after.Look(t.Spare(i)).Some? && after.Look(t.Dest(i)) == before.Look(t.Dest(i))
  }

  /** Only the plan's own paths differ. */
  ghost predicate Confined(t: Target, before: Disk, after: Disk) {
    && Blocked(t, before, after)
    && forall p :: p !in t.Temps() && p !in t.Dests(Modify) && p !in t.Spares() ==> after.Look(p) == before.Look(p)
  }

  /** Only destinations and promotion temporaries differ: no rollback temporary is left. */
  ghost predicate OthersKept(t: Target, before: Disk, after: Disk) {
    && Blocked(t, before, after)
    && forall p :: p !in t.Temps() && p !in t.Dests(Modify) ==> after.Look(p) == before.Look(p)
  }

  lemma TempGoneBlocks(t: Target, before: Disk, after: Disk, k: nat)
    requires t.Valid() && t.ModifyOnly() && t.Checked() && k < t.Size() && TempGone(t, before, after, k)
    ensures Blocked(t, before, after)
  {
    forall i | 0 <= i < t.Size() ensures t.Spare(i) != t.Temp(k) && t.Dest(i) != t.Temp(k) {
      t.TempIsNotSpare(k, i);
      t.DestIsNotTemp(i, k);
    }
  }

  lemma RestoreBlocks(t: Target, before: Disk, after: Disk, k: nat)
    requires t.Valid() && t.ModifyOnly() && k < t.Size()
    requires forall i :: 0 <= i < t.Size() ==> before.Look(t.Dest(i)).Some?
    requires SpareOnly(t, before, after, k) || BeforeBack(t, before, after, k)
    ensures Blocked(t, before, after)
  {
    forall i | 0 <= i < t.Size() && before.Look(t.Spare(i)).Some? ensures t.Spare(i) != t.Spare(k) && i != k { }
  }

  lemma ConfinedSince(t: Target, start: Disk, before: Disk, after: Disk)
    requires OthersKept(t, start, before)
    ensures Confined(t, before, after) ==> Confined(t, start, after)
  {
  }

  /** Either the rollback can be planned and resumed where it stopped, or one rollback temporary stands in the
      way while its destination still has the after image. */
  ghost predicate Safe(t: Target, disk: Disk, s: Snapshot, steps: seq<Step>) {
    || (exists n :: 0 <= n <= |steps| && Resumable(t, disk, s, steps, n))
    || (exists base: Disk, n, k :: Stranded(t, base, disk, s, steps, n, k))
  }

  ghost predicate Stranded(t: Target, base: Disk, disk: Disk, s: Snapshot, steps: seq<Step>, n: nat, k: nat) {
    && n < |steps| && Resumable(t, base, s, steps, n)
    && k < t.Size() && SpareOnly(t, base, disk, k) && t.DestinationSeen(base, k) == After
  }

  lemma SameLookResumes(t: Target, disk: Disk, disk': Disk, s: Snapshot, steps: seq<Step>, n: nat)
    requires Resumable(t, disk, s, steps, n) && n <= |steps| && forall q :: disk'.Look(q) == disk.Look(q)
    ensures Resumable(t, disk', s, steps, n)
  {
    forall i | 0 <= i < t.Size()
      ensures t.DestinationSeen(disk', i) == t.DestinationSeen(disk, i)
      ensures t.TemporarySeen(disk', i) == t.TemporarySeen(disk, i)
    {
    }
    assert t.Observed(disk', s.progress) == t.Observed(disk, s.progress);
    assert t.Untracked(disk') == t.Untracked(disk);
    assert t.Changed(disk') == t.Changed(disk);
  }

  /** No destination is ever anything but one of its two images. */
  lemma SafeDestinations(t: Target, disk: Disk, s: Snapshot, steps: seq<Step>)
    requires t.Valid() && t.ModifyOnly() && Safe(t, disk, s, steps)
    ensures forall i :: 0 <= i < t.Size() ==> t.DestinationSeen(disk, i) != Other
  {
    if n :| 0 <= n <= |steps| && Resumable(t, disk, s, steps, n) {
      ResumableDestinations(t, disk, s, steps, n);
    } else {
      var base: Disk, n, k :| Stranded(t, base, disk, s, steps, n, k);
      StrandedDestinations(t, base, disk, s, steps, n, k);
    }
  }

  lemma ResumableDestinations(t: Target, disk: Disk, s: Snapshot, steps: seq<Step>, n: nat)
    requires t.Valid() && n <= |steps| && Resumable(t, disk, s, steps, n)
    ensures forall i :: 0 <= i < t.Size() ==> t.DestinationSeen(disk, i) != Other
  {
    if n < |steps| {
      var es := t.Observed(disk, s.progress);
      PlanExists(s.state, es);
      forall i | 0 <= i < t.Size() ensures t.DestinationSeen(disk, i) != Other {
        assert es[i] in es && Plannable(s.state, es[i]);
      }
    }
  }

  lemma ResumableHasDestinations(t: Target, disk: Disk, s: Snapshot, steps: seq<Step>, n: nat)
    requires t.Valid() && t.ModifyOnly() && n <= |steps| && Resumable(t, disk, s, steps, n)
    ensures forall i :: 0 <= i < t.Size() ==> disk.Look(t.Dest(i)).Some?
  {
    ResumableDestinations(t, disk, s, steps, n);
    forall i | 0 <= i < t.Size() ensures disk.Look(t.Dest(i)).Some? {
      assert t.plan.files[i].operation.Modify? && t.DestinationSeen(disk, i) != Other;
    }
  }

  /** A stray rollback temporary leaves every destination as it was, its own at the after image. */
  lemma StrandedDestinations(t: Target, base: Disk, disk: Disk, s: Snapshot, steps: seq<Step>, n: nat, k: nat)
    requires t.Valid() && t.ModifyOnly() && Stranded(t, base, disk, s, steps, n, k)
    ensures forall i :: 0 <= i < t.Size() ==> t.DestinationSeen(disk, i) == t.DestinationSeen(base, i) != Other
    ensures t.DestinationSeen(disk, k) == After
  {
    ResumableDestinations(t, base, s, steps, n);
    forall i | 0 <= i < t.Size() ensures t.DestinationSeen(disk, i) == t.DestinationSeen(base, i) {
      assert t.plan.files[i].operation.Modify? && t.DestinationSeen(base, i) != Other;
      assert base.Look(t.Dest(i)).Some?;
    }
  }

  // ---- the four kinds of step ----------------------------------------------------------------

  /** The temporary is gone: the next step is due. */
  lemma TempGoneResumes(t: Target, disk: Disk, disk': Disk, s: Snapshot, steps: seq<Step>, n: nat, k: nat)
    requires t.Valid() && t.ModifyOnly() && n < |steps| && Resumable(t, disk, s, steps, n) && k < t.Size()
    requires steps[n].kind == StepKind.RemoveExactTemp && Meets(t, disk, s, steps[n], k) && TempGone(t, disk, disk', k)
    ensures n + 1 < |steps| && Resumable(t, disk', s, steps, n + 1)
  {
    var target := StepTarget(t, disk, s, steps, n);
    TempRemoved(t, disk, disk', s, k);
    FileStepEvidence(t, disk, disk', s.progress, s.progress, steps[n], k);
    StepDone(t, disk, s, steps, n, disk', s);
  }

  /** The before image is back: the next step is due. */
  lemma BeforeBackResumes(t: Target, disk: Disk, disk': Disk, s: Snapshot, steps: seq<Step>, n: nat, k: nat)
    requires t.Valid() && t.ModifyOnly() && n < |steps| && Resumable(t, disk, s, steps, n) && k < t.Size()
    requires steps[n].kind == StepKind.RestorePreimage
    requires Meets(t, disk, s, steps[n], k) && BeforeBack(t, disk, disk', k)
    ensures n + 1 < |steps| && Resumable(t, disk', s, steps, n + 1)
  {
    var target := StepTarget(t, disk, s, steps, n);
    DestRestored(t, disk, disk', s, k);
    FileStepEvidence(t, disk, disk', s.progress, s.progress, steps[n], k);
    StepDone(t, disk, s, steps, n, disk', s);
  }

  /** The snapshot that a journal step appends. */
  function Recorded(s: Snapshot, kind: StepKind, k: nat): Snapshot
    requires k < |s.progress|
  {
    match kind
    case ReconcileInstalled => Snapshot(RollingBack, s.progress[k := Installed])
    case MarkRestored => Snapshot(RollingBack, s.progress[k := Restored])
    case FinishRollback => Snapshot(RolledBack, s.progress)
    case _ => Snapshot(RollingBack, s.progress)
  }

  /** Entering rollback is legal, and the next step is due after it. */
  lemma EnterResumes(t: Target, disk: Disk, s: Snapshot, steps: seq<Step>, n: nat)
    requires t.Valid() && t.ModifyOnly() && n < |steps| && Resumable(t, disk, s, steps, n)
    requires ValidSnapshot(s) && steps[n].kind == EnterRollback
    ensures var s' := Snapshot(RollingBack, s.progress);
            && Transition(s, s'.state, s'.progress) == Some(s') && s' != s
            && n + 1 < |steps| && Resumable(t, disk, s', steps, n + 1)
  {
    var es := t.Observed(disk, s.progress);
    assert steps[n..][0] == steps[n];
    if s.state == RollingBack { NoFinishInFiles(s.state, es); }
    UntouchedFiles(es, steps[n]);
    StepDone(t, disk, s, steps, n, disk, Snapshot(RollingBack, s.progress));
  }

  /** So is recording the progress of a file. */
  lemma MarkResumes(t: Target, disk: Disk, s: Snapshot, steps: seq<Step>, n: nat, k: nat)
    requires t.Valid() && t.ModifyOnly() && n < |steps| && Resumable(t, disk, s, steps, n) && k < t.Size()
    requires ValidSnapshot(s) && (steps[n].kind == ReconcileInstalled || steps[n].kind == MarkRestored)
    requires Meets(t, disk, s, steps[n], k)
    ensures var s' := Recorded(s, steps[n].kind, k);
            && Transition(s, s'.state, s'.progress) == Some(s') && s' != s
            && n + 1 < |steps| && Resumable(t, disk, s', steps, n + 1)
  {
    var s' := Recorded(s, steps[n].kind, k);
    var target := StepTarget(t, disk, s, steps, n);
    assert t.Dest(target) == t.Dest(k) && target == k;
    FileStepEvidence(t, disk, disk, s.progress, s'.progress, steps[n], k);
    StepDone(t, disk, s, steps, n, disk, s');
  }

  /** A journal step is legal, and the next step is due after it. */
  lemma RecordResumes(t: Target, disk: Disk, s: Snapshot, steps: seq<Step>, n: nat, k: nat)
    requires t.Valid() && t.ModifyOnly() && n < |steps| && Resumable(t, disk, s, steps, n) && k < t.Size()
    requires ValidSnapshot(s)
    requires || steps[n].kind == EnterRollback
             || (&& (steps[n].kind == ReconcileInstalled || steps[n].kind == MarkRestored)
                 && Meets(t, disk, s, steps[n], k))
    ensures var s' := Recorded(s, steps[n].kind, k);
            && Transition(s, s'.state, s'.progress) == Some(s') && s' != s
            && n + 1 < |steps| && Resumable(t, disk, s', steps, n + 1)
  {
    if steps[n].kind == EnterRollback {
      EnterResumes(t, disk, s, steps, n);
    } else {
      MarkResumes(t, disk, s, steps, n, k);
    }
  }

  /** When only the finish is left everything is back, and ROLLED_BACK is legal. */
  lemma FinishResumes(t: Target, disk: Disk, s: Snapshot, steps: seq<Step>, n: nat)
    requires t.Valid() && n < |steps| && Resumable(t, disk, s, steps, n) && steps[n].kind == FinishRollback
    requires ValidSnapshot(s)
    ensures var s' := Snapshot(RolledBack, s.progress);
            && Transition(s, s'.state, s'.progress) == Some(s') && s' != s
            && n + 1 == |steps| && Resumable(t, disk, s', steps, n + 1)
            && PlanSteps(s.state, t.Observed(disk, s.progress)) == Some([Step(FinishRollback, None)])
  {
    var es := t.Observed(disk, s.progress);
    assert steps[n..][0] == steps[n];
    FinishIsLast(s.state, es);
    assert |steps[n..]| == 1;
    assert steps[n..] == [Step(FinishRollback, None)];
    assert s.state == RollingBack;
    assert PlanFiles(s.state, es).value == [];
    FinishReady(es);
    forall i | 0 <= i < t.Size()
      ensures t.DestinationSeen(disk, i) == Before && t.TemporarySeen(disk, i) == Absent
      ensures s.progress[i] == Pending || s.progress[i] == Restored
    {
      assert es[i] in es;
    }
  }

  // ---- safe at every point --------------------------------------------------------------------

  /** With nothing, or only the temporary of the step, gone, things are safe. */
  lemma RemovedIsSafe(t: Target, before: Disk, disk: Disk, s: Snapshot, steps: seq<Step>, n: nat, k: nat)
    requires t.Valid() && t.ModifyOnly() && n < |steps| && Resumable(t, before, s, steps, n) && k < t.Size()
    requires steps[n].kind == StepKind.RemoveExactTemp
    requires || (forall q :: disk.Look(q) == before.Look(q))
             || (Meets(t, before, s, steps[n], k) && TempGone(t, before, disk, k))
    ensures Confined(t, before, disk) && Safe(t, disk, s, steps)
  {
    if forall q :: disk.Look(q) == before.Look(q) {
      SameLookResumes(t, before, disk, s, steps, n);
    } else {
      assert t.Temp(k) in t.Temps();
      TempGoneBlocks(t, before, disk, k);
      TempGoneResumes(t, before, disk, s, steps, n, k);
    }
  }

  /** With nothing changed, a rollback temporary added or the before image back, things are safe. */
  lemma RestoredIsSafe(t: Target, before: Disk, disk: Disk, s: Snapshot, steps: seq<Step>, n: nat, k: nat)
    requires t.Valid() && t.ModifyOnly() && n < |steps| && Resumable(t, before, s, steps, n) && k < t.Size()
    requires steps[n].kind == StepKind.RestorePreimage
    requires || (forall q :: disk.Look(q) == before.Look(q))
             || (&& Meets(t, before, s, steps[n], k) && steps[n].expected.value.destination == After
                 && (SpareOnly(t, before, disk, k) || BeforeBack(t, before, disk, k)))
    ensures Confined(t, before, disk) && Safe(t, disk, s, steps)
  {
    if forall q :: disk.Look(q) == before.Look(q) {
      SameLookResumes(t, before, disk, s, steps, n);
    } else if SpareOnly(t, before, disk, k) {
      ResumableHasDestinations(t, before, s, steps, n);
      RestoreBlocks(t, before, disk, k);
      assert t.Spare(k) in t.Spares();
      assert Stranded(t, before, disk, s, steps, n, k);
    } else {
      assert t.Dest(k) in t.Dests(Modify);
      ResumableHasDestinations(t, before, s, steps, n);
      RestoreBlocks(t, before, disk, k);
      BeforeBackResumes(t, before, disk, s, steps, n, k);
    }
  }

  /** No rollback temporary is there yet. */
  ghost predicate NoSpares(t: Target, disk: Disk) { forall i :: 0 <= i < t.Size() ==> disk.Look(t.Spare(i)).None? }

  /** A plan for modified files never removes an added one, which the executor refuses to do. */
  lemma NoAddedFileSteps(t: Target, disk: Disk, s: Snapshot, steps: seq<Step>, n: nat)
    requires t.Valid() && t.ModifyOnly() && n < |steps| && Resumable(t, disk, s, steps, n)
    ensures steps[n].kind != RemoveAddedFile
  {
    if steps[n].kind != FinishRollback && steps[n].kind != EnterRollback {
      var k := StepTarget(t, disk, s, steps, n);
      assert t.plan.files[k].operation.Modify?;
    }
  }

  lemma NoSparesStays(t: Target, before: Disk, after: Disk, s: Snapshot, steps: seq<Step>, n: nat)
    requires t.Valid() && t.ModifyOnly() && n <= |steps| && Resumable(t, before, s, steps, n)
    requires NoSpares(t, before) && OthersKept(t, before, after)
    ensures NoSpares(t, after)
  {
    ResumableDestinations(t, before, s, steps, n);
    forall i | 0 <= i < t.Size() ensures t.Spare(i) !in t.Temps() && t.Spare(i) !in t.Dests(Modify) {
      forall j | 0 <= j < t.Size() ensures t.Temp(j) != t.Spare(i) && t.Dest(j) != t.Spare(i) {
        t.TempIsNotSpare(j, i);
        assert t.plan.files[j].operation.Modify? && t.DestinationSeen(before, j) != Other;
        assert before.Look(t.Dest(j)).Some?;
      }
    }
  }

  lemma RecoveryIsLegal(s: Snapshot)
    requires ValidSnapshot(s) && Active(s.state)
    ensures var next := Snapshot(RecoveryRequired, s.progress);
            Transition(s, next.state, next.progress) == Some(next) && next != s
  {
    assert forall i :: 0 <= i < |s.progress| ==> Permits(RecoveryRequired, s.progress[i]);
  }

  ghost predicate AllBack(t: Target, disk: Disk) {
    forall i :: 0 <= i < t.Size() ==>
      && t.plan.files[i].before.Some? && disk.Holds(t.Dest(i), t.plan.files[i].before.value)
      && disk.Look(t.Temp(i)).None?
  }

  lemma ResumedToTheEnd(t: Target, disk: Disk, s: Snapshot, steps: seq<Step>)
    requires t.Valid() && t.ModifyOnly() && Resumable(t, disk, s, steps, |steps|)
    ensures AllBack(t, disk)
  {
    forall i | 0 <= i < t.Size()
      ensures t.plan.files[i].before.Some? && disk.Holds(t.Dest(i), t.plan.files[i].before.value)
      ensures disk.Look(t.Temp(i)).None?
    {
      assert t.plan.files[i].operation.Modify?;
      assert t.DestinationSeen(disk, i) == Before && t.TemporarySeen(disk, i) == Absent;
    }
  }

  // ---- a rollback temporary that was left behind ------------------------------------------------

  /** A rollback temporary that an interrupted restoration left stops every inspection exactly if Git can see it. */
  lemma StrandedInspection(t: Target, base: Disk, disk: Disk, s: Snapshot, steps: seq<Step>, n: nat, k: nat)
    requires t.Valid() && t.ModifyOnly() && Stranded(t, base, disk, s, steps, n, k) && disk.Look(t.Spare(k)).Some?
    ensures AppliedTarget.Inspectable(t, disk, s) <==> t.git.ignored(t.Spare(k))
  {
    var p := t.Spare(k);
    ResumableHasDestinations(t, base, s, steps, n);
    forall i | 0 <= i < t.Size() ensures t.Temp(i) != p && t.Dest(i) != p {
      t.TempIsNotSpare(i, k);
      assert base.Look(t.Dest(i)).Some?;
    }
    assert AppliedTarget.Inspectable(t, base, s);
    assert p !in t.git.tracked by { assert p !in t.Dests(Modify) && t.Changed(base) <= t.Dests(Modify); }
    forall q | q in t.Untracked(disk) && q != p ensures q in t.Untracked(base) { assert disk.Look(q) == base.Look(q); }
    forall q | q in t.Changed(disk) ensures q in t.Changed(base) { assert disk.Look(q) == base.Look(q); }
    assert p in t.Untracked(disk) <==> !t.git.ignored(p);
  }

  /** The same target with ignore rules that hide the rollback temporaries and nothing else. */
  function Hiding(t: Target): Target {
    t.(git := t.git.(ignored := p => t.git.ignored(p) || p in t.Spares()))
  }

  /** Such rules are possible for every target on which a restoration can be interrupted: with them the same states come
      about, and the inspection then passes over the temporary. */
  lemma HiddenSpare(t: Target, base: Disk, disk: Disk, s: Snapshot, steps: seq<Step>, n: nat, k: nat)
    requires t.Valid() && t.ModifyOnly() && Stranded(t, base, disk, s, steps, n, k) && disk.Look(t.Spare(k)).Some?
    ensures Stranded(Hiding(t), base, disk, s, steps, n, k) && AppliedTarget.Inspectable(Hiding(t), disk, s)
  {
    hide PlanSteps;
    var t' := Hiding(t);
    ResumableDestinations(t, base, s, steps, n);
    forall i | 0 <= i < t.Size()
      ensures t'.Dest(i) == t.Dest(i) && t'.Temp(i) == t.Temp(i) && t'.Spare(i) == t.Spare(i)
      ensures t.Temp(i) !in t.Spares()
    {
      forall j | 0 <= j < t.Size() ensures t.Temp(i) != t.Spare(j) { t.TempIsNotSpare(i, j); }
    }
    assert t'.Temps() == t.Temps() && t'.Spares() == t.Spares();
    assert t'.Dests(Modify) == t.Dests(Modify) && t'.Dests(Add) == t.Dests(Add);
    HidingKeeps(t, base, s);
    assert t'.Observed(base, s.progress) == t.Observed(base, s.progress);
    assert Stranded(t', base, disk, s, steps, n, k);
    assert t.Spare(k) in t.Spares();
    StrandedInspection(t', base, disk, s, steps, n, k);
  }

  lemma HidingKeeps(t: Target, disk: Disk, s: Snapshot)
    requires t.ModifyOnly() && AppliedTarget.Inspectable(t, disk, s)
    requires forall i :: 0 <= i < t.Size() ==> t.Temp(i) !in t.Spares() && Hiding(t).Temp(i) == t.Temp(i)
    requires Hiding(t).Temps() == t.Temps() && Hiding(t).Dests(Modify) == t.Dests(Modify)
    requires Hiding(t).Dests(Add) == t.Dests(Add)
    ensures AppliedTarget.Inspectable(Hiding(t), disk, s)
  {
    var t' := Hiding(t);
    forall p | p in t'.Untracked(disk) ensures p in t.Untracked(disk) { }
    forall p | p in t'.Changed(disk) ensures p in t.Changed(disk) { }
    assert forall i :: 0 <= i < t.Size() ==> t'.Dest(i) == t.Dest(i) && t.Temp(i) !in t.git.tracked;
    assert t'.Checked();
  }
}
