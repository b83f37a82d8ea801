/** Carrying out a rollback plan, step by step, re-checking the world before each. */
module RollbackExecutor {
  import opened Basics
  import opened FileSystem
  import opened Transaction
  import opened TransactionJournal
  import opened Target
  import opened Host
  import opened RollbackPlan
  import opened RollbackSteps
  import opened RollbackDurability
  import AppliedTarget

  // ---- one step ------------------------------------------------------------------------------

  method FindFile(t: Target, path: Path) returns (k: nat)
    requires t.Valid()
    ensures k <= t.Size() && (k < t.Size() ==> t.Dest(k) == path)
    ensures forall i :: 0 <= i < t.Size() && t.Dest(i) == path ==> i == k
  {
    k := 0;
    while k < t.Size() && t.Dest(k) != path
      invariant k <= t.Size() && forall i :: 0 <= i < k ==> t.Dest(i) != path
    {
      k := k + 1;
    }
  }

  /** Re-inspect, and require of the step's file exactly what the step expects. */
  method RequireStepObservation(h: Host, s: Snapshot, step: Step) returns (o: Outcome<nat>)
    requires h.target.Valid() && |s.progress| == h.target.Size()
    modifies h`tick
    ensures h.Took(old(h.tick), h.journal, 2, o)
    ensures o.Done? ==> o.value < h.target.Size() && Meets(h.target, h.disk, s, step, o.value)
    ensures
      && Inspects(h, s) && (exists i :: 0 <= i < h.target.Size() && Meets(h.target, h.disk, s, step, i))
      && h.Smooth(old(h.tick))
      ==> o.Done?
  {
    if step.expected.None? { return Error; }
    var t, e := h.target, step.expected.value;
    var k := FindFile(t, e.path);
    assert forall i :: 0 <= i < t.Size() && Meets(t, h.disk, s, step, i) ==> t.Dest(i) == e.path;
    if k == t.Size() || t.plan.files[k].operation != e.operation || s.progress[k] != e.progress { return Error; }
    var files :- AppliedTarget.Inspect(h, s);
    assert files[k] == t.Seen(h.disk, s.progress, k);
    if files[k].destination != e.destination || files[k].temporary != e.temporary { return Error; }
    o := Done(k);
  }

  /** The journal is at `s` and the target can be inspected, so only a fault can stop a step that meets it. */
  ghost predicate Inspects(h: Host, s: Snapshot)
    reads h
  {
    Loads(h.journal) && Current(h.journal) == s && AppliedTarget.Inspectable(h.target, h.disk, s)
  }

  /** REMOVE_EXACT_TEMP, of file `k`. */
  method RemoveExactTemp(h: Host, s: Snapshot, step: Step) returns (o: Outcome<()>, ghost k: nat)
    requires h.target.Valid() && h.target.ModifyOnly() && h.disk.Valid() && |s.progress| == h.target.Size()
    modifies h`tick, h`disk
    ensures h.Took(old(h.tick), h.journal, 5, o) && h.disk.Valid()
    ensures k < h.target.Size()
    ensures o.Done? || h.disk != old(h.disk) ==>
      && Meets(h.target, old(h.disk), s, step, k) && step.expected.value.temporary == Exact
      && TempGone(h.target, old(h.disk), h.disk, k)
    ensures old(h.disk).Loose() ==>
      && (o.Done? ==> RemovedLoosely(h.target, old(h.disk), h.disk, k))
      && forall after :: AfterPowerLoss(h.disk, after) ==>
           || SameLook(old(h.disk), after) || SameLook(old(h.disk).Durable(), after)
           || (&& Meets(h.target, old(h.disk), s, step, k) && step.expected.value.temporary == Exact
               && (TempGone(h.target, old(h.disk), after, k) || TempGone(h.target, old(h.disk).Durable(), after, k)))
    ensures
      && old(Inspects(h, s)) && (exists i :: 0 <= i < h.target.Size() && Meets(h.target, old(h.disk), s, step, i))
      && step.expected.value.destination != Other && step.expected.value.temporary == Exact && h.Smooth(old(h.tick))
      ==> o.Done?
  {
    var t, d := h.target, h.disk;
    k := 0;
    LoosePowerLoss(d);
    var observed := RequireStepObservation(h, s, step);
    if !observed.Done? { o := observed.PropagateFailure(); return; }
    var i, e := observed.value, step.expected.value;
    k := i;
    if e.temporary != Exact { o := Error; return; }
    o := GuardedUnlink(h, e, i);
  }

  /** Read both files once more, and unlink the temporary. Whatever the disk holds by now, nothing is unlinked unless
      the destination is as the step expects it and the temporary is the exact after image. */
  method GuardedUnlink(h: Host, e: Evidence, k: nat) returns (o: Outcome<()>)
    requires k < h.target.Size() && h.disk.Valid()
    modifies h`tick, h`disk
    ensures h.Took(old(h.tick), h.journal, 3, o) && h.disk.Valid()
    ensures h.disk != old(h.disk) || o.Done? ==>
      Removable(h.target, old(h.disk), e, k) && TempGone(h.target, old(h.disk), h.disk, k)
    ensures old(h.disk).Loose() ==>
      RemovalSafe(h.target, old(h.disk), h.disk, k) && (o.Done? ==> RemovedLoosely(h.target, old(h.disk), h.disk, k))
    ensures Removable(h.target, old(h.disk), e, k) && h.Smooth(old(h.tick)) ==> o.Done?
  {
    var t, d := h.target, h.disk;
    LoosePowerLoss(d);
    hide RemovedLoosely, TempGone, SameLook;
    var _ :- h.Probe();
    var image := ExpectedImage(t, e, k);
    if image.None? || !d.Holds(t.Dest(k), image.value) || !d.Holds(t.Temp(k), t.plan.files[k].after) { return Error; }
    o := UnlinkTemp(h, k);
  }

  /** The destination of file `k` is as expected, and its temporary exact. */
  predicate Removable(t: Target, disk: Disk, e: Evidence, k: nat)
    requires k < t.Size()
  {
    var image := ExpectedImage(t, e, k);
    image.Some? && disk.Holds(t.Dest(k), image.value) && disk.Holds(t.Temp(k), t.plan.files[k].after)
  }

  method UnlinkTemp(h: Host, k: nat) returns (o: Outcome<()>)
    requires k < h.target.Size() && h.disk.Valid()
    modifies h`tick, h`disk
    ensures h.Took(old(h.tick), h.journal, 2, o) && h.disk.Valid()
    ensures h.disk == old(h.disk) || TempGone(h.target, old(h.disk), h.disk, k)
    ensures o.Done? ==> TempGone(h.target, old(h.disk), h.disk, k)
    ensures old(h.disk).Loose() ==>
      RemovalSafe(h.target, old(h.disk), h.disk, k) && (o.Done? ==> RemovedLoosely(h.target, old(h.disk), h.disk, k))
    ensures h.Smooth(old(h.tick)) ==> o.Done?
  {
    var d, op := h.disk, Unlink(h.target.Temp(k));
    TempUnlinked(h.target, d, k);
    hide *;
    var _ :- h.Perform(d, d.Do(op));
    o := h.Perform(d.Do(op), d.Do(op).SyncDirectory(h.target.Dest(k).dir));
  }

  /** RESTORE_PREIMAGE, of file `k`. A rollback temporary that cannot be moved into place is left behind. */
  method RestorePreimage(h: Host, s: Snapshot, step: Step) returns (o: Outcome<()>, ghost k: nat)
    requires h.target.Valid() && h.target.ModifyOnly() && h.disk.Valid() && |s.progress| == h.target.Size()
    modifies h`tick, h`disk
    ensures h.Took(old(h.tick), h.journal, 11, o) && h.disk.Valid()
    ensures k < h.target.Size()
    ensures h.disk != old(h.disk) ==>
      && Meets(h.target, old(h.disk), s, step, k) && step.expected.value.destination == After
      && (SpareOnly(h.target, old(h.disk), h.disk, k) || BeforeBack(h.target, old(h.disk), h.disk, k))
    ensures o.Done? ==>
      && Meets(h.target, old(h.disk), s, step, k) && step.expected.value.destination == After
      && h.target.Spare(k) !in old(h.disk).live && BeforeBack(h.target, old(h.disk), h.disk, k)
    ensures AtEase(h.target, old(h.disk)) ==>
      && (o.Done? ==> RestoredLoosely(h.target, old(h.disk), h.disk, k))
      && forall after :: AfterPowerLoss(h.disk, after) ==>
           || SameLook(old(h.disk), after) || SameLook(old(h.disk).Durable(), after)
           || (&& Meets(h.target, old(h.disk), s, step, k) && step.expected.value.destination == After
               && (Replacing(h.target, old(h.disk), after, k) || Replacing(h.target, old(h.disk).Durable(), after, k)))
    ensures
      && old(Inspects(h, s)) && step.expected.Some? && step.expected.value.destination == After
      && (exists i :: 0 <= i < h.target.Size() && Meets(h.target, old(h.disk), s, step, i)
                      && h.target.Spare(i) !in old(h.disk).live)
      && h.Smooth(old(h.tick))
      ==> o.Done?
  {
    var t, d := h.target, h.disk;
    k := 0;
    LoosePowerLoss(d);
    var observed := RequireStepObservation(h, s, step);
    if !observed.Done? { o := observed.PropagateFailure(); return; }
    var i := observed.value;
    k := i;
    assert forall j :: 0 <= j < t.Size() && Meets(t, d, s, step, j) ==> t.Dest(j) == t.Dest(i);
    o := LoadThenReplace(h, step.expected.value, i);
  }

  /** Load the preimage, and put it back. */
  method LoadThenReplace(h: Host, e: Evidence, k: nat) returns (o: Outcome<()>)
    requires h.target.Valid() && h.target.ModifyOnly() && k < h.target.Size() && h.disk.Valid()
    requires e.destination == After ==> h.target.DestinationSeen(h.disk, k) == After
    modifies h`tick, h`disk
    ensures h.Took(old(h.tick), h.journal, 9, o) && h.disk.Valid()
    ensures h.disk != old(h.disk) ==>
      && e.destination == After
      && (SpareOnly(h.target, old(h.disk), h.disk, k) || BeforeBack(h.target, old(h.disk), h.disk, k))
    ensures o.Done? ==> && e.destination == After && h.target.Spare(k) !in old(h.disk).live
                        && BeforeBack(h.target, old(h.disk), h.disk, k)
    ensures AtEase(h.target, old(h.disk)) ==>
      && (e.destination != After ==> h.disk == old(h.disk))
      && ReplacementSafe(h.target, old(h.disk), h.disk, k)
      && (o.Done? ==> RestoredLoosely(h.target, old(h.disk), h.disk, k))
    ensures e.destination == After && h.target.Spare(k) !in old(h.disk).live && h.Smooth(old(h.tick)) ==> o.Done?
  {
    var t := h.target;
    LoosePowerLoss(h.disk);
    t.TempIsNotSpare(k, k);
    hide SpareOnly, BeforeBack, RestoredLoosely, Either, SameLook;
    if e.destination != After || t.Spare(k) == t.Temp(k) { return Error; }
    var _ :- h.Probe();
    o := ReplaceBySpare(h, k);
  }

  /** Create the rollback temporary, look at both files again, rename, synchronise. Whatever the disk holds by now, the
      destination is not replaced unless it is the exact after image. */
  method ReplaceBySpare(h: Host, k: nat) returns (o: Outcome<()>)
    requires h.target.Valid() && h.target.ModifyOnly() && k < h.target.Size() && h.disk.Valid()
    requires h.disk.Look(h.target.Dest(k)).Some?
    modifies h`tick, h`disk
    ensures h.Took(old(h.tick), h.journal, 8, o) && h.disk.Valid()
    ensures || h.disk == old(h.disk)
            || SpareOnly(h.target, old(h.disk), h.disk, k)
            || (BeforeBack(h.target, old(h.disk), h.disk, k)
                && old(h.disk).Holds(h.target.Dest(k), h.target.plan.files[k].after))
    ensures o.Done? ==> h.target.Spare(k) !in old(h.disk).live && BeforeBack(h.target, old(h.disk), h.disk, k)
                        && old(h.disk).Holds(h.target.Dest(k), h.target.plan.files[k].after)
    ensures AtEase(h.target, old(h.disk)) ==>
      && ReplacementSafe(h.target, old(h.disk), h.disk, k)
      && (o.Done? ==> RestoredLoosely(h.target, old(h.disk), h.disk, k))
    ensures
      && h.target.Spare(k) !in old(h.disk).live && old(h.disk).Holds(h.target.Dest(k), h.target.plan.files[k].after)
      && h.Smooth(old(h.tick))
      ==> o.Done?
  {
    var t, d := h.target, h.disk;
    LoosePowerLoss(d);
    if AtEase(t, d) && t.Spare(k) !in d.live { SpareIsNotDurable(t, d, k); }
    var file := t.plan.files[k];
    var _ :- h.CreateFile(t.Spare(k), file.before.value.mode, file.before.value);
    o := MoveIfExact(h, d, k);
  }

  /** The rollback temporary is there: look at both files again, and move it. */
  method MoveIfExact(h: Host, ghost base: Disk, k: nat) returns (o: Outcome<()>)
    requires h.target.Valid() && h.target.ModifyOnly() && k < h.target.Size() && base.Valid() && h.disk.Valid()
    requires SpareOnly(h.target, base, h.disk, k)
    requires AtEase(h.target, base) ==>
      LooselyAdded(base, h.disk, h.target.Spare(k)) && h.target.Spare(k) !in base.stable
    requires base.Look(h.target.Dest(k)).Some?
    modifies h`tick, h`disk
    ensures h.Took(old(h.tick), h.journal, 3, o) && h.disk.Valid()
    ensures || SpareOnly(h.target, base, h.disk, k)
            || (BeforeBack(h.target, base, h.disk, k)
                && old(h.disk).Holds(h.target.Dest(k), h.target.plan.files[k].after))
    ensures o.Done? ==>
      BeforeBack(h.target, base, h.disk, k) && old(h.disk).Holds(h.target.Dest(k), h.target.plan.files[k].after)
    ensures AtEase(h.target, base) ==>
      ReplacementSafe(h.target, base, h.disk, k) && (o.Done? ==> RestoredLoosely(h.target, base, h.disk, k))
    ensures
      && old(h.disk).Holds(h.target.Dest(k), h.target.plan.files[k].after)
      && old(h.disk).Holds(h.target.Spare(k), h.target.plan.files[k].before.value) && h.Smooth(old(h.tick))
      ==> o.Done?
  {
    var file, spare := h.target.plan.files[k], h.target.Spare(k);
    SpareIsReplacing(h.target, base, h.disk, k);
    hide *;
    var _ :- h.Probe();
    if !h.disk.Holds(file.path, file.after) || !h.disk.Holds(spare, file.before.value) { return Error; }
    o := MoveSpare(h, base, k);
  }

  lemma SpareIsReplacing(t: Target, base: Disk, disk: Disk, k: nat)
    requires t.Valid() && t.ModifyOnly() && k < t.Size() && SpareOnly(t, base, disk, k)
    requires AtEase(t, base) ==> LooselyAdded(base, disk, t.Spare(k)) && t.Spare(k) !in base.stable
    ensures Replacing(t, base, disk, k)
    ensures AtEase(t, base) ==> ReplacementSafe(t, base, disk, k)
  {
    LoosePowerLoss(disk);
  }

  method MoveSpare(h: Host, ghost base: Disk, k: nat) returns (o: Outcome<()>)
    requires h.target.Valid() && h.target.ModifyOnly() && k < h.target.Size() && base.Valid() && h.disk.Valid()
    requires SpareOnly(h.target, base, h.disk, k)
    requires AtEase(h.target, base) ==>
      LooselyAdded(base, h.disk, h.target.Spare(k)) && h.target.Spare(k) !in base.stable
    requires h.disk.Holds(h.target.Spare(k), h.target.plan.files[k].before.value)
    requires base.Look(h.target.Dest(k)).Some?
    modifies h`tick, h`disk
    ensures h.Took(old(h.tick), h.journal, 2, o) && h.disk.Valid()
    ensures Replacing(h.target, base, h.disk, k)
    ensures o.Done? ==> BeforeBack(h.target, base, h.disk, k)
    ensures AtEase(h.target, base) ==>
      ReplacementSafe(h.target, base, h.disk, k) && (o.Done? ==> RestoredLoosely(h.target, base, h.disk, k))
    ensures h.Smooth(old(h.tick)) ==> o.Done?
  {
    hide Disk.Do, Disk.SyncDirectory;
    var d, op := h.disk, Rename(h.target.Spare(k), h.target.Dest(k));
    SpareMoved(h.target, base, d, k);
    hide *;
    var _ :- h.Perform(d, d.Do(op));
    o := h.Perform(d.Do(op), d.Do(op).SyncDirectory(h.target.Dest(k).dir));
  }

  // ---- running the steps ---------------------------------------------------------------------

  /** What holds however a step ends, from disk `before` and journal `was` at snapshot `s`: the journal has at most
      one more snapshot, now `s'`, the disk is safe for it, and a power loss would leave it so. */
  ghost predicate Contained(t: Target, before: Disk, disk: Disk, was: Journal, j: Journal, s: Snapshot,
                            s': Snapshot, steps: seq<Step>, n: nat) {
    && disk.Valid() && Confined(t, before, disk) && Safe(t, disk, s', steps)
    && ((s' == s && j.records == was.records && j.size == was.size)
        || (Accepts(was, s, s') && j == Extended(was, s')))
    && (before.AtRest() ==>
          forall after :: AfterPowerLoss(disk, after) ==> Confined(t, before, after) && Safe(t, after, s', steps))
    && (Sheltered(t, before, s, steps, n) ==> StaysPowerSafe(t, before, disk, s'))
  }

  /** A disk that has not changed, with the journal as it was, or one step on. */
  lemma UnchangedIsContained(t: Target, disk: Disk, was: Journal, j: Journal, s: Snapshot, s': Snapshot,
                             steps: seq<Step>, m: nat, n: nat)
    requires disk.Valid() && n <= |steps| && Resumable(t, disk, s', steps, n)
    requires || (s' == s && j.records == was.records && j.size == was.size)
             || (Accepts(was, s, s') && j == Extended(was, s'))
    requires Sheltered(t, disk, s, steps, m) ==> Sheltered(t, disk, s', steps, n)
    ensures Contained(t, disk, disk, was, j, s, s', steps, m)
  {
    if Sheltered(t, disk, s, steps, m) {
      ShelteredIsAtEase(t, disk, s, steps, m);
      forall after | AfterPowerLoss(disk, after) ensures PowerSafe(t, disk, after, s') {
        PowerLossWhileLoose(disk, after);
        NothingIsPowerSafe(t, disk, after, s', steps, n);
      }
    }
    if disk.AtRest() {
      forall after | AfterPowerLoss(disk, after) ensures Confined(t, disk, after) && Safe(t, after, s', steps) {
        PowerLossAtRest(disk, after);
        SameLookResumes(t, disk, after, s', steps, n);
      }
    }
  }

  /** What holds when a step returns: the journal is at `s'` and the next step is due. */
  ghost predicate Stepped(t: Target, before: Disk, disk: Disk, was: Journal, j: Journal, s: Snapshot, s': Snapshot,
                          steps: seq<Step>, n: nat) {
    && Loads(j) && Current(j) == s' && |j.records| <= |was.records| + 1
    && n < |steps| && Resumable(t, disk, s', steps, n + 1)
    && OthersKept(t, before, disk) && (before.AtRest() ==> disk.AtRest())
    && (Sheltered(t, before, s, steps, n) ==> ShelteredStill(t, before, disk, s', steps, n + 1))
    && (forall q :: Held(t, before, q) && !Syncs(steps[n], t.Dest(q).dir) ==> Held(t, disk, q))
  }

  /** How many calls each step makes into the world. */
  function StepCalls(step: Step): nat {
    match step.kind
    case EnterRollback => 2
    case ReconcileInstalled => 4
    case MarkRestored => 4
    case RemoveExactTemp => 5
    case RestorePreimage => 11
    case RemoveAddedFile => 0
    case FinishRollback => 4
  }

  /** And the first `n` of them together. */
  function Calls(steps: seq<Step>, n: nat): nat
    requires n <= |steps|
  {
    if n == 0 then 0 else Calls(steps, n - 1) + StepCalls(steps[n - 1])
  }

  /** A step that only writes to the journal. */
  method RunRecord(h: Host, s: Snapshot, steps: seq<Step>, n: nat) returns (o: Outcome<Snapshot>, ghost s': Snapshot)
    requires h.target.Valid() && h.target.ModifyOnly() && h.disk.Valid()
    requires n < |steps| && Resumable(h.target, h.disk, s, steps, n)
    requires Loads(h.journal) && Current(h.journal) == s
    requires steps[n].kind == EnterRollback || steps[n].kind == ReconcileInstalled || steps[n].kind == MarkRestored
    modifies h`tick, h`journal
    ensures h.Took(old(h.tick), old(h.journal), StepCalls(steps[n]), o)
    ensures Contained(h.target, h.disk, h.disk, old(h.journal), h.journal, s, s', steps, n)
    ensures o.Done? ==> o.value == s' && Stepped(h.target, h.disk, h.disk, old(h.journal), h.journal, s, s', steps, n)
    ensures |old(h.journal).records| < MAX_SNAPSHOTS && h.Smooth(old(h.tick)) ==> o.Done?
  {
    var t := h.target;
    ghost var was := h.journal;
    s' := s;
    UnchangedIsContained(t, h.disk, was, was, s, s, steps, n, n);
    CurrentIsValid(h.journal);
    var k := 0;
    if steps[n].kind != EnterRollback {
      ghost var target := StepTarget(t, h.disk, s, steps, n);
      assert Meets(t, h.disk, s, steps[n], target);
      var observed := RequireStepObservation(h, s, steps[n]);
      if !observed.Done? { o := observed.PropagateFailure(); return; }
      k := observed.value;
    }
    RecordResumes(t, h.disk, s, steps, n, k);
    RecordShelters(t, h.disk, s, steps, n, k);
    var next := Recorded(s, steps[n].kind, k);
    o, s' := AppendNext(h, s, next, steps, n);
  }

  /** Append a snapshot for which the next step is due. */
  method AppendNext(h: Host, s: Snapshot, next: Snapshot, steps: seq<Step>, ghost n: nat)
    returns (o: Outcome<Snapshot>, ghost s': Snapshot)
    requires h.disk.Valid() && n < |steps| && Resumable(h.target, h.disk, s, steps, n)
    requires Resumable(h.target, h.disk, next, steps, n + 1)
    requires Sheltered(h.target, h.disk, s, steps, n) ==> Sheltered(h.target, h.disk, next, steps, n + 1)
    requires Loads(h.journal) && Current(h.journal) == s
    requires Transition(s, next.state, next.progress) == Some(next) && next != s
    modifies h`tick, h`journal
    ensures h.Took(old(h.tick), old(h.journal), 2, o)
    ensures Contained(h.target, h.disk, h.disk, old(h.journal), h.journal, s, s', steps, n)
    ensures o.Done? ==> o.value == s' && Stepped(h.target, h.disk, h.disk, old(h.journal), h.journal, s, s', steps, n)
    ensures |old(h.journal).records| < MAX_SNAPSHOTS && h.Smooth(old(h.tick)) ==> o.Done?
  {
    ghost var was := h.journal;
    o := h.Append(s, next.state, next.progress);
    if h.journal.records != was.records {
      ExtendedLoads(was, s, next);
      s' := next;
      UnchangedIsContained(h.target, h.disk, was, h.journal, s, s', steps, n, n + 1);
    } else {
      s' := s;
      UnchangedIsContained(h.target, h.disk, was, h.journal, s, s', steps, n, n);
    }
  }

  /** FINISH_ROLLBACK: plan once more, and record ROLLED_BACK only if nothing is left to do. */
  method RunFinish(h: Host, s: Snapshot, steps: seq<Step>, n: nat) returns (o: Outcome<Snapshot>, ghost s': Snapshot)
    requires h.target.Valid() && h.target.ModifyOnly() && h.disk.Valid()
    requires n < |steps| && Resumable(h.target, h.disk, s, steps, n)
    requires Loads(h.journal) && Current(h.journal) == s
    requires steps[n].kind == FinishRollback
    modifies h`tick, h`journal
    ensures h.Took(old(h.tick), old(h.journal), StepCalls(steps[n]), o)
    ensures Contained(h.target, h.disk, h.disk, old(h.journal), h.journal, s, s', steps, n)
    ensures o.Done? ==> o.value == s' && Stepped(h.target, h.disk, h.disk, old(h.journal), h.journal, s, s', steps, n)
    ensures |old(h.journal).records| < MAX_SNAPSHOTS && h.Smooth(old(h.tick)) ==> o.Done?
  {
    var t := h.target;
    ghost var was := h.journal;
    s' := s;
    UnchangedIsContained(t, h.disk, was, was, s, s, steps, n, n);
    CurrentIsValid(h.journal);
    FinishResumes(t, h.disk, s, steps, n);
    if Sheltered(t, h.disk, s, steps, n) { FinishIsAtRest(t, h.disk, s, steps, n); }
    if steps[n].expected.Some? { o := Error; return; }
    var files := AppliedTarget.Inspect(h, s);
    if !files.Done? { o := files.PropagateFailure(); return; }
    var remaining := BuildPlan(s.state, files.value);
    if remaining.None? || |remaining.value| != 1 || remaining.value[0].kind != FinishRollback { o := Error; return; }
    o, s' := AppendNext(h, s, Snapshot(RolledBack, s.progress), steps, n);
  }

  method RunRemove(h: Host, s: Snapshot, steps: seq<Step>, n: nat) returns (o: Outcome<Snapshot>)
    requires h.target.Valid() && h.target.ModifyOnly() && h.disk.Valid()
    requires n < |steps| && Resumable(h.target, h.disk, s, steps, n)
    requires Loads(h.journal) && Current(h.journal) == s
    requires steps[n].kind == StepKind.RemoveExactTemp
    modifies h`tick, h`disk
    ensures h.Took(old(h.tick), h.journal, StepCalls(steps[n]), o)
    ensures Contained(h.target, old(h.disk), h.disk, h.journal, h.journal, s, s, steps, n)
    ensures o.Done? ==> o.value == s && Stepped(h.target, old(h.disk), h.disk, h.journal, h.journal, s, s, steps, n)
    ensures h.Smooth(old(h.tick)) ==> o.Done?
  {
    var t := h.target;
    ghost var before := h.disk;
    ghost var target := StepTarget(t, before, s, steps, n);
    assert Meets(t, before, s, steps[n], target);
    ghost var k;
    var done;
    done, k := RemoveExactTemp(h, s, steps[n]);
    RemovedIsSafe(t, before, h.disk, s, steps, n, k);
    RemovalStaysSafe(t, before, h.disk, s, steps, n, k);
    if done.Done? {
      RemovalSteps(t, before, h.disk, h.journal, s, steps, n, k);
      return Done(s);
    }
    o := done.PropagateFailure();
  }

  lemma RemovalSteps(t: Target, before: Disk, disk: Disk, j: Journal, s: Snapshot, steps: seq<Step>, n: nat, k: nat)
    requires t.Valid() && t.ModifyOnly() && before.Valid() && disk.Valid() && n < |steps| && k < t.Size()
    requires Resumable(t, before, s, steps, n) && Loads(j) && Current(j) == s
    requires steps[n].kind == StepKind.RemoveExactTemp
    requires Meets(t, before, s, steps[n], k) && TempGone(t, before, disk, k)
    requires before.Loose() ==> RemovedLoosely(t, before, disk, k)
    ensures Stepped(t, before, disk, j, j, s, s, steps, n)
  {
    if Sheltered(t, before, s, steps, n) {
      ShelteredIsAtEase(t, before, s, steps, n);
      RemovalShelters(t, before, disk, s, steps, n, k);
    }
    forall q | Held(t, before, q) && !Syncs(steps[n], t.Dest(q).dir) ensures Held(t, disk, q) {
      RemovalHolds(t, before, disk, s, k, q);
    }
    TempGoneResumes(t, before, disk, s, steps, n, k);
    TempGoneBlocks(t, before, disk, k);
    assert t.Temp(k) in t.Temps();
  }

  method RunRestore(h: Host, s: Snapshot, steps: seq<Step>, n: nat) returns (o: Outcome<Snapshot>)
    requires h.target.Valid() && h.target.ModifyOnly() && h.disk.Valid()
    requires n < |steps| && Resumable(h.target, h.disk, s, steps, n)
    requires Loads(h.journal) && Current(h.journal) == s
    requires steps[n].kind == StepKind.RestorePreimage
    modifies h`tick, h`disk
    ensures h.Took(old(h.tick), h.journal, StepCalls(steps[n]), o)
    ensures Contained(h.target, old(h.disk), h.disk, h.journal, h.journal, s, s, steps, n)
    ensures o.Done? ==> o.value == s && Stepped(h.target, old(h.disk), h.disk, h.journal, h.journal, s, s, steps, n)
    ensures NoSpares(h.target, old(h.disk)) && h.Smooth(old(h.tick)) ==> o.Done?
  {
    var t := h.target;
    ghost var before := h.disk;
    ghost var target := StepTarget(t, before, s, steps, n);
    assert Meets(t, before, s, steps[n], target);
    assert before.Look(t.Spare(target)).None? ==> t.Spare(target) !in before.live;
    ghost var k;
    var done;
    done, k := RestorePreimage(h, s, steps[n]);
    RestoredIsSafe(t, before, h.disk, s, steps, n, k);
    RestorationStaysSafe(t, before, h.disk, s, steps, n, k);
    if done.Done? {
      RestorationSteps(t, before, h.disk, h.journal, s, steps, n, k);
      return Done(s);
    }
    o := done.PropagateFailure();
  }

  lemma RestorationSteps(t: Target, before: Disk, disk: Disk, j: Journal, s: Snapshot, steps: seq<Step>, n: nat, k: nat)
    requires t.Valid() && t.ModifyOnly() && before.Valid() && disk.Valid() && n < |steps| && k < t.Size()
    requires Resumable(t, before, s, steps, n) && Loads(j) && Current(j) == s
    requires steps[n].kind == StepKind.RestorePreimage
    requires Meets(t, before, s, steps[n], k) && BeforeBack(t, before, disk, k)
    requires AtEase(t, before) ==> RestoredLoosely(t, before, disk, k)
    ensures Stepped(t, before, disk, j, j, s, s, steps, n)
  {
    if Sheltered(t, before, s, steps, n) {
      ShelteredIsAtEase(t, before, s, steps, n);
      RestorationShelters(t, before, disk, s, steps, n, k);
    }
    forall q | Held(t, before, q) && !Syncs(steps[n], t.Dest(q).dir) ensures Held(t, disk, q) {
      RestorationHolds(t, before, disk, s, k, q);
    }
    BeforeBackResumes(t, before, disk, s, steps, n, k);
    ResumableHasDestinations(t, before, s, steps, n);
    RestoreBlocks(t, before, disk, k);
    assert t.Dest(k) in t.Dests(Modify);
  }

  /** One step, whatever its kind. */
  method RunStep(h: Host, s: Snapshot, steps: seq<Step>, n: nat) returns (o: Outcome<Snapshot>, ghost s': Snapshot)
    requires h.target.Valid() && h.target.ModifyOnly() && h.disk.Valid()
    requires n < |steps| && Resumable(h.target, h.disk, s, steps, n)
    requires Loads(h.journal) && Current(h.journal) == s
    modifies h`tick, h`disk, h`journal
    ensures h.Took(old(h.tick), old(h.journal), StepCalls(steps[n]), o)
    ensures Contained(h.target, old(h.disk), h.disk, old(h.journal), h.journal, s, s', steps, n)
    ensures o.Done? ==>
      o.value == s' && Stepped(h.target, old(h.disk), h.disk, old(h.journal), h.journal, s, s', steps, n)
    ensures
      && |old(h.journal).records| < MAX_SNAPSHOTS && NoSpares(h.target, old(h.disk)) && h.Smooth(old(h.tick))
      ==> o.Done?
  {
    s' := s;
    NoAddedFileSteps(h.target, h.disk, s, steps, n);
    match steps[n].kind {
      case RemoveExactTemp => o := RunRemove(h, s, steps, n);
      case RestorePreimage => o := RunRestore(h, s, steps, n);
      case FinishRollback => o, s' := RunFinish(h, s, steps, n);
      case RemoveAddedFile =>
        assert false;
      case _ => o, s' := RunRecord(h, s, steps, n);
    }
  }

  /** What a rollback leaves, apart from the mark of its failure: a journal that loads, at `s`, and a disk
      that is safe for it. */
  ghost predicate Left(t: Target, before: Disk, disk: Disk, j: Journal, s0: Snapshot, s: Snapshot, steps: seq<Step>) {
    && disk.Valid() && Confined(t, before, disk) && Safe(t, disk, s, steps)
    && Loads(j) && Current(j) == s && |s.progress| == t.Size() == j.size
    && (before.AtRest() ==>
          forall after :: AfterPowerLoss(disk, after) ==> Confined(t, before, after) && Safe(t, after, s, steps))
    && (Sheltered(t, before, s0, steps, 0) ==> StaysPowerSafe(t, before, disk, s))
  }

  /** A journal as `Left` wants it, read through a torn append if there is one. */
  function Untorn(j: Journal): Journal { j.(torn := false) }

  lemma ContainedIsLeft(t: Target, start: Disk, s0: Snapshot, before: Disk, disk: Disk, was: Journal, j: Journal,
                        s: Snapshot, s': Snapshot, steps: seq<Step>, n: nat)
    requires OthersKept(t, start, before) && (start.AtRest() ==> before.AtRest())
    requires Sheltered(t, start, s0, steps, 0) ==> ShelteredStill(t, start, before, s, steps, n)
    requires Contained(t, before, disk, was, j, s, s', steps, n)
    requires Loads(was) && Current(was) == s && was.size == t.Size()
    ensures Left(t, start, disk, Untorn(j), s0, s', steps)
  {
    if Sheltered(t, start, s0, steps, 0) {
      forall after | AfterPowerLoss(disk, after) ensures PowerSafe(t, start, after, s') {
        ConfinedSince(t, start, before, after);
        if before.pending != [] { ConfinedSince(t, start.Durable(), before.Durable(), after); }
        ShelteredIsAtEase(t, before, s, steps, n);
      }
    }
    assert Loads(Untorn(j)) && Current(Untorn(j)) == s' by {
      if s' != s || j.records != was.records { ExtendedLoads(was, s, s'); }
    }
    CurrentIsValid(Untorn(j));
  }

  /** Between two steps, from disk `start` and snapshot `s0`: the journal is at `s` and step `n` is due. */
  ghost predicate Underway(t: Target, start: Disk, s0: Snapshot, disk: Disk, j: Journal, s: Snapshot, steps: seq<Step>,
                           n: nat) {
    && disk.Valid() && Loads(j) && Current(j) == s && j.size == t.Size()
    && n <= |steps| && Resumable(t, disk, s, steps, n)
    && OthersKept(t, start, disk) && (start.AtRest() ==> disk.AtRest())
    && (Sheltered(t, start, s0, steps, 0) ==> ShelteredStill(t, start, disk, s, steps, n))
    && (forall q :: Held(t, start, q) && Undisturbed(steps, n, t.Dest(q).dir) ==> Held(t, disk, q))
  }

  lemma GetsUnderway(t: Target, disk: Disk, j: Journal, s: Snapshot, steps: seq<Step>)
    requires disk.Valid() && Resumable(t, disk, s, steps, 0) && Loads(j) && Current(j) == s && j.size == t.Size()
    ensures Underway(t, disk, s, disk, j, s, steps, 0) && Left(t, disk, disk, Untorn(j), s, s, steps)
  {
    UnchangedIsContained(t, disk, j, j, s, s, steps, 0, 0);
    ContainedIsLeft(t, disk, s, disk, disk, j, j, s, s, steps, 0);
  }

  /** One step on the way. */
  lemma StaysUnderway(t: Target, start: Disk, s0: Snapshot, before: Disk, disk: Disk, was: Journal, j: Journal,
                      s: Snapshot, s': Snapshot, steps: seq<Step>, n: nat)
    requires Underway(t, start, s0, before, was, s, steps, n)
    requires Contained(t, before, disk, was, j, s, s', steps, n)
    ensures Left(t, start, disk, Untorn(j), s0, s', steps) && was.records <= j.records
    ensures Stepped(t, before, disk, was, j, s, s', steps, n) ==> Underway(t, start, s0, disk, j, s', steps, n + 1)
  {
    ContainedIsLeft(t, start, s0, before, disk, was, j, s, s', steps, n);
    if Stepped(t, before, disk, was, j, s, s', steps, n) && Sheltered(t, start, s0, steps, 0) {
      ShelteredSince(t, start, before, disk, s, s', steps, n);
    }
  }

  /** One turn of the loop over the plan. */
  method NextStep(h: Host, ghost start: Disk, ghost s0: Snapshot, s: Snapshot, steps: seq<Step>, n: nat,
                  ghost from: nat, ghost was: Journal)
    returns (o: Outcome<Snapshot>, ghost s': Snapshot)
    requires h.target.Valid() && h.target.ModifyOnly() && n < |steps|
    requires Resumable(h.target, start, s0, steps, 0)
    requires Underway(h.target, start, s0, h.disk, h.journal, s, steps, n)
    requires h.OnTime(from, was, Calls(steps, n))
    modifies h`tick, h`disk, h`journal
    ensures h.Went(from, was, o)
    ensures o.Done? ==> h.OnTime(from, was, Calls(steps, n + 1))
    ensures Left(h.target, start, h.disk, Untorn(h.journal), s0, s', steps)
    ensures old(h.journal).records <= h.journal.records && |h.journal.records| <= |old(h.journal).records| + 1
    ensures o.Done? ==> o.value == s' && Underway(h.target, start, s0, h.disk, h.journal, s', steps, n + 1)
    ensures NoSpares(h.target, start) && |old(h.journal).records| < MAX_SNAPSHOTS && h.Smooth(from) ==> o.Done?
  {
    ghost var before, j := h.disk, h.journal;
    if NoSpares(h.target, start) { NoSparesStays(h.target, start, h.disk, s0, steps, 0); }
    o, s' := RunStep(h, s, steps, n);
    StaysUnderway(h.target, start, s0, before, h.disk, j, h.journal, s, s', steps, n);
  }

  /** The loop over the plan, as far as the first `stop` steps. */
  method RunFirst(h: Host, s: Snapshot, steps: seq<Step>, stop: nat) returns (o: Outcome<Snapshot>, ghost s': Snapshot)
    requires h.target.Valid() && h.target.ModifyOnly() && h.disk.Valid() && h.journal.size == h.target.Size()
    requires Resumable(h.target, h.disk, s, steps, 0) && Loads(h.journal) && Current(h.journal) == s && stop <= |steps|
    modifies h`tick, h`disk, h`journal
    ensures h.Went(old(h.tick), old(h.journal), o)
    ensures o.Done? ==> h.OnTime(old(h.tick), old(h.journal), Calls(steps, stop))
    ensures Left(h.target, old(h.disk), h.disk, Untorn(h.journal), s, s', steps)
    ensures old(h.journal).records <= h.journal.records
    ensures |h.journal.records| <= |old(h.journal).records| + stop
    ensures o.Done? ==> o.value == s' && Underway(h.target, old(h.disk), s, h.disk, h.journal, s', steps, stop)
    ensures
      && NoSpares(h.target, old(h.disk)) && |old(h.journal).records| + stop <= MAX_SNAPSHOTS && h.Smooth(old(h.tick))
      ==> o.Done?
  {
    ghost var start, was := h.disk, h.journal;
    var current := s;
    s' := s;
    GetsUnderway(h.target, start, was, s, steps);
    hide *;
    for n := 0 to stop
      invariant h.OnTime(old(h.tick), was, Calls(steps, n))
      invariant Left(h.target, start, h.disk, Untorn(h.journal), s, s', steps) && s' == current
      invariant Underway(h.target, start, s, h.disk, h.journal, current, steps, n)
      invariant |h.journal.records| <= |was.records| + n && was.records <= h.journal.records
    {
      var done;
      done, s' := NextStep(h, start, s, current, steps, n, old(h.tick), was);
      if !done.Done? { o := done; return; }
      current := done.value;
    }
    o := Done(current);
  }

  /** The loop over the plan. */
  method RunSteps(h: Host, s: Snapshot, steps: seq<Step>) returns (o: Outcome<Snapshot>, ghost s': Snapshot)
    requires h.target.Valid() && h.target.ModifyOnly() && h.disk.Valid() && h.journal.size == h.target.Size()
    requires Resumable(h.target, h.disk, s, steps, 0) && Loads(h.journal) && Current(h.journal) == s
    modifies h`tick, h`disk, h`journal
    ensures h.Went(old(h.tick), old(h.journal), o)
    ensures o.Done? ==> h.OnTime(old(h.tick), old(h.journal), Calls(steps, |steps|))
    ensures Left(h.target, old(h.disk), h.disk, Untorn(h.journal), s, s', steps)
    ensures old(h.journal).records <= h.journal.records
    ensures |h.journal.records| <= |old(h.journal).records| + |steps|
    ensures o.Done? ==> && o.value == s' && Loads(h.journal) && Resumable(h.target, h.disk, s', steps, |steps|)
                        && OthersKept(h.target, old(h.disk), h.disk)
    ensures
      && NoSpares(h.target, old(h.disk)) && |old(h.journal).records| + |steps| <= MAX_SNAPSHOTS && h.Smooth(old(h.tick))
      ==> o.Done?
  {
    o, s' := RunFirst(h, s, steps, |steps|);
  }

  // ---- the whole rollback --------------------------------------------------------------------

  ghost predicate ExactPlan(t: Target, disk: Disk, j: Journal, s: Snapshot, steps: seq<Step>) {
    && t.ModifyOnly() && Loads(j) && Current(j) == s && Active(s.state)
    && 0 < |steps| && Resumable(t, disk, s, steps, 0)
  }

  lemma ObservedIsExact(t: Target, disk: Disk, j: Journal, s: Snapshot, steps: seq<Step>)
    requires t.ModifyOnly() && Loads(j) && Current(j) == s && Active(s.state) && AppliedTarget.Inspectable(t, disk, s)
    requires PlanSteps(s.state, t.Observed(disk, s.progress)) == Some(steps)
    ensures ExactPlan(t, disk, j, s, steps)
  {
    FinishIsLast(s.state, t.Observed(disk, s.progress));
    assert steps[0..] == steps;
  }

  /** _require_exact_plan: the plan given is the plan of what is there now. */
  method RequireExactPlan(h: Host, s: Snapshot, steps: seq<Step>) returns (o: Outcome<()>)
    requires h.target.Valid()
    modifies h`tick
    ensures h.Took(old(h.tick), h.journal, 5, o)
    ensures o.Done? ==> ExactPlan(h.target, h.disk, h.journal, s, steps)
    ensures
      && old(Inspects(h, s)) && h.target.ModifyOnly()
      && PlanSteps(s.state, h.target.Observed(h.disk, s.progress)) == Some(steps)
      && h.Smooth(old(h.tick))
      ==> o.Done?
  {
    hide PlanSteps, Resumable, ExactPlan, Loads, Target.Valid,
      Target.Observed;
    var t := h.target;
    if !Active(s.state) || !t.ModifyOnly() { return Error; }
    var durable :- h.LoadJournal();
    if durable != s { return Error; }
    var _ :- h.Probe();
    var files :- AppliedTarget.Inspect(h, s);
    var expected := BuildPlan(s.state, files);
    if expected != Some(steps) { return Error; }
    ObservedIsExact(t, h.disk, h.journal, s, steps);
    o := h.Probe();
  }

  /** _fail_closed: read the durable state back, or mark it RECOVERY_REQUIRED. */
  method FailClosed(h: Host, ghost s': Snapshot) returns (e: Ending)
    requires Loads(Untorn(h.journal)) && Current(h.journal) == s'
    modifies h`tick, h`journal
    ensures e.FailedClosed? || e.FailedOpen? || e.Died?
    ensures old(h.tick) <= h.tick && (e.Died? <==> h.Killed(old(h.tick)))
    ensures h.journal.size == old(h.journal).size && old(h.journal).records <= h.journal.records
    ensures || Untorn(h.journal) == Untorn(old(h.journal))
            || h.journal == Extended(old(h.journal), Snapshot(RecoveryRequired, s'.progress))
    ensures e.FailedClosed? ==>
      && Loads(h.journal) && e.snapshot == Current(h.journal)
      && (e.snapshot.state == RecoveryRequired || e.snapshot.state == RolledBack)
    ensures
      && old(h.Calm()) && !old(h.journal.torn) && |old(h.journal).records| < MAX_SNAPSHOTS
      && (Active(s'.state) || s'.state == RecoveryRequired || s'.state == RolledBack)
      ==> e.FailedClosed?
  {
    var loaded := h.LoadJournal();
    if loaded.Dead? { return Died; }
    if loaded.Error? { return FailedOpen; }
    var durable := loaded.value;
    if durable.state == RecoveryRequired || durable.state == RolledBack { return FailedClosed(durable); }
    if !Active(durable.state) { return FailedOpen; }
    CurrentIsValid(h.journal);
    RecoveryIsLegal(durable);
    ghost var was := h.journal;
    var marked := h.Append(durable, RecoveryRequired, durable.progress);
    if h.journal.records != was.records { ExtendedLoads(was, durable, Snapshot(RecoveryRequired, durable.progress)); }
    e := if marked.Dead? then Died else if marked.Error? then FailedOpen else FailedClosed(marked.value);
  }

  /** The journal without its last record. */
  function Unmarked(j: Journal): Journal
    requires j.records != []
  {
    j.(records := j.records[..|j.records| - 1], torn := false)
  }

  /** What a rollback leaves, with or without the mark of its failure. */
  ghost predicate Ended(t: Target, before: Disk, disk: Disk, j: Journal, s0: Snapshot, s: Snapshot, steps: seq<Step>) {
    || Left(t, before, disk, Untorn(j), s0, s, steps)
    || (&& |j.records| > 1 && Current(j) == Snapshot(RecoveryRequired, s.progress)
        && Left(t, before, disk, Unmarked(j), s0, s, steps))
  }

  /** The journal is at ROLLED_BACK, every file is back and nothing else has changed. */
  ghost predicate Rolled(t: Target, before: Disk, disk: Disk, j: Journal, s: Snapshot) {
    && Loads(j) && Current(j) == s && s.state == RolledBack
    && OthersKept(t, before, disk) && AllBack(t, disk)
  }

  /** execute_lab_promotion_rollback. `s'` is where the rollback itself got to, before any failure mark. */
  method Execute(h: Host, s: Snapshot, steps: seq<Step>) returns (e: Ending, ghost s': Snapshot)
    requires h.target.Valid() && h.disk.Valid() && h.journal.size == h.target.Size()
    modifies h`tick, h`disk, h`journal
    ensures h.disk.Valid() && h.journal.size == h.target.Size() && old(h.journal).records <= h.journal.records
    // Refused or dead before the first step: nothing changed. So it is whenever the journal does not load at
    // an active state or the inspection refuses, as it does over a visible rollback temporary.
    ensures e.Refused? ==> h.disk == old(h.disk) && h.journal == old(h.journal)
    ensures h.disk != old(h.disk) || h.journal != old(h.journal) ==>
      ExactPlan(h.target, old(h.disk), old(h.journal), s, steps)
    // However it ends, what it leaves is safe: resumable, or stopped by one rollback temporary.
    ensures
      || (h.disk == old(h.disk) && h.journal == old(h.journal))
      || Ended(h.target, old(h.disk), h.disk, h.journal, s, s', steps)
    // Returned: everything is back.
    ensures e.Finished? ==>
      && Rolled(h.target, old(h.disk), h.disk, h.journal, e.snapshot)
      && h.Smooth(old(h.tick)) && h.tick == old(h.tick) + Calls(steps, |steps|) + 6
    // Failed, with a durable state: RECOVERY_REQUIRED or ROLLED_BACK.
    ensures e.FailedClosed? ==>
      && Loads(h.journal) && Current(h.journal) == e.snapshot
      && (e.snapshot.state == RecoveryRequired || e.snapshot.state == RolledBack)
    ensures e.Died? <==> h.Killed(old(h.tick))
    // Once the plan has been found exact, one call that raises, wherever it strikes, does not keep the failure from
    // being marked; nor does a rollback temporary in the way.
    ensures
      && old(h.QuietFor(5)) && old(Inspects(h, s)) && h.target.ModifyOnly()
      && PlanSteps(s.state, h.target.Observed(old(h.disk), s.progress)) == Some(steps)
      && |old(h.journal).records| + |steps| < MAX_SNAPSHOTS
      ==> && (old(h.OneRaise()) && NoSpares(h.target, old(h.disk)) ==> e.Finished? || e.FailedClosed?)
          && (old(h.Calm()) ==> e.Finished? || e.FailedClosed?)
    // An exact plan is carried out unless something goes wrong or a rollback temporary is in the way.
    ensures
      && old(h.Calm()) && old(Inspects(h, s)) && h.target.ModifyOnly() && NoSpares(h.target, old(h.disk))
      && PlanSteps(s.state, h.target.Observed(old(h.disk), s.progress)) == Some(steps)
      && |old(h.journal).records| + |steps| <= MAX_SNAPSHOTS
      ==> e.Finished?
  {
    s' := s;
    var exact := RequireExactPlan(h, s, steps);
    if exact.Dead? { return Died, s'; }
    if exact.Error? { return Refused, s'; }
    e, s' := RunOrFail(h, s, steps);
  }

  lemma MarkedIsEnded(t: Target, before: Disk, disk: Disk, j: Journal, j': Journal, s0: Snapshot, s: Snapshot,
                      steps: seq<Step>)
    requires Left(t, before, disk, Untorn(j), s0, s, steps)
    requires Untorn(j') == Untorn(j) || j' == Extended(j, Snapshot(RecoveryRequired, s.progress))
    ensures Ended(t, before, disk, j', s0, s, steps) && disk.Valid() && j'.size == t.Size()
  {
    if Untorn(j') != Untorn(j) {
      assert Unmarked(j') == Untorn(j);
      assert |j.records| > 0;
    }
  }

  /** Run an exact plan; when that fails, fail closed. */
  method RunOrFail(h: Host, s: Snapshot, steps: seq<Step>) returns (e: Ending, ghost s': Snapshot)
    requires h.target.Valid() && h.disk.Valid() && h.journal.size == h.target.Size()
    requires ExactPlan(h.target, h.disk, h.journal, s, steps)
    modifies h`tick, h`disk, h`journal
    ensures old(h.tick) <= h.tick && (e.Died? <==> h.Killed(old(h.tick)))
    ensures h.disk.Valid() && h.journal.size == h.target.Size()
    ensures old(h.journal).records <= h.journal.records
    ensures !e.Refused? && Ended(h.target, old(h.disk), h.disk, h.journal, s, s', steps)
    ensures e.Finished? ==>
      && Rolled(h.target, old(h.disk), h.disk, h.journal, e.snapshot)
      && h.Smooth(old(h.tick)) && h.tick == old(h.tick) + Calls(steps, |steps|) + 1
    ensures e.FailedClosed? ==>
      && Loads(h.journal) && Current(h.journal) == e.snapshot
      && (e.snapshot.state == RecoveryRequired || e.snapshot.state == RolledBack)
    ensures |old(h.journal).records| + |steps| < MAX_SNAPSHOTS ==>
      && (old(h.OneRaise()) && NoSpares(h.target, old(h.disk)) ==> e.Finished? || e.FailedClosed?)
      && (old(h.Calm()) ==> e.Finished? || e.FailedClosed?)
    ensures
      && old(h.Calm()) && NoSpares(h.target, old(h.disk)) && |old(h.journal).records| + |steps| <= MAX_SNAPSHOTS
      ==> e.Finished?
  {
    hide Ended, Rolled, Left, Resumable;
    assert h.target.ModifyOnly() && Loads(h.journal) && Current(h.journal) == s;
    assert Resumable(h.target, h.disk, s, steps, 0);
    hide *;
    var run;
    run, s' := RunAndReload(h, s, steps);
    MarkedIsEnded(h.target, old(h.disk), h.disk, h.journal, h.journal, s, s', steps);
    if run.Dead? { return Died, s'; }
    if run.Done? { return Finished(run.value), s'; }
    if old(h.OneRaise()) && !h.Smooth(old(h.tick)) { OneIsSpent(h.faults, old(h.tick), h.tick); }
    e := FailRun(h, old(h.disk), s, s', steps);
  }

  /** The steps have raised: fail closed. */
  method FailRun(h: Host, ghost start: Disk, ghost s0: Snapshot, ghost s: Snapshot, ghost steps: seq<Step>)
    returns (e: Ending)
    requires Left(h.target, start, h.disk, Untorn(h.journal), s0, s, steps)
    modifies h`tick, h`journal
    ensures e.FailedClosed? || e.FailedOpen? || e.Died?
    ensures old(h.tick) <= h.tick && (e.Died? <==> h.Killed(old(h.tick)))
    ensures h.disk.Valid() && h.journal.size == h.target.Size() && old(h.journal).records <= h.journal.records
    ensures Ended(h.target, start, h.disk, h.journal, s0, s, steps)
    ensures e.FailedClosed? ==>
      && Loads(h.journal) && Current(h.journal) == e.snapshot
      && (e.snapshot.state == RecoveryRequired || e.snapshot.state == RolledBack)
    ensures old(h.Calm()) && !old(h.journal.torn) && |old(h.journal).records| < MAX_SNAPSHOTS ==> e.FailedClosed?
  {
    LeftMeans(h.target, start, h.disk, Untorn(h.journal), s0, s, steps);
    hide *;
    ghost var was := h.journal;
    e := FailClosed(h, s);
    MarkedIsEnded(h.target, start, h.disk, was, h.journal, s0, s, steps);
  }

  /** Wherever the steps stopped, the transaction is still active, unless they are all done. */
  lemma LeftMeans(t: Target, before: Disk, disk: Disk, j: Journal, s0: Snapshot, s: Snapshot, steps: seq<Step>)
    requires Left(t, before, disk, j, s0, s, steps)
    ensures Loads(j) && Current(j) == s && j.records != [] && (Active(s.state) || s.state == RolledBack)
  {
  }

  /** The part inside the source's try block: the steps, then one more look at the journal. */
  method RunAndReload(h: Host, s: Snapshot, steps: seq<Step>) returns (o: Outcome<Snapshot>, ghost s': Snapshot)
    requires h.target.Valid() && h.target.ModifyOnly() && h.disk.Valid() && h.journal.size == h.target.Size()
    requires Resumable(h.target, h.disk, s, steps, 0) && Loads(h.journal) && Current(h.journal) == s
    modifies h`tick, h`disk, h`journal
    ensures Left(h.target, old(h.disk), h.disk, Untorn(h.journal), s, s', steps)
    ensures h.Went(old(h.tick), old(h.journal), o)
    ensures o.Done? ==> h.OnTime(old(h.tick), old(h.journal), Calls(steps, |steps|) + 1)
    ensures old(h.journal).records <= h.journal.records && h.journal.records != []
    ensures |h.journal.records| <= |old(h.journal).records| + |steps|
    ensures Active(s'.state) || s'.state == RolledBack
    ensures Loads(Untorn(h.journal)) && Current(h.journal) == s'
    ensures o.Done? ==> Rolled(h.target, old(h.disk), h.disk, h.journal, o.value)
    ensures
      && NoSpares(h.target, old(h.disk)) && |old(h.journal).records| + |steps| <= MAX_SNAPSHOTS && h.Smooth(old(h.tick))
      ==> o.Done?
  {
    hide Left, Resumable, Inspects, NoSpares, Loads, Disk.Valid, Target.Valid, Target.ModifyOnly, OthersKept,
      Calls;
    o, s' := RunSteps(h, s, steps);
    LeftMeans(h.target, old(h.disk), h.disk, Untorn(h.journal), s, s', steps);
    if !o.Done? { return; }
    var current := o.value;
    if current.state != RolledBack { o := Error; return; }
    ResumedToTheEnd(h.target, h.disk, s', steps);
    o := h.LoadJournal();
    if o.Done? && o.value != current { o := Error; }
  }
}
