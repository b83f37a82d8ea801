/** Rollback planning from the journal's progress and the observed physical state. */
module RollbackPlan {
  import opened Basics
  import opened FileSystem
  import opened Transaction
  import opened Target

  datatype StepKind =
    | EnterRollback | ReconcileInstalled | RemoveExactTemp | RestorePreimage | RemoveAddedFile
    | MarkRestored | FinishRollback

  /** Steps that concern the whole transaction carry no expectation. */
  datatype Step = Step(kind: StepKind, expected: Option<Evidence>)

  function RestoreStep(e: Evidence): Step {
    Step(if e.operation == Modify then RestorePreimage else RemoveAddedFile,
         Some(e.(destination := After, temporary := Absent)))
  }

  function MarkStep(e: Evidence): Step {
    Step(MarkRestored, Some(e.(destination := Before, temporary := Absent)))
  }

  /** The steps for one file, or None where the evidence is ambiguous. */
  function PlanFile(state: State, e: Evidence): (r: Option<seq<Step>>) {
    if e.destination == Other || e.temporary == Unexpected then None
    else match e.progress
    case Pending =>
      if e.destination == Before then
        if e.temporary == Exact then Some([Step(RemoveExactTemp, Some(e))]) else Some([])
      else if e.temporary == Absent then
        var installed := e.(progress := Installed);
        Some([Step(ReconcileInstalled, Some(e)), RestoreStep(installed), MarkStep(installed)])
      else None
    case Restored =>
      if state == RollingBack && e.destination == Before && e.temporary == Absent then Some([]) else None
    case _ =>
      if e.destination == After && e.temporary == Absent then Some([RestoreStep(e), MarkStep(e)])
      else if state == RollingBack && e.destination == Before && e.temporary == Absent then Some([MarkStep(e)])
      else None
  }

  function PlanFiles(state: State, es: seq<Evidence>): (r: Option<seq<Step>>) {
    if es == [] then Some([])
    else
      var first := PlanFile(state, es[0]);
      var rest := PlanFiles(state, es[1..]);
      if first.None? || rest.None? then None else Some(first.value + rest.value)
  }

  /** The whole plan: entering rollback unless already there, the files in order, finishing. */
  function PlanSteps(state: State, es: seq<Evidence>): (r: Option<seq<Step>>) {
    if !Active(state) then None
    else
      var files := PlanFiles(state, es);
      if files.None? then None
      else Some((if state == RollingBack then [] else [Step(EnterRollback, None)])
                + files.value + [Step(FinishRollback, None)])
  }

  /** The planner as it runs: one growing list of steps. */
  method BuildPlan(state: State, es: seq<Evidence>) returns (r: Option<seq<Step>>)
    ensures r == PlanSteps(state, es)
  {
    if !Active(state) { return None; }
    var steps := if state == RollingBack then [] else [Step(EnterRollback, None)];
    ghost var opening := steps;
    var i := 0;
    assert es[0..] == es;
    while i < |es|
      invariant 0 <= i <= |es|
      invariant PlanFiles(state, es).Some? <==> PlanFiles(state, es[i..]).Some?
      invariant PlanFiles(state, es).Some? ==>
        opening + PlanFiles(state, es).value == steps + PlanFiles(state, es[i..]).value
    {
      assert es[i..][1..] == es[i + 1..];
      var file := PlanFile(state, es[i]);
      if file.None? { return None; }
      ghost var rest := PlanFiles(state, es[i + 1..]);
      assert rest.Some? ==> PlanFiles(state, es[i..]).value == file.value + rest.value;
      assert rest.Some? ==> steps + (file.value + rest.value) == (steps + file.value) + rest.value;
      steps := steps + file.value;
      i := i + 1;
    }
    assert es[|es|..] == [];
    assert steps == opening + PlanFiles(state, es).value;
    r := Some(steps + [Step(FinishRollback, None)]);
  }

  // ---- what the steps do to the evidence -----------------------------------------------------

  function StateAfter(state: State, step: Step): State {
    match step.kind
    case EnterRollback => RollingBack
    case FinishRollback => RolledBack
    case _ => state
  }

  function FileAfter(e: Evidence, step: Step): Evidence {
    if step.expected.None? || step.expected.value.path != e.path then e
    else match step.kind
    case ReconcileInstalled => e.(progress := Installed)
    case RemoveExactTemp => e.(temporary := Absent)
    case RestorePreimage => e.(destination := Before)
    case RemoveAddedFile => e.(destination := Before)
    case MarkRestored => e.(progress := Restored)
    case _ => e
  }

  function FilesAfter(es: seq<Evidence>, step: Step): (r: seq<Evidence>) {
    seq(|es|, i requires 0 <= i < |es| => FileAfter(es[i], step))
  }

  ghost predicate DistinctPaths(es: seq<Evidence>) {
    forall i, j :: 0 <= i < j < |es| ==> es[i].path != es[j].path
  }

  lemma {:induction false} UntouchedFiles(es: seq<Evidence>, step: Step)
    requires step.expected.Some? ==> forall i :: 0 <= i < |es| ==> es[i].path != step.expected.value.path
    ensures FilesAfter(es, step) == es
  {
  }

  /** Every step of a file plan expects exactly the evidence of some one file of the list. */
  lemma {:induction false} StepHasTarget(state: State, es: seq<Evidence>) returns (k: nat)
    requires PlanFiles(state, es).Some? && PlanFiles(state, es).value != []
    ensures k < |es| && PlanFile(state, es[k]).Some? && PlanFile(state, es[k]).value != []
    ensures PlanFiles(state, es).value[0] == PlanFile(state, es[k]).value[0]
    ensures forall i :: 0 <= i < k ==> PlanFile(state, es[i]) == Some([])
    ensures PlanFiles(state, es).value[0].expected == Some(es[k])
  {
    if PlanFile(state, es[0]).value == [] {
      var m := StepHasTarget(state, es[1..]);
      k := m + 1;
      assert es[k] == es[1..][m];
      forall i | 0 <= i < k ensures PlanFile(state, es[i]) == Some([]) {
        if i > 0 { assert es[i] == es[1..][i - 1]; }
      }
    } else {
      k := 0;
    }
  }

  /** After its first step the plan of the files is the rest of it. */
  lemma {:induction false} FileStepContinues(es: seq<Evidence>)
    requires DistinctPaths(es)
    requires PlanFiles(RollingBack, es).Some? && PlanFiles(RollingBack, es).value != []
    ensures PlanFiles(RollingBack, FilesAfter(es, PlanFiles(RollingBack, es).value[0]))
         == Some(PlanFiles(RollingBack, es).value[1..])
  {
    if PlanFile(RollingBack, es[0]).value == [] {
      var steps, rest := PlanFiles(RollingBack, es).value, PlanFiles(RollingBack, es[1..]).value;
      assert steps == rest;
      var k := StepHasTarget(RollingBack, es[1..]);
      assert es[k + 1] == es[1..][k];
      var after := FilesAfter(es, steps[0]);
      assert after[0] == es[0] && after[1..] == FilesAfter(es[1..], steps[0]);
      FileStepContinues(es[1..]);
      assert [] + rest[1..] == rest[1..];
    } else {
      FirstFileContinues(es);
    }
  }

  lemma ReplaceFirst(state: State, e: Evidence, rest: seq<Evidence>)
    requires PlanFile(state, e).Some? && PlanFiles(state, rest).Some?
    ensures PlanFiles(state, [e] + rest) == Some(PlanFile(state, e).value + PlanFiles(state, rest).value)
  {
    assert ([e] + rest)[1..] == rest;
  }

  lemma FirstFileContinues(es: seq<Evidence>)
    requires DistinctPaths(es) && es != []
    requires PlanFiles(RollingBack, es).Some? && PlanFile(RollingBack, es[0]).value != []
    ensures PlanFiles(RollingBack, es).value != []
    ensures PlanFiles(RollingBack, FilesAfter(es, PlanFiles(RollingBack, es).value[0]))
         == Some(PlanFiles(RollingBack, es).value[1..])
  {
    var e, rest := es[0], es[1..];
    var first, others := PlanFile(RollingBack, e).value, PlanFiles(RollingBack, rest).value;
    var steps := first + others;
    assert PlanFiles(RollingBack, es) == Some(steps) && steps[0] == first[0] && steps[1..] == first[1..] + others;
    OwnStepContinues(e);
    assert FilesAfter(rest, first[0]) == rest by { UntouchedFiles(rest, first[0]); }
    assert FilesAfter(es, first[0]) == [FileAfter(e, first[0])] + FilesAfter(rest, first[0]);
    ReplaceFirst(RollingBack, FileAfter(e, first[0]), rest);
  }

  lemma OwnStepContinues(e: Evidence)
    requires PlanFile(RollingBack, e).Some? && PlanFile(RollingBack, e).value != []
    ensures var steps := PlanFile(RollingBack, e).value;
            steps[0].expected == Some(e) && PlanFile(RollingBack, FileAfter(e, steps[0])) == Some(steps[1..])
  {
    var steps := PlanFile(RollingBack, e).value;
    var e' := FileAfter(e, steps[0]);
    match steps[0].kind
    case ReconcileInstalled =>
      assert steps[1..] == [RestoreStep(e'), MarkStep(e')];
    case RemoveExactTemp =>
      assert steps[1..] == [];
    case MarkRestored =>
      assert steps[1..] == [];
    case RestorePreimage =>
      assert steps[1..] == [MarkStep(e')];
    case RemoveAddedFile =>
      assert steps[1..] == [MarkStep(e')];
  }

  /** Entering rollback changes no file's plan. */
  lemma {:induction false} EnteringKeepsFilePlans(state: State, es: seq<Evidence>)
    requires state == Applying || state == Verifying
    requires PlanFiles(state, es).Some?
    ensures PlanFiles(RollingBack, es) == PlanFiles(state, es)
  {
    if es != [] { EnteringKeepsFilePlans(state, es[1..]); }
  }

  /** A rollback is its own continuation, one step: planning again after the first step
      yields the other steps, in order. */
  lemma Continues(state: State, es: seq<Evidence>)
    requires DistinctPaths(es)
    requires PlanSteps(state, es).Some? && PlanSteps(state, es).value[0].kind != FinishRollback
    ensures var steps := PlanSteps(state, es).value;
            PlanSteps(StateAfter(state, steps[0]), FilesAfter(es, steps[0])) == Some(steps[1..])
  {
    var steps := PlanSteps(state, es).value;
    if state == RollingBack {
      var files := PlanFiles(state, es).value;
      assert files != [];
      assert steps == files + [Step(FinishRollback, None)];
      NoFinishInFiles(state, es);
      FileStepContinues(es);
      assert steps[1..] == files[1..] + [Step(FinishRollback, None)];
      assert [] + files[1..] == files[1..];
    } else {
      EnteringKeepsFilePlans(state, es);
      assert steps[0] == Step(EnterRollback, None);
      UntouchedFiles(es, steps[0]);
      assert steps[1..] == PlanFiles(state, es).value + [Step(FinishRollback, None)];
      assert PlanSteps(RollingBack, es).value == [] + PlanFiles(RollingBack, es).value + [Step(FinishRollback, None)];
      assert [] + PlanFiles(state, es).value == PlanFiles(state, es).value;
    }
  }

  /** Run the first `k` steps. */
  function StateAfterAll(state: State, steps: seq<Step>): State
    decreases |steps|
  {
    if steps == [] then state else StateAfterAll(StateAfter(state, steps[0]), steps[1..])
  }

  function FilesAfterAll(es: seq<Evidence>, steps: seq<Step>): (r: seq<Evidence>)
    decreases |steps|
  {
    if steps == [] then es else FilesAfterAll(FilesAfter(es, steps[0]), steps[1..])
  }

  lemma FilesAfterKeepsPaths(es: seq<Evidence>, step: Step)
    requires DistinctPaths(es)
    ensures DistinctPaths(FilesAfter(es, step))
  {
  }

  /** Only the last step of a plan finishes. */
  lemma FinishIsLast(state: State, es: seq<Evidence>)
    requires PlanSteps(state, es).Some?
    ensures var steps := PlanSteps(state, es).value;
            && |steps| > 0
            && (forall i :: 0 <= i < |steps| - 1 ==> steps[i].kind != FinishRollback)
            && steps[|steps| - 1] == Step(FinishRollback, None)
  {
    NoFinishInFiles(state, es);
  }

  lemma {:induction false} NoFinishInFiles(state: State, es: seq<Evidence>)
    requires PlanFiles(state, es).Some?
    ensures forall s <- PlanFiles(state, es).value :: s.kind != FinishRollback && s.kind != EnterRollback
  {
    if es != [] { NoFinishInFiles(state, es[1..]); }
  }

  /** A rollback is its own continuation: after any `k` of its steps, inspecting and planning again
      gives exactly the steps that were still to come. */
  lemma {:induction false} ReplanAfterPrefix(state: State, es: seq<Evidence>, k: nat)
    requires DistinctPaths(es) && PlanSteps(state, es).Some? && k < |PlanSteps(state, es).value|
    ensures var steps := PlanSteps(state, es).value;
            PlanSteps(StateAfterAll(state, steps[..k]), FilesAfterAll(es, steps[..k])) == Some(steps[k..])
    decreases k
  {
    var steps := PlanSteps(state, es).value;
    if k == 0 {
      assert steps[..0] == [] && steps[0..] == steps;
    } else {
      FinishIsLast(state, es);
      Continues(state, es);
      FilesAfterKeepsPaths(es, steps[0]);
      var state', es' := StateAfter(state, steps[0]), FilesAfter(es, steps[0]);
      ReplanAfterPrefix(state', es', k - 1);
      assert steps[..k][1..] == steps[1..][..k - 1];
      assert steps[1..][k - 1..] == steps[k..];
    }
  }

  /** What a step says about its file: each kind fits one situation only, and a preimage is put back exactly for a
      modified file, while an added one is removed. */
  predicate Fits(step: Step) {
    && step.expected.Some?
    && var e := step.expected.value;
    && (step.kind == RestorePreimage || step.kind == RemoveAddedFile ==>
          && e.destination == After && e.temporary == Absent && (e.progress == Installed || e.progress == Verified)
          && (step.kind == RestorePreimage <==> e.operation == Modify))
    && (step.kind == RemoveExactTemp ==> e.progress == Pending && e.destination == Before && e.temporary == Exact)
    && (step.kind == ReconcileInstalled ==> e.progress == Pending && e.destination == After && e.temporary == Absent)
    && (step.kind == MarkRestored ==>
          (e.progress == Installed || e.progress == Verified) && e.destination == Before && e.temporary == Absent)
  }

  predicate Undoes(step: Step, e: Evidence) {
    && step.expected.Some? && step.expected.value.path == e.path
    && step.kind == if e.operation == Add then RemoveAddedFile else RestorePreimage
  }

  /** All steps of a plan fit, and every file that has its after image is restored or removed by it, as its operation
      asks. */
  lemma {:induction false} StepsFit(state: State, es: seq<Evidence>)
    requires PlanFiles(state, es).Some?
    ensures forall step <- PlanFiles(state, es).value :: Fits(step)
    ensures forall e <- es :: e.destination == After ==>
              exists step <- PlanFiles(state, es).value :: Undoes(step, e)
  {
    if es != [] {
      StepsFit(state, es[1..]);
      var first, rest := PlanFile(state, es[0]).value, PlanFiles(state, es[1..]).value;
      assert forall step <- first :: Fits(step);
      forall e | e in es && e.destination == After
        ensures exists step <- first + rest :: Undoes(step, e)
      {
        if e == es[0] {
          var step := first[|first| - 2];
          assert step in first + rest && Undoes(step, e);
        } else {
          assert e in es[1..];
        }
      }
    }
  }

  /** When only the finish is left, every destination is back and no temporary remains. */
  lemma {:induction false} FinishReady(es: seq<Evidence>)
    requires PlanFiles(RollingBack, es) == Some([])
    ensures forall e <- es :: e.destination == Before && e.temporary == Absent
                              && (e.progress == Pending || e.progress == Restored)
  {
    if es != [] { FinishReady(es[1..]); }
  }

  /** The evidence from which an active transaction can be planned automatically. */
  predicate Plannable(state: State, e: Evidence) {
    || (e.progress == Pending && e.destination == Before && e.temporary != Unexpected)
    || ((e.progress == Pending || e.progress == Installed || e.progress == Verified)
        && e.destination == After && e.temporary == Absent)
    || (state == RollingBack && e.progress != Pending && e.destination == Before && e.temporary == Absent)
  }

  /** The planner answers exactly on the plannable evidence. */
  lemma {:induction false} PlanExists(state: State, es: seq<Evidence>)
    ensures PlanFiles(state, es).Some? <==> forall e <- es :: Plannable(state, e)
  {
    if es != [] {
      PlanExists(state, es[1..]);
      assert es == [es[0]] + es[1..];
      assert PlanFile(state, es[0]).Some? <==> Plannable(state, es[0]);
    }
  }

  /** When all other files can be planned, everything hangs on one. */
  lemma PlanHangsOn(state: State, es: seq<Evidence>, k: nat)
    requires k < |es| && forall i :: 0 <= i < |es| && i != k ==> Plannable(state, es[i])
    ensures PlanFiles(state, es).Some? <==> Plannable(state, es[k])
  {
    PlanExists(state, es);
    assert es[k] in es;
    forall e | e in es ensures Plannable(state, e) || e == es[k] {
      var i :| 0 <= i < |es| && es[i] == e;
    }
  }
}
