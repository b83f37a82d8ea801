/** The controller loop as its rules state it: every answer of the model is judged by looking at the whole history and
    at the workspace, with nothing remembered besides. */
module ReferenceLoop {
  import opened Basics
  import opened FileSystem
  import opened SessionHistory
  import opened Candidate

  const MAX_MAX_ITERATIONS: nat := 20
  const MAX_CONTENT_BYTES: nat := 256 * 1024
  const RESERVED_ACCEPTANCE_PATH := "_hands_free_acceptance.py"

  /** What the model answers in one iteration. */
  datatype Turn = NoAnswer | Complete | NoAction | Act(action: Action)

  /** What carrying out an action comes to: the executor's result, a refusal, or an error after the effect. */
  datatype Reply = Fine(ok: bool) | Refuse | BreakLate

  /** Everything outside the controller, by iteration. The workspace is mounted read-only in a RUN, so a run changes
      nothing; `breaks` says that an acceptance run could not be carried out. */
  datatype World = World(turn: nat -> Turn, reply: nat -> Reply, breaks: nat -> bool)

  /** What does not change in a session; `seed` is the workspace with the acceptance test in place. */
  datatype Setting = Setting(codec: Codec, accepts: Workspace -> bool, test: Option<Bytes>, seed: Workspace)
  {
    ghost predicate Seeded() {
      test.Some? ==> RESERVED_ACCEPTANCE_PATH in seed && seed[RESERVED_ACCEPTANCE_PATH] == test.value
    }

    /** The history allows completion. */
    predicate Complete(steps: seq<Step>) { Tested(steps) && (test.Some? ==> Accepted(steps)) }
  }

  /** What one answer comes to: a step, if one is recorded, the end of the session, if it ends, and the workspace. */
  datatype Outcome = Outcome(step: Option<Step>, ended: Option<Status>, workspace: Workspace)

  function Goes(x: Step, w: Workspace): Outcome { Outcome(Some(x), None, w) }

  function Breaks(decision: Decision, a: Action, w: Workspace): Outcome {
    Outcome(Some(Step(decision, Some(a), None, None)), Some(Failed), w)
  }

  function WriteStep(codec: Codec, path: string, content: string): Step {
    var a, raw := WriteFile(path, content), codec.encode(content);
    Step(ActionTaken, Some(a), Some(WriteResult(a, path, |raw|, codec.sha256(raw))), None)
  }

  /** A write of what the path holds already is refused; while acceptance is missing, the refusal tells the verdict on
      the workspace. Any other write is carried out, within the limits. */
  function OnWrite(c: Setting, world: World, i: nat, steps: seq<Step>, w: Workspace, a: Action): Outcome
    requires a.WriteFile?
  {
    var raw := c.codec.encode(a.content);
    if LastContent(steps, a.path) == Some(a.content) then
      if c.test.None? || Accepted(steps) then Goes(Step(ActionRefused, Some(a), None, None), w)
      else if LastEvidence(steps).None? && world.breaks(i) then Breaks(AcceptanceError, a, w)
      else Goes(Step(ActionRefused, Some(a), None, Some(c.accepts(w))), w)
    else if world.reply(i).Refuse? || a.path == RESERVED_ACCEPTANCE_PATH || |raw| > MAX_CONTENT_BYTES
    then Breaks(ActionError, a, w)
    else if world.reply(i).BreakLate? then Breaks(ActionError, a, w[a.path := raw])
    else Goes(WriteStep(c.codec, a.path, a.content), w[a.path := raw])
  }

  /** A run whose outcome is known is refused. Any other is carried out; where it succeeds and acceptance is missing,
      the acceptance test follows; and where tested and accepted work is left, the session is over. */
  function OnRun(c: Setting, world: World, i: nat, steps: seq<Step>, w: Workspace, a: Action): Outcome {
    if Tested(steps) && LastTestedAction(steps) == Some(a) then
      Goes(Step(ActionRefused, Some(a), None, if LastEvidence(steps).Some? then Some(c.accepts(w)) else None), w)
    else if a in FailedRuns(steps) then Goes(Step(ActionRefused, Some(a), None, None), w)
    else if !world.reply(i).Fine? then Breaks(ActionError, a, w)
    else
      var ok := world.reply(i).ok;
      var judged := ok && c.test.Some? && !Accepted(steps);
      if judged && world.breaks(i)
      then Outcome(Some(Step(AcceptanceError, Some(a), Some(RunResult(ok)), None)), Some(Failed), w)
      else
        var x := Step(ActionTaken, Some(a), Some(RunResult(ok)), if judged then Some(c.accepts(w)) else None);
        Outcome(Some(x), if c.test.Some? && c.Complete(steps + [x]) then Some(Finished) else None, w)
  }

  /** Iteration `i`, over a history and a workspace. */
  function Answered(c: Setting, world: World, i: nat, steps: seq<Step>, w: Workspace): Outcome {
    match world.turn(i)
    case NoAnswer => Outcome(None, Some(Failed), w)
    case NoAction => Outcome(None, Some(Failed), w)
    case Complete =>
      if c.Complete(steps) then Outcome(Some(Step(DoneAccepted, None, None, None)), Some(Finished), w)
      else Goes(Step(DoneRefused, None, None, None), w)
    case Act(a) =>
      match a
      case ReadFile(_) =>
        if world.reply(i).Fine? then Goes(Step(ActionTaken, Some(a), Some(ReadResult), None), w)
        else Breaks(ActionError, a, w)
      case WriteFile(_, _) => OnWrite(c, world, i, steps, w, a)
      case RunTests(_) => OnRun(c, world, i, steps, w, a)
  }

  /** How a session goes from iteration `i` on. */
  datatype Course = Course(status: Status, steps: seq<Step>, workspace: Workspace)

  function CourseFrom(c: Setting, world: World, i: nat, max: nat, steps: seq<Step>, w: Workspace): Course
    decreases max + 1 - i
  {
    if i > max then Course(IterationLimit, steps, w)
    else
      var out := Answered(c, world, i, steps, w);
      var steps' := if out.step.Some? then steps + [out.step.value] else steps;
      if out.ended.Some? then Course(out.ended.value, steps', out.workspace)
      else CourseFrom(c, world, i + 1, max, steps', out.workspace)
  }

  lemma CourseStep(c: Setting, world: World, i: nat, max: nat, steps: seq<Step>, w: Workspace)
    ensures var out := Answered(c, world, i, steps, w);
            var steps' := steps + if out.step.Some? then [out.step.value] else [];
            CourseFrom(c, world, i, max, steps, w) ==
              if i > max then Course(IterationLimit, steps, w)
              else if out.ended.Some? then Course(out.ended.value, steps', out.workspace)
              else CourseFrom(c, world, i + 1, max, steps', out.workspace)
  {
    assert steps + [] == steps;
  }

  // ---- when a session is done ----------------------------------------------------------------

  /** Some run succeeded with nothing written after it, and, where there is an acceptance test, on some such run it
      passed. */
  ghost predicate Proven(c: Setting, steps: seq<Step>) {
    && (exists j: nat :: TestedLast(steps, j))
    && (c.test.Some? ==> exists j: nat :: TestedLast(steps, j) && steps[j].acceptance == Some(true))
  }

  lemma CompleteIsProven(c: Setting, steps: seq<Step>)
    ensures c.Complete(steps) <==> Proven(c, steps)
  {
    TestedMeans(steps);
    AcceptedMeans(steps);
  }

  /** Turn `k` completes the session: the model says so, with a history that proves it; or the turn was a run that was
      carried out, there is an acceptance test, and the history with this run proves it. */
  ghost predicate Completes(c: Setting, world: World, steps: seq<Step>, k: nat)
    requires 0 < k <= |steps|
  {
    || (world.turn(k).Complete? && Proven(c, steps[..k - 1]))
    || (&& world.turn(k).Act? && world.turn(k).action.RunTests? && steps[k - 1].decision == ActionTaken
        && c.test.Some? && Proven(c, steps[..k]))
  }

  predicate IsError(x: Step) { x.decision == ActionError || x.decision == AcceptanceError }

  /** A session is done exactly if one of its turns completes it, and then that turn is its last. It has failed exactly
      if its last step is an error, or the model gave no answer or no action before the limit was reached and before any
      turn completed it. Otherwise it has made every turn there is. */
  ghost predicate Lawful(c: Setting, world: World, max: nat, status: Status, steps: seq<Step>) {
    && |steps| <= max
    && (status == Finished <==> exists k :: 0 < k <= |steps| && Completes(c, world, steps, k))
    && (forall k :: 0 < k <= |steps| && Completes(c, world, steps, k) ==> k == |steps|)
    && (forall k :: 0 <= k < |steps| && IsError(steps[k]) ==> k == |steps| - 1)
    && (status == Failed <==>
          || (steps != [] && IsError(Last(steps)))
          || (status != Finished && |steps| < max
              && (world.turn(|steps| + 1).NoAnswer? || world.turn(|steps| + 1).NoAction?)))
    && (status == IterationLimit ==> |steps| == max)
  }

  /** So far no turn has completed the session and no step is an error. */
  ghost predicate Unfinished(c: Setting, world: World, steps: seq<Step>) {
    && (forall k :: 0 < k <= |steps| ==> !Completes(c, world, steps, k))
    && forall k :: 0 <= k < |steps| ==> !IsError(steps[k])
  }

  /** What a session comes to, in terms of its answers and its history alone. */
  lemma {:induction false} CourseIsLawful(c: Setting, world: World, i: nat, max: nat, steps: seq<Step>, w: Workspace)
    requires |steps| + 1 == i <= max + 1 && Unfinished(c, world, steps)
    ensures var r := CourseFrom(c, world, i, max, steps, w);
            steps <= r.steps && Lawful(c, world, max, r.status, r.steps)
    decreases max + 1 - i
  {
    if i <= max {
      SilenceFails(c, world, i, steps, w);
      hide Answered, Completes, Lawful, Unfinished;
      var out := Answered(c, world, i, steps, w);
      if out.step.None? {
        SilenceIsLawful(c, world, max, steps);
      } else {
        var steps' := steps + [out.step.value];
        AnswerIsLawful(c, world, i, steps, w);
        OneMoreTurn(c, world, max, steps, out.step.value, out.ended);
        if out.ended.None? { CourseIsLawful(c, world, i + 1, max, steps', out.workspace); }
      }
    } else {
      hide Completes;
    }
  }

  lemma SilenceFails(c: Setting, world: World, i: nat, steps: seq<Step>, w: Workspace)
    ensures var out := Answered(c, world, i, steps, w);
            out.step.None? ==> out.ended == Some(Failed) && (world.turn(i).NoAnswer? || world.turn(i).NoAction?)
  {
  }

  lemma SilenceIsLawful(c: Setting, world: World, max: nat, steps: seq<Step>)
    requires Unfinished(c, world, steps) && |steps| < max
    requires world.turn(|steps| + 1).NoAnswer? || world.turn(|steps| + 1).NoAction?
    ensures Lawful(c, world, max, Failed, steps)
  {
    hide Completes;
  }

  lemma OneMoreTurn(c: Setting, world: World, max: nat, steps: seq<Step>, x: Step, ended: Option<Status>)
    requires Unfinished(c, world, steps) && |steps| < max && ended != Some(IterationLimit)
    requires ended == Some(Finished) <==> Completes(c, world, steps + [x], |steps| + 1)
    requires ended == Some(Failed) <==> IsError(x)
    ensures ended.Some? ==> Lawful(c, world, max, ended.value, steps + [x])
    ensures ended.None? ==> Unfinished(c, world, steps + [x])
  {
    EarlierTurns(c, world, steps, x);
    hide Completes;
  }

  /** One more step changes nothing about the turns before it. */
  lemma EarlierTurns(c: Setting, world: World, steps: seq<Step>, x: Step)
    ensures forall k :: 0 < k <= |steps| ==> (Completes(c, world, steps + [x], k) <==> Completes(c, world, steps, k))
  {
    forall k | 0 < k <= |steps| ensures Completes(c, world, steps + [x], k) <==> Completes(c, world, steps, k) {
      assert (steps + [x])[..k] == steps[..k] && (steps + [x])[..k - 1] == steps[..k - 1];
    }
  }

  lemma AnswerIsLawful(c: Setting, world: World, i: nat, steps: seq<Step>, w: Workspace)
    requires |steps| + 1 == i && Answered(c, world, i, steps, w).step.Some?
    ensures var out := Answered(c, world, i, steps, w);
            var steps' := steps + [out.step.value];
            && (out.ended == Some(Finished) <==> Completes(c, world, steps', i))
            && (out.ended == Some(Failed) <==> IsError(out.step.value))
            && out.ended != Some(IterationLimit)
  {
    var out := Answered(c, world, i, steps, w);
    var steps' := steps + [out.step.value];
    assert steps'[..i - 1] == steps && steps'[..i] == steps';
    CompleteIsProven(c, steps);
    CompleteIsProven(c, steps');
  }
}
