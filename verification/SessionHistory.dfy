/** The step history of a controller session, and what it says about the workspace. */
module SessionHistory {
  import opened Basics
  import opened FileSystem

  /** How text becomes bytes and back, and how bytes become an identifier. */
  datatype Codec = Codec(encode: string -> Bytes, decode: Bytes -> string, sha256: Bytes -> string)
  {
    /** Decoding undoes encoding, and SHA-256 is taken to be injective. */
    ghost predicate Faithful() {
      && (forall s :: decode(encode(s)) == s)
      && (forall a, b :: sha256(a) == sha256(b) ==> a == b)
    }
  }

  datatype Action =
    | ReadFile(path: string)
    | WriteFile(path: string, content: string)
    | RunTests(argv: seq<string>)

  /** The identifier of an action is a hash of the whole action, so the action stands for it. */
  datatype Result =
    | ReadResult
    | WriteResult(action: Action, path: string, bytes: nat, sha256: string)
    | RunResult(succeeded: bool)

  datatype Decision = ActionTaken | ActionRefused | ActionError | AcceptanceError | DoneRefused | DoneAccepted

  datatype Step = Step(decision: Decision, action: Option<Action>, result: Option<Result>, acceptance: Option<bool>)

  type Workspace = map<string, Bytes>

  predicate IsWrite(s: Step) { s.result.Some? && s.result.value.WriteResult? }

  predicate IsRun(s: Step) { s.result.Some? && s.result.value.RunResult? }

  predicate RunOk(s: Step) { IsRun(s) && s.result.value.succeeded }

  predicate RunFailed(s: Step) { IsRun(s) && !s.result.value.succeeded && s.action.Some? }

  function Last(steps: seq<Step>): Step
    requires steps != []
  {
    steps[|steps| - 1]
  }

  function Front(steps: seq<Step>): seq<Step>
    requires steps != []
  {
    steps[..|steps| - 1]
  }

  /** The number of successful writes. */
  function Writes(steps: seq<Step>): nat
    decreases |steps|
  {
    if steps == [] then 0 else Writes(Front(steps)) + if IsWrite(Last(steps)) then 1 else 0
  }

  lemma WritesOfAppended(steps: seq<Step>, x: Step)
    ensures Writes(steps + [x]) == Writes(steps) + if IsWrite(x) then 1 else 0
  {
    assert Front(steps + [x]) == steps;
  }

  lemma {:induction false} WritesGrow(steps: seq<Step>, i: nat, j: nat)
    requires i <= j <= |steps|
    ensures Writes(steps[..i]) <= Writes(steps[..j])
    decreases j
  {
    if i < j {
      WritesGrow(steps, i, j - 1);
      assert Front(steps[..j]) == steps[..j - 1];
    }
  }

  /** No write between equal counts. */
  lemma {:induction false} NoWriteBetween(steps: seq<Step>, i: nat, k: nat, j: nat)
    requires i <= k < j <= |steps| && Writes(steps[..i]) == Writes(steps[..j])
    ensures !IsWrite(steps[k])
  {
    WritesGrow(steps, i, k);
    WritesGrow(steps, k + 1, j);
    assert Front(steps[..k + 1]) == steps[..k];
  }

  /** The generation - the number of writes before it - of the last successful run. */
  function LastTested(steps: seq<Step>): Option<nat>
    decreases |steps|
  {
    if steps == [] then None else if RunOk(Last(steps)) then Some(Writes(Front(steps))) else LastTested(Front(steps))
  }

  /** The last successful run since the last write. */
  function LastTestedAction(steps: seq<Step>): Option<Action>
    decreases |steps|
  {
    if steps == [] || IsWrite(Last(steps)) then None
    else if RunOk(Last(steps)) then Last(steps).action else LastTestedAction(Front(steps))
  }

  /** The generation of the last successful run on which the acceptance test passed. */
  function LastAccepted(steps: seq<Step>): Option<nat>
    decreases |steps|
  {
    if steps == [] then None
    else if RunOk(Last(steps)) && Last(steps).acceptance == Some(true) then Some(Writes(Front(steps)))
    else LastAccepted(Front(steps))
  }

  lemma GenerationsAppended(steps: seq<Step>, x: Step)
    ensures LastTested(steps + [x]) == if RunOk(x) then Some(Writes(steps)) else LastTested(steps)
    ensures LastTestedAction(steps + [x]) ==
              if IsWrite(x) then None else if RunOk(x) then x.action else LastTestedAction(steps)
    ensures LastAccepted(steps + [x]) ==
              if RunOk(x) && x.acceptance == Some(true) then Some(Writes(steps)) else LastAccepted(steps)
  {
    assert Front(steps + [x]) == steps;
  }

  /** The current generation is tested, and accepted. */
  predicate Tested(steps: seq<Step>) { LastTested(steps) == Some(Writes(steps)) }

  predicate Accepted(steps: seq<Step>) { LastAccepted(steps) == Some(Writes(steps)) }

  /** The last acceptance result since the last write. */
  function LastEvidence(steps: seq<Step>): Option<bool>
    decreases |steps|
  {
    if steps == [] || IsWrite(Last(steps)) then None
    else if Last(steps).acceptance.Some? then Last(steps).acceptance else LastEvidence(Front(steps))
  }

  /** What was last written to the path. */
  function LastContent(steps: seq<Step>, path: string): Option<string>
    decreases |steps|
  {
    if steps == [] then None
    else
      var x := Last(steps);
      if IsWrite(x) && x.action.Some? && x.action.value.WriteFile? && x.action.value.path == path
      then Some(x.action.value.content) else LastContent(Front(steps), path)
  }

  lemma LastsAppended(steps: seq<Step>, x: Step)
    ensures LastEvidence(steps + [x]) ==
              if IsWrite(x) then None else if x.acceptance.Some? then x.acceptance else LastEvidence(steps)
    ensures forall path :: LastContent(steps + [x], path) ==
              if IsWrite(x) && x.action.Some? && x.action.value.WriteFile? && x.action.value.path == path
              then Some(x.action.value.content) else LastContent(steps, path)
  {
    assert Front(steps + [x]) == steps;
  }

  /** Generations never overtake one another. */
  lemma {:induction false} GenerationsOrdered(steps: seq<Step>)
    ensures LastTested(steps).Some? ==> LastTested(steps).value <= Writes(steps)
    ensures LastAccepted(steps).Some? ==>
      LastTested(steps).Some? && LastAccepted(steps).value <= LastTested(steps).value
    decreases |steps|
  {
    if steps != [] { GenerationsOrdered(Front(steps)); }
  }

  /** A successful run, with nothing written after it. */
  ghost predicate TestedLast(steps: seq<Step>, i: nat) {
    i < |steps| && RunOk(steps[i]) && forall k :: i < k < |steps| ==> !IsWrite(steps[k])
  }

  /** The current generation is tested exactly if some successful run has nothing written after it. */
  lemma {:induction false} TestedMeans(steps: seq<Step>)
    ensures LastTested(steps) == Some(Writes(steps)) <==> exists i: nat :: TestedLast(steps, i)
    decreases |steps|
  {
    if steps != [] {
      var front, last := Front(steps), Last(steps);
      GenerationsOrdered(front);
      TestedMeans(front);
      if LastTested(steps) == Some(Writes(steps)) {
        if RunOk(last) {
          assert TestedLast(steps, |steps| - 1);
        } else {
          var i: nat :| TestedLast(front, i);
          assert TestedLast(steps, i);
        }
      }
      if i: nat :| TestedLast(steps, i) && !RunOk(last) { assert TestedLast(front, i); }
    }
  }

  /** And it is accepted exactly if the acceptance test passed on some such run. */
  lemma {:induction false} AcceptedMeans(steps: seq<Step>)
    ensures LastAccepted(steps) == Some(Writes(steps))
       <==> exists i: nat :: TestedLast(steps, i) && steps[i].acceptance == Some(true)
    decreases |steps|
  {
    if steps != [] {
      var front, last := Front(steps), Last(steps);
      GenerationsOrdered(front);
      AcceptedMeans(front);
      var here := RunOk(last) && last.acceptance == Some(true);
      if LastAccepted(steps) == Some(Writes(steps)) {
        if here {
          assert TestedLast(steps, |steps| - 1);
        } else {
          var i: nat :| TestedLast(front, i) && front[i].acceptance == Some(true);
          assert TestedLast(steps, i) && steps[i].acceptance == Some(true);
        }
      }
      if i: nat :| TestedLast(steps, i) && steps[i].acceptance == Some(true) && !here {
        assert TestedLast(front, i) && front[i].acceptance == Some(true);
      }
    }
  }

  /** The workspace of the naive loop, which performs every write the model asks for, no-op or not. */
  function Replayed(codec: Codec, seed: Workspace, steps: seq<Step>): Workspace
    decreases |steps|
  {
    if steps == [] then seed
    else
      var w, x := Replayed(codec, seed, Front(steps)), Last(steps);
      if (x.decision == ActionTaken || x.decision == ActionRefused) && x.action.Some? && x.action.value.WriteFile?
      then w[x.action.value.path := codec.encode(x.action.value.content)] else w
  }

  lemma ReplayedAppended(codec: Codec, seed: Workspace, steps: seq<Step>, x: Step)
    ensures Replayed(codec, seed, steps + [x]) ==
              if && (x.decision == ActionTaken || x.decision == ActionRefused)
                 && x.action.Some? && x.action.value.WriteFile?
              then Replayed(codec, seed, steps)[x.action.value.path := codec.encode(x.action.value.content)]
              else Replayed(codec, seed, steps)
  {
    assert Front(steps + [x]) == steps;
  }

  /** Every acceptance result in the history is that of the workspace it was given for. */
  ghost predicate AcceptancesTrue(codec: Codec, accepts: Workspace -> bool, seed: Workspace, steps: seq<Step>)
    decreases |steps|
  {
    steps == []
    || (&& AcceptancesTrue(codec, accepts, seed, Front(steps))
        && (Last(steps).acceptance.Some? ==>
              Last(steps).acceptance.value == accepts(Replayed(codec, seed, Front(steps)))))
  }

  lemma AcceptancesAppended(codec: Codec, accepts: Workspace -> bool, seed: Workspace, steps: seq<Step>, x: Step)
    requires AcceptancesTrue(codec, accepts, seed, steps)
    requires x.acceptance.Some? ==> x.acceptance.value == accepts(Replayed(codec, seed, steps))
    ensures AcceptancesTrue(codec, accepts, seed, steps + [x])
  {
    assert Front(steps + [x]) == steps;
  }

  /** In particular, for each of them. */
  lemma {:induction false} AcceptanceAt(codec: Codec, accepts: Workspace -> bool, seed: Workspace, steps: seq<Step>,
                                        i: nat)
    requires AcceptancesTrue(codec, accepts, seed, steps) && i < |steps| && steps[i].acceptance.Some?
    ensures steps[i].acceptance.value == accepts(Replayed(codec, seed, steps[..i]))
    decreases |steps|
  {
    if i < |steps| - 1 {
      AcceptanceAt(codec, accepts, seed, Front(steps), i);
      assert Front(steps)[..i] == steps[..i];
    }
  }

  /** The runs that have failed since the last write. */
  function FailedRuns(steps: seq<Step>): set<Action>
    decreases |steps|
  {
    if steps == [] || IsWrite(Last(steps)) then {}
    else FailedRuns(Front(steps)) + if RunFailed(Last(steps)) then {Last(steps).action.value} else {}
  }

  lemma FailedRunsAppended(steps: seq<Step>, x: Step)
    ensures FailedRuns(steps + [x]) ==
              if IsWrite(x) then {} else FailedRuns(steps) + if RunFailed(x) then {x.action.value} else {}
  {
    assert Front(steps + [x]) == steps;
  }

  /** A run that failed is not made again before something is written. */
  predicate NoFailedRetry(steps: seq<Step>)
    decreases |steps|
  {
    steps == []
    || (&& NoFailedRetry(Front(steps))
        && (IsRun(Last(steps)) && Last(steps).action.Some? ==> Last(steps).action.value !in FailedRuns(Front(steps))))
  }

  lemma NoFailedRetryAppended(steps: seq<Step>, x: Step)
    requires NoFailedRetry(steps)
    requires IsRun(x) && x.action.Some? ==> x.action.value !in FailedRuns(steps)
    ensures NoFailedRetry(steps + [x])
  {
    assert Front(steps + [x]) == steps;
  }

  lemma {:induction false} FailedStays(steps: seq<Step>, i: nat)
    requires i < |steps| && RunFailed(steps[i]) && Writes(steps[..i]) == Writes(steps)
    ensures steps[i].action.value in FailedRuns(steps)
    decreases |steps|
  {
    assert steps[..|steps|] == steps;
    NoWriteBetween(steps, i, |steps| - 1, |steps|);
    if i < |steps| - 1 {
      assert Front(steps)[..i] == steps[..i];
      WritesGrow(steps, i, |steps| - 1);
      FailedStays(Front(steps), i);
    }
  }

  /** Between a failed run and another execution of the same run there is a write. */
  lemma {:induction false} RetryNeedsWrite(steps: seq<Step>, i: nat, j: nat)
    requires NoFailedRetry(steps) && i < j < |steps|
    requires RunFailed(steps[i]) && IsRun(steps[j]) && steps[j].action == steps[i].action
    ensures Writes(steps[..i]) < Writes(steps[..j])
    decreases |steps|
  {
    WritesGrow(steps, i, j);
    if j < |steps| - 1 {
      assert Front(steps)[..i] == steps[..i] && Front(steps)[..j] == steps[..j];
      RetryNeedsWrite(Front(steps), i, j);
    } else if Writes(steps[..i]) == Writes(steps[..j]) {
      assert Front(steps)[..i] == steps[..i];
      FailedStays(Front(steps), i);
    }
  }

  /** What was tested since the last write was tested in the current generation. */
  lemma {:induction false} TestedActionIsCurrent(steps: seq<Step>)
    requires LastTestedAction(steps).Some?
    ensures LastTested(steps) == Some(Writes(steps))
    decreases |steps|
  {
    if !RunOk(Last(steps)) { TestedActionIsCurrent(Front(steps)); }
  }

  /** The run that was the last to succeed is not made again before something is written. */
  predicate NoRedundantRun(steps: seq<Step>)
    decreases |steps|
  {
    steps == []
    || (&& NoRedundantRun(Front(steps))
        && (IsRun(Last(steps)) && Last(steps).action.Some? ==> Last(steps).action != LastTestedAction(Front(steps))))
  }

  lemma NoRedundantRunAppended(steps: seq<Step>, x: Step)
    requires NoRedundantRun(steps)
    requires IsRun(x) && x.action.Some? ==> x.action != LastTestedAction(steps)
    ensures NoRedundantRun(steps + [x])
  {
    assert Front(steps + [x]) == steps;
  }

  /** A step after which a run that succeeded is no longer redundant. */
  predicate Unsettles(steps: seq<Step>, k: nat, a: Option<Action>)
    requires k < |steps|
  {
    IsWrite(steps[k]) || (RunOk(steps[k]) && steps[k].action != a)
  }

  lemma {:induction false} TestedStays(steps: seq<Step>, i: nat)
    requires i < |steps| && RunOk(steps[i])
    requires forall k :: i < k < |steps| ==> !Unsettles(steps, k, steps[i].action)
    ensures LastTestedAction(steps) == steps[i].action
    decreases |steps|
  {
    if i < |steps| - 1 {
      var front := Front(steps);
      assert !Unsettles(steps, |steps| - 1, steps[i].action);
      forall k | i < k < |front| ensures !Unsettles(front, k, front[i].action) {
        assert !Unsettles(steps, k, steps[i].action);
      }
      TestedStays(front, i);
    }
  }

  /** Between a successful run and another execution of it there is a write or another successful run. */
  lemma {:induction false} RerunNeedsChange(steps: seq<Step>, i: nat, j: nat)
    requires NoRedundantRun(steps) && i < j < |steps|
    requires RunOk(steps[i]) && steps[i].action.Some? && IsRun(steps[j]) && steps[j].action == steps[i].action
    ensures exists k :: i < k < j && Unsettles(steps, k, steps[i].action)
    decreases |steps|
  {
    var front := Front(steps);
    if j < |steps| - 1 {
      RerunNeedsChange(front, i, j);
      var k :| i < k < j && Unsettles(front, k, front[i].action);
      assert Unsettles(steps, k, steps[i].action);
    } else if forall k :: i < k < j ==> !Unsettles(steps, k, steps[i].action) {
      forall k | i < k < |front| ensures !Unsettles(front, k, front[i].action) {
        assert !Unsettles(steps, k, steps[i].action);
      }
      TestedStays(front, i);
      assert false;
    }
  }
}
