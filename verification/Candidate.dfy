/** Building a promotion candidate from the record of a finished session. */
module Candidate {
  import opened Basics
  import opened FileSystem
  import opened SessionHistory

  const READ_LIMIT_BYTES: nat := 256 * 1024

  datatype Status = Finished | Failed | IterationLimit

  /** What run_auto_lab returns. */
  datatype Report = Report(status: Status, workspaceGeneration: nat, testedGeneration: Option<nat>,
                           acceptanceGeneration: Option<nat>, steps: seq<Step>)

  /** The result of a write step fits its action. */
  predicate Attached(codec: Codec, x: Step) {
    && IsWrite(x) && x.decision == ActionTaken
    && x.action.Some? && x.action.value.WriteFile?
    && x.result.value.action == x.action.value && x.result.value.path == x.action.value.path
    && x.result.value.bytes == |codec.encode(x.action.value.content)|
    && x.result.value.sha256 == codec.sha256(codec.encode(x.action.value.content))
  }

  /** For every path the last write to it; None where some write step does not fit its action. */
  function Latest(codec: Codec, steps: seq<Step>): Option<map<string, Result>>
    decreases |steps|
  {
    if steps == [] then Some(map[])
    else
      var before, x := Latest(codec, Front(steps)), Last(steps);
      if before.None? || !IsWrite(x) then before
      else if !Attached(codec, x) then None
      else Some(before.value[x.result.value.path := x.result.value])
  }

  lemma LatestAppended(codec: Codec, steps: seq<Step>, x: Step)
    requires Latest(codec, steps).Some?
    ensures Latest(codec, steps + [x]) ==
              if !IsWrite(x) then Latest(codec, steps)
              else if !Attached(codec, x) then None
              else Some(Latest(codec, steps).value[x.result.value.path := x.result.value])
  {
    assert Front(steps + [x]) == steps;
  }

  /** Once a write step does not fit, nothing later mends it. */
  lemma {:induction false} LatestStaysNone(codec: Codec, steps: seq<Step>, k: nat)
    requires k <= |steps| && Latest(codec, steps[..k]).None?
    ensures Latest(codec, steps).None?
    decreases |steps|
  {
    if k < |steps| {
      assert Front(steps)[..k] == steps[..k];
      LatestStaysNone(codec, Front(steps), k);
    } else {
      assert steps[..k] == steps;
    }
  }

  /** _latest_successful_writes: one pass, front to back. */
  method LatestSuccessfulWrites(codec: Codec, steps: seq<Step>) returns (r: Option<map<string, Result>>)
    ensures r == Latest(codec, steps)
  {
    var latest: map<string, Result> := map[];
    for k := 0 to |steps|
      invariant Latest(codec, steps[..k]) == Some(latest)
    {
      var x := steps[k];
      assert steps[..k + 1] == steps[..k] + [x];
      LatestAppended(codec, steps[..k], x);
      if IsWrite(x) {
        if !Attached(codec, x) {
          LatestStaysNone(codec, steps, k + 1);
          return None;
        }
        latest := latest[x.result.value.path := x.result.value];
      }
    }
    assert steps[..|steps|] == steps;
    r := Some(latest);
  }

  datatype CandidateFile = CandidateFile(path: string, bytes: nat, sha256: string, content: string, action: Action)

  datatype PromotionCandidate = PromotionCandidate(workspaceGeneration: nat, testedGeneration: nat,
                                                   acceptanceGeneration: Option<nat>, files: map<string, CandidateFile>)

  /** The file under `path` can be read back as `write` left it. */
  predicate ReadsBack(codec: Codec, workspace: Workspace, path: string, write: Result)
    requires write.WriteResult?
  {
    && path in workspace && |workspace[path]| <= READ_LIMIT_BYTES
    && |workspace[path]| == write.bytes && codec.sha256(workspace[path]) == write.sha256
  }

  /** A session from which a candidate can be built: complete, tested, with current acceptance if any, with
      something to promote, and with every file as its last write left it. */
  ghost predicate Buildable(codec: Codec, report: Report, workspace: Workspace) {
    && report.status == Finished && report.testedGeneration == Some(report.workspaceGeneration)
    && (report.acceptanceGeneration.Some? ==> report.acceptanceGeneration.value == report.workspaceGeneration)
    && Latest(codec, report.steps).Some? && Latest(codec, report.steps).value != map[]
    && forall p <- Latest(codec, report.steps).value ::
         var write := Latest(codec, report.steps).value[p];
         write.WriteResult? && ReadsBack(codec, workspace, p, write)
  }

  lemma {:induction false} LatestAreWrites(codec: Codec, steps: seq<Step>)
    requires Latest(codec, steps).Some?
    ensures forall p <- Latest(codec, steps).value :: Latest(codec, steps).value[p].WriteResult?
    decreases |steps|
  {
    if steps != [] { LatestAreWrites(codec, Front(steps)); }
  }

  /** There is something to promote exactly if something was written. */
  lemma {:induction false} LatestEmpty(codec: Codec, steps: seq<Step>)
    requires Latest(codec, steps).Some?
    ensures Latest(codec, steps).value == map[] <==> Writes(steps) == 0
    decreases |steps|
  {
    if steps != [] {
      LatestEmpty(codec, Front(steps));
      if IsWrite(Last(steps)) { assert Last(steps).result.value.path in Latest(codec, steps).value; }
    }
  }

  /** The last write of a path is what its own action asked for, and every write step was an action carried out. */
  lemma {:induction false} LatestMeans(codec: Codec, steps: seq<Step>)
    requires Latest(codec, steps).Some?
    ensures forall p <- Latest(codec, steps).value ::
              var write := Latest(codec, steps).value[p];
              && LastContent(steps, p).Some? && write.WriteResult?
              && write.action == WriteFile(p, LastContent(steps, p).value)
              && write.bytes == |codec.encode(LastContent(steps, p).value)|
              && write.sha256 == codec.sha256(codec.encode(LastContent(steps, p).value))
    ensures forall x <- steps :: IsWrite(x) ==> x.decision == ActionTaken
    decreases |steps|
  {
    if steps != [] {
      LatestMeans(codec, Front(steps));
      assert steps == Front(steps) + [Last(steps)];
    }
  }

  /** A candidate can be built only of the generation that was tested, and accepted if any was; and only if every file
      it takes holds what was last written to it, and is not too large. */
  lemma BuildableMeans(codec: Codec, report: Report, workspace: Workspace)
    requires Buildable(codec, report, workspace) && codec.Faithful()
    ensures report.status == Finished && report.testedGeneration == Some(report.workspaceGeneration)
    ensures report.acceptanceGeneration == None || report.acceptanceGeneration == report.testedGeneration
    ensures forall p <- Latest(codec, report.steps).value ::
              && p in workspace && |workspace[p]| <= 262_144 && LastContent(report.steps, p).Some?
              && workspace[p] == codec.encode(LastContent(report.steps, p).value)
              && codec.decode(workspace[p]) == LastContent(report.steps, p).value
  {
    LatestMeans(codec, report.steps);
  }

  /** build_lab_promotion_candidate. */
  method Build(codec: Codec, report: Report, workspace: Workspace) returns (r: Option<PromotionCandidate>)
    ensures r.Some? <==> Buildable(codec, report, workspace)
    ensures r.Some? ==>
      && r.value.testedGeneration == r.value.workspaceGeneration == report.workspaceGeneration
      && r.value.acceptanceGeneration == report.acceptanceGeneration
      && r.value.files.Keys == Latest(codec, report.steps).value.Keys
      && forall p <- r.value.files ::
           var write := Latest(codec, report.steps).value[p];
           && write.WriteResult? && p in workspace
           && r.value.files[p] == CandidateFile(p, write.bytes, write.sha256, codec.decode(workspace[p]), write.action)
  {
    if report.status != Finished || report.testedGeneration != Some(report.workspaceGeneration) { return None; }
    if report.acceptanceGeneration.Some? && report.acceptanceGeneration.value != report.workspaceGeneration {
      return None;
    }
    var latest := LatestSuccessfulWrites(codec, report.steps);
    if latest.None? || latest.value == map[] { return None; }
    LatestAreWrites(codec, report.steps);
    var rest := latest.value.Keys;
    var files: map<string, CandidateFile> := map[];
    while rest != {}
      invariant rest <= latest.value.Keys && files.Keys == latest.value.Keys - rest
      invariant forall p <- files ::
        && ReadsBack(codec, workspace, p, latest.value[p])
        && files[p] == CandidateFile(p, latest.value[p].bytes, latest.value[p].sha256, codec.decode(workspace[p]),
                                     latest.value[p].action)
      decreases rest
    {
      var path :| path in rest;
      var write := latest.value[path];
      if !ReadsBack(codec, workspace, path, write) { return None; }
      var raw := workspace[path];
      files := files[path := CandidateFile(path, |raw|, codec.sha256(raw), codec.decode(raw), write.action)];
      rest := rest - {path};
    }
    r := Some(PromotionCandidate(report.workspaceGeneration, report.testedGeneration.value,
                                 report.acceptanceGeneration, files));
  }
}
