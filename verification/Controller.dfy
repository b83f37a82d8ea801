/** The bounded controller loop: a model asks for actions, the controller carries them out or refuses them. */
module Controller {
  import opened Basics
  import opened FileSystem
  import opened SessionHistory
  import opened Candidate
  import opened ReferenceLoop

  /** The controller's bookkeeping. */
  datatype Ledger = Ledger(workspaceGeneration: nat, testedGeneration: Option<nat>, testedAction: Option<Action>,
                           failedRuns: set<Action>, acceptanceGeneration: Option<nat>, evidence: Option<(nat, bool)>,
                           hashes: map<string, string>, contents: map<string, string>, steps: seq<Step>)
  {
    predicate Tested() { testedGeneration == Some(workspaceGeneration) }

    predicate Accepted() { acceptanceGeneration == Some(workspaceGeneration) }

    /** The run succeeded last, or failed, since the last write. */
    predicate Redundant(a: Action) { (Tested() && testedAction == Some(a)) || a in failedRuns }

    /** The write would leave what was last written. */
    predicate Known(codec: Codec, a: Action)
      requires a.WriteFile?
    {
      a.path in hashes && hashes[a.path] == codec.sha256(codec.encode(a.content))
    }

    /** A step that wrote nothing. Its acceptance result, if it has one, is about the workspace as it is. */
    function Noted(x: Step): Ledger {
      this.(steps := steps + [x],
            evidence := if x.acceptance.Some? then Some((workspaceGeneration, x.acceptance.value)) else evidence)
    }

    /** A successful write starts a new generation. */
    function Wrote(codec: Codec, path: string, content: string): Ledger {
      var raw := codec.encode(content);
      this.(workspaceGeneration := workspaceGeneration + 1, failedRuns := {}, testedAction := None, evidence := None,
            hashes := hashes[path := codec.sha256(raw)], contents := contents[path := content],
            steps := steps + [WriteStep(codec, path, content)])
    }

    /** A run that was carried out, with the acceptance result that followed it, if one did. */
    function Ran(a: Action, ok: bool, decision: Decision, acceptance: Option<bool>): Ledger {
      var noted := Noted(Step(decision, Some(a), Some(RunResult(ok)), acceptance));
      if !ok then noted.(failedRuns := failedRuns + {a})
      else noted.(testedGeneration := Some(workspaceGeneration), testedAction := Some(a),
                  acceptanceGeneration :=
                    if acceptance == Some(true) then Some(workspaceGeneration) else acceptanceGeneration)
    }
  }

  /** The step of an action that was not carried out: refused, or ended by a failing acceptance run. */
  predicate IsRefusal(x: Step, a: Action, ended: Option<Status>) {
    && x.action == Some(a) && x.result == None
    && x.decision == if ended == None then ActionRefused else AcceptanceError
  }

  // ---- what the bookkeeping keeps ------------------------------------------------------------

  /** The generations are those of the history. */
  predicate GenerationsSound(c: Setting, l: Ledger) {
    && l.workspaceGeneration == Writes(l.steps)
    && l.testedGeneration == LastTested(l.steps)
    && l.testedAction == LastTestedAction(l.steps)
    && l.acceptanceGeneration == LastAccepted(l.steps)
    && (l.acceptanceGeneration.Some? ==> c.test.Some?)
  }

  /** The known-writes maps agree with the last writes of the history and with the workspace `w`. All else is as it was
      seeded. */
  ghost predicate Knows(c: Setting, w: Workspace, latest: map<string, Result>, hashes: map<string, string>,
                      contents: map<string, string>) {
    && latest.Keys == hashes.Keys == contents.Keys
    && (forall p :: p in hashes ==>
          && latest[p].WriteResult? && p != RESERVED_ACCEPTANCE_PATH
          && latest[p].sha256 == hashes[p] == c.codec.sha256(c.codec.encode(contents[p]))
          && latest[p].bytes == |c.codec.encode(contents[p])| <= MAX_CONTENT_BYTES
          && p in w && w[p] == c.codec.encode(contents[p]))
    && (forall p :: p !in hashes ==> (p in w <==> p in c.seed) && (p in w ==> w[p] == c.seed[p]))
  }

  /** The last writes are those of the maps: the same paths, and for each the digest of the same content. */
  ghost predicate Agrees(codec: Codec, latest: map<string, Result>, hashes: map<string, string>,
                         contents: map<string, string>) {
    && latest.Keys == hashes.Keys == contents.Keys
    && forall p :: p in hashes ==>
         latest[p].WriteResult? && latest[p].sha256 == hashes[p] == codec.sha256(codec.encode(contents[p]))
  }

  /** The contents are those last written. */
  ghost predicate ContentsSound(l: Ledger) {
    forall p :: LastContent(l.steps, p) == if p in l.contents then Some(l.contents[p]) else None
  }

  ghost predicate KnowledgeSound(c: Setting, l: Ledger) {
    && Latest(c.codec, l.steps).Some?
    && Knows(c, Replayed(c.codec, c.seed, l.steps), Latest(c.codec, l.steps).value, l.hashes, l.contents)
  }

  /** Cached acceptance evidence is the last one since the last write, and of the workspace as it is. */
  ghost predicate EvidenceSound(c: Setting, l: Ledger) {
    && (l.evidence.Some? <==> LastEvidence(l.steps).Some?)
    && (l.evidence.Some? ==>
          && c.test.Some?
          && l.evidence.value == (l.workspaceGeneration, c.accepts(Replayed(c.codec, c.seed, l.steps))))
  }

  ghost predicate HistorySound(c: Setting, l: Ledger) {
    && WritesShow(c.codec, c.seed, l.steps)
    && AcceptancesTrue(c.codec, c.accepts, c.seed, l.steps)
    && NoFailedRetry(l.steps) && NoRedundantRun(l.steps)
    && l.failedRuns == FailedRuns(l.steps)
  }

  ghost predicate Sound(c: Setting, l: Ledger) {
    && c.Seeded() && GenerationsSound(c, l) && KnowledgeSound(c, l) && EvidenceSound(c, l) && HistorySound(c, l)
    && ContentsSound(l)
  }

  /** A step that neither wrote nor ran and left the replayed workspace as it was. */
  predicate Idle(c: Setting, l: Ledger, x: Step) {
    && !IsWrite(x) && !IsRun(x)
    && Replayed(c.codec, c.seed, l.steps + [x]) == Replayed(c.codec, c.seed, l.steps)
    && (x.acceptance.Some? ==> c.test.Some? && x.acceptance.value == c.accepts(Replayed(c.codec, c.seed, l.steps)))
  }

  lemma HistoryExtended(c: Setting, l: Ledger, x: Step)
    requires HistorySound(c, l)
    requires !IsWrite(x) ==> Replayed(c.codec, c.seed, l.steps + [x]) == Replayed(c.codec, c.seed, l.steps)
    requires x.acceptance.Some? ==> x.acceptance.value == c.accepts(Replayed(c.codec, c.seed, l.steps))
    requires IsRun(x) && x.action.Some? ==> x.action.value !in l.failedRuns && x.action != LastTestedAction(l.steps)
    ensures WritesShow(c.codec, c.seed, l.steps + [x]) && AcceptancesTrue(c.codec, c.accepts, c.seed, l.steps + [x])
    ensures NoFailedRetry(l.steps + [x]) && NoRedundantRun(l.steps + [x])
  {
    assert Front(l.steps + [x]) == l.steps;
    AcceptancesAppended(c.codec, c.accepts, c.seed, l.steps, x);
    NoFailedRetryAppended(l.steps, x);
    NoRedundantRunAppended(l.steps, x);
  }

  lemma NotedIsSound(c: Setting, l: Ledger, x: Step)
    requires Sound(c, l) && Idle(c, l, x)
    ensures Sound(c, l.Noted(x))
  {
    LastsAppended(l.steps, x);
    assert GenerationsSound(c, l.Noted(x)) by {
      WritesOfAppended(l.steps, x);
      GenerationsAppended(l.steps, x);
    }
    assert KnowledgeSound(c, l.Noted(x)) by { LatestAppended(c.codec, l.steps, x); }
    assert HistorySound(c, l.Noted(x)) by {
      HistoryExtended(c, l, x);
      FailedRunsAppended(l.steps, x);
    }
  }

  lemma KnowsAfterWrite(c: Setting, w: Workspace, latest: map<string, Result>, hashes: map<string, string>,
                        contents: map<string, string>, path: string, content: string)
    requires Knows(c, w, latest, hashes, contents)
    requires path != RESERVED_ACCEPTANCE_PATH && |c.codec.encode(content)| <= MAX_CONTENT_BYTES
    ensures var raw := c.codec.encode(content);
            Knows(c, w[path := raw],
                  latest[path := WriteResult(WriteFile(path, content), path, |raw|, c.codec.sha256(raw))],
                  hashes[path := c.codec.sha256(raw)], contents[path := content])
  {
  }

  lemma WroteIsSound(c: Setting, l: Ledger, path: string, content: string)
    requires Sound(c, l) && path != RESERVED_ACCEPTANCE_PATH && |c.codec.encode(content)| <= MAX_CONTENT_BYTES
    ensures Sound(c, l.Wrote(c.codec, path, content))
    ensures Replayed(c.codec, c.seed, l.Wrote(c.codec, path, content).steps) ==
              Replayed(c.codec, c.seed, l.steps)[path := c.codec.encode(content)]
  {
    var x, l' := WriteStep(c.codec, path, content), l.Wrote(c.codec, path, content);
    ReplayedAppended(c.codec, c.seed, l.steps, x);
    LastsAppended(l.steps, x);
    assert GenerationsSound(c, l') by {
      WritesOfAppended(l.steps, x);
      GenerationsAppended(l.steps, x);
    }
    assert KnowledgeSound(c, l') by {
      LatestAppended(c.codec, l.steps, x);
      KnowsAfterWrite(c, Replayed(c.codec, c.seed, l.steps), Latest(c.codec, l.steps).value, l.hashes, l.contents,
        path, content);
    }
    assert HistorySound(c, l') by {
      HistoryExtended(c, l, x);
      FailedRunsAppended(l.steps, x);
    }
  }

  lemma RanIsSound(c: Setting, l: Ledger, a: Action, ok: bool, decision: Decision, acceptance: Option<bool>)
    requires Sound(c, l) && a.RunTests? && a !in l.failedRuns && l.testedAction != Some(a)
    requires acceptance.Some? ==>
      ok && c.test.Some? && acceptance.value == c.accepts(Replayed(c.codec, c.seed, l.steps))
    ensures Sound(c, l.Ran(a, ok, decision, acceptance))
    ensures Replayed(c.codec, c.seed, l.Ran(a, ok, decision, acceptance).steps) == Replayed(c.codec, c.seed, l.steps)
  {
    var x, l' := Step(decision, Some(a), Some(RunResult(ok)), acceptance), l.Ran(a, ok, decision, acceptance);
    ReplayedAppended(c.codec, c.seed, l.steps, x);
    LastsAppended(l.steps, x);
    assert GenerationsSound(c, l') by {
      WritesOfAppended(l.steps, x);
      GenerationsAppended(l.steps, x);
    }
    assert KnowledgeSound(c, l') by { LatestAppended(c.codec, l.steps, x); }
    assert HistorySound(c, l') by {
      HistoryExtended(c, l, x);
      FailedRunsAppended(l.steps, x);
    }
    WritesOfAppended(l.steps, x);
  }

  /** What the controller takes for a no-op write is one: refusing it leaves the workspace as performing it would. */
  lemma NoOpWritesAreNoOps(c: Setting, l: Ledger, path: string, content: string)
    requires Sound(c, l) && c.codec.Faithful()
    requires path in l.hashes && l.hashes[path] == c.codec.sha256(c.codec.encode(content))
    ensures var w := Replayed(c.codec, c.seed, l.steps); w[path := c.codec.encode(content)] == w
  {
    var w := Replayed(c.codec, c.seed, l.steps);
    assert c.codec.sha256(c.codec.encode(content)) == c.codec.sha256(w[path]);
  }

  /** A run that is carried out is recorded, and ends the session, as the whole history asks for. */
  lemma RanIsAnswer(c: Setting, world: World, i: nat, l: Ledger, w: Workspace, a: Action, acceptance: Option<bool>,
                    broken: bool)
    requires GenerationsSound(c, l) && l.failedRuns == FailedRuns(l.steps)
    requires a.RunTests? && a !in l.failedRuns && l.testedAction != Some(a) && world.turn(i) == Act(a)
    requires world.reply(i).Fine?
    requires var judged := world.reply(i).ok && c.test.Some? && !l.Accepted();
             && (broken <==> judged && world.breaks(i))
             && acceptance == if judged && !broken then Some(c.accepts(w)) else None
    ensures var l' := l.Ran(a, world.reply(i).ok, if broken then AcceptanceError else ActionTaken, acceptance);
            var out := Answered(c, world, i, l.steps, w);
            && out.workspace == w && out.step.Some? && l'.steps == l.steps + [out.step.value]
            && out.ended == if broken then Some(Failed)
                            else if c.test.Some? && l'.Tested() && l'.Accepted() then Some(Finished) else None
  {
    var out := Answered(c, world, i, l.steps, w);
    WritesOfAppended(l.steps, out.step.value);
    GenerationsAppended(l.steps, out.step.value);
  }

  /** A write is known by the digest of its content exactly if its content is what was last written. */
  lemma KnownIsContent(c: Setting, l: Ledger, a: Action)
    requires Sound(c, l) && c.codec.Faithful() && a.WriteFile?
    ensures l.Known(c.codec, a) <==> LastContent(l.steps, a.path) == Some(a.content)
  {
    if a.path in l.contents {
      var x, y := c.codec.encode(l.contents[a.path]), c.codec.encode(a.content);
      assert c.codec.decode(x) == l.contents[a.path] && c.codec.decode(y) == a.content;
    }
  }

  /** The acceptance test stays as it was seeded. */
  lemma TestStays(c: Setting, l: Ledger)
    requires Sound(c, l) && c.test.Some?
    ensures var w := Replayed(c.codec, c.seed, l.steps);
            RESERVED_ACCEPTANCE_PATH in w && w[RESERVED_ACCEPTANCE_PATH] == c.test.value
  {
    assert RESERVED_ACCEPTANCE_PATH !in l.hashes;
  }

  // ---- the loop ------------------------------------------------------------------------------

  class Session {
    const setting: Setting
    const world: World

    /** The files as they are. */
    var workspace: Workspace

    var ledger: Ledger

    constructor (codec: Codec, accepts: Workspace -> bool, test: Option<Bytes>, files: Workspace, world: World)
      ensures Valid() && ledger.steps == [] && this.world == world
      ensures setting == Setting(codec, accepts, test,
                                 if test.Some? then files[RESERVED_ACCEPTANCE_PATH := test.value] else files)
    {
      var seed := if test.Some? then files[RESERVED_ACCEPTANCE_PATH := test.value] else files;
      setting, workspace := Setting(codec, accepts, test, seed), seed;
      ledger := Ledger(0, None, None, {}, None, None, map[], map[], []);
      this.world := world;
    }

    /** The bookkeeping is sound and the workspace is the one it accounts for. */
    ghost predicate Valid()
      reads this
    {
      Sound(setting, ledger) && workspace == Replayed(setting.codec, setting.seed, ledger.steps)
    }

    /** Record a step by which nothing changed. */
    method Note(decision: Decision, action: Option<Action>, result: Option<Result>, acceptance: Option<bool>)
      requires Sound(setting, ledger) && (result.Some? ==> result.value.ReadResult?)
      requires acceptance.Some? ==>
        setting.test.Some? && acceptance.value == setting.accepts(Replayed(setting.codec, setting.seed, ledger.steps))
      requires Replayed(setting.codec, setting.seed, ledger.steps + [Step(decision, action, result, acceptance)])
            == Replayed(setting.codec, setting.seed, ledger.steps)
      modifies this`ledger
      ensures Sound(setting, ledger) && ledger == old(ledger).Noted(Step(decision, action, result, acceptance))
    {
      var x := Step(decision, action, result, acceptance);
      NotedIsSound(setting, ledger, x);
      ledger := ledger.Noted(x);
    }

    /** An action that failed ends the session. */
    method Fail(decision: Decision, a: Action) returns (ended: Option<Status>)
      requires Sound(setting, ledger) && (decision == ActionError || decision == AcceptanceError)
      modifies this`ledger
      ensures Sound(setting, ledger) && ledger == old(ledger).Noted(Step(decision, Some(a), None, None))
      ensures Replayed(setting.codec, setting.seed, ledger.steps)
           == Replayed(setting.codec, setting.seed, old(ledger).steps)
      ensures ended == Some(Failed)
    {
      ReplayedAppended(setting.codec, setting.seed, ledger.steps, Step(decision, Some(a), None, None));
      Note(decision, Some(a), None, None);
      ended := Some(Failed);
    }

    /** A refused action; refusing a write is right only where it would change nothing. */
    method Refuse(a: Action, acceptance: Option<bool>)
      requires Valid() && (acceptance.Some? ==> setting.test.Some? && acceptance.value == setting.accepts(workspace))
      requires a.WriteFile? ==> workspace[a.path := setting.codec.encode(a.content)] == workspace
      modifies this`ledger
      ensures Valid() && ledger == old(ledger).Noted(Step(ActionRefused, Some(a), None, acceptance))
    {
      ReplayedAppended(setting.codec, setting.seed, ledger.steps, Step(ActionRefused, Some(a), None, acceptance));
      Note(ActionRefused, Some(a), None, acceptance);
    }

    /** The verdict of the acceptance test on the workspace; None where it cannot be had. */
    method Accept(i: nat) returns (verdict: Option<bool>)
      requires Valid() && setting.test.Some?
      ensures verdict.Some? ==> verdict.value == setting.accepts(workspace)
      ensures verdict.Some? <==> !world.breaks(i)
    {
      TestStays(setting, ledger);
      if world.breaks(i) { return None; }
      var found, expected := workspace[RESERVED_ACCEPTANCE_PATH], setting.test.value;
      if setting.codec.sha256(found) != setting.codec.sha256(expected) { return None; }
      verdict := Some(setting.accepts(workspace));
    }

    /** Acceptance evidence for the workspace as it is, cached or fresh. */
    method Evidence(i: nat) returns (verdict: Option<bool>)
      requires Valid() && setting.test.Some?
      ensures verdict.Some? ==> verdict.value == setting.accepts(workspace)
      ensures verdict.Some? <==> LastEvidence(ledger.steps).Some? || !world.breaks(i)
    {
      if ledger.evidence.Some? && ledger.evidence.value.0 == ledger.workspaceGeneration {
        return Some(ledger.evidence.value.1);
      }
      verdict := Accept(i);
    }

    /** Since `was` and workspace `w`, iteration `i` has come to what the whole history asks for. */
    ghost predicate Follows(i: nat, was: seq<Step>, w: Workspace, ended: Option<Status>)
      reads this
    {
      var out := Answered(setting, world, i, was, w);
      && ended == out.ended && workspace == out.workspace
      && ledger.steps == was + if out.step.Some? then [out.step.value] else []
    }

    method HandleRead(a: Action, i: nat) returns (ended: Option<Status>)
      requires Valid() && a.ReadFile? && world.turn(i) == Act(a)
      modifies this`ledger
      ensures Follows(i, old(ledger).steps, old(workspace), ended)
      ensures Valid() && |ledger.steps| == |old(ledger).steps| + 1
      ensures ended == if world.reply(i).Fine? then None else Some(Failed)
    {
      if !world.reply(i).Fine? {
        ended := Fail(ActionError, a);
        return;
      }
      ReplayedAppended(setting.codec, setting.seed, ledger.steps, Step(ActionTaken, Some(a), Some(ReadResult), None));
      Note(ActionTaken, Some(a), Some(ReadResult), None);
      ended := None;
    }

    /** A write of what is already there is refused. While the generation lacks acceptance, the refusal carries
        acceptance evidence. */
    method RefuseNoOpWrite(a: Action, i: nat) returns (ended: Option<Status>)
      requires Valid() && a.WriteFile? && workspace[a.path := setting.codec.encode(a.content)] == workspace
      requires LastContent(ledger.steps, a.path) == Some(a.content) && world.turn(i) == Act(a)
      modifies this`ledger
      ensures Follows(i, old(ledger).steps, old(workspace), ended)
      ensures Valid() && |ledger.steps| == |old(ledger).steps| + 1
      ensures ended == None || ended == Some(Failed)
      ensures IsRefusal(Last(ledger.steps), a, ended)
    {
      hide HistorySound, KnowledgeSound, ContentsSound;
      var acceptance := None;
      if setting.test.Some? && !ledger.Accepted() {
        acceptance := Evidence(i);
        if acceptance.None? {
          ended := Fail(AcceptanceError, a);
          return;
        }
      }
      Refuse(a, acceptance);
      ended := None;
    }

    method HandleWrite(a: Action, i: nat) returns (ended: Option<Status>)
      requires Valid() && a.WriteFile? && setting.codec.Faithful() && world.turn(i) == Act(a)
      modifies this
      ensures Follows(i, old(ledger).steps, old(workspace), ended)
      ensures Sound(setting, ledger) && |ledger.steps| == |old(ledger).steps| + 1
      ensures ended == None || ended == Some(Failed)
      ensures ended == None ==> Valid()
      // Only what is known to be there already goes unwritten.
      ensures old(ledger).Known(setting.codec, a) ==>
        workspace == old(workspace) && IsRefusal(Last(ledger.steps), a, ended)
      ensures !old(ledger).Known(setting.codec, a) ==>
        && (ended == None <==> world.reply(i).Fine? && a.path != RESERVED_ACCEPTANCE_PATH
                               && |setting.codec.encode(a.content)| <= MAX_CONTENT_BYTES)
        && (ended == None ==> ledger == old(ledger).Wrote(setting.codec, a.path, a.content)
                              && workspace == old(workspace)[a.path := setting.codec.encode(a.content)])
    {
      var raw := setting.codec.encode(a.content);
      KnownIsContent(setting, ledger, a);
      if ledger.Known(setting.codec, a) {
        NoOpWritesAreNoOps(setting, ledger, a.path, a.content);
        ended := RefuseNoOpWrite(a, i);
        return;
      }
      if world.reply(i).Refuse? || a.path == RESERVED_ACCEPTANCE_PATH || |raw| > MAX_CONTENT_BYTES {
        ended := Fail(ActionError, a);
        return;
      }
      workspace := workspace[a.path := raw];
      if world.reply(i).BreakLate? {
        ended := Fail(ActionError, a);
        return;
      }
      WroteIsSound(setting, ledger, a.path, a.content);
      ledger := ledger.Wrote(setting.codec, a.path, a.content);
      ended := None;
    }

    /** The acceptance test after a successful run, where it is still missing; it may break. */
    method AcceptIfMissing(ok: bool, i: nat) returns (acceptance: Option<bool>, broken: bool)
      requires Valid()
      ensures acceptance.Some? ==> ok && setting.test.Some? && acceptance.value == setting.accepts(workspace)
      ensures broken || acceptance.Some? <==> ok && setting.test.Some? && !ledger.Accepted()
      ensures broken <==> ok && setting.test.Some? && !ledger.Accepted() && world.breaks(i)
      ensures broken ==> acceptance.None?
    {
      acceptance, broken := None, false;
      if ok && setting.test.Some? && !ledger.Accepted() {
        acceptance := Accept(i);
        broken := acceptance.None?;
      }
    }

    /** A run that could be carried out, and the acceptance test after it where that is still missing. */
    method RecordRun(a: Action, i: nat) returns (ended: Option<Status>)
      requires Valid() && a.RunTests? && a !in ledger.failedRuns && ledger.testedAction != Some(a)
      requires world.turn(i) == Act(a) && world.reply(i).Fine?
      modifies this`ledger
      ensures Follows(i, old(ledger).steps, old(workspace), ended)
      ensures Valid() && |ledger.steps| == |old(ledger).steps| + 1
      ensures ended != Some(IterationLimit)
      ensures ended == Some(Finished) ==> setting.test.Some? && ledger.Tested() && ledger.Accepted()
      ensures Last(ledger.steps).result == Some(RunResult(world.reply(i).ok))
    {
      hide Replayed, FailedRuns, LastContent, LastEvidence, Knows, Latest;
      var ok := world.reply(i).ok;
      var acceptance, broken := AcceptIfMissing(ok, i);
      var decision := if broken then AcceptanceError else ActionTaken;
      RanIsSound(setting, ledger, a, ok, decision, acceptance);
      RanIsAnswer(setting, world, i, ledger, workspace, a, acceptance, broken);
      hide Sound, Answered, OnRun, Replayed;
      ledger := ledger.Ran(a, ok, decision, acceptance);
      ended := if broken then Some(Failed)
               else if setting.test.Some? && ledger.Tested() && ledger.Accepted() then Some(Finished) else None;
    }

    /** Execute a run whose outcome is not known. */
    method ExecuteRun(a: Action, i: nat) returns (ended: Option<Status>)
      requires Valid() && a.RunTests? && a !in ledger.failedRuns && ledger.testedAction != Some(a)
      requires world.turn(i) == Act(a)
      modifies this`ledger
      ensures Follows(i, old(ledger).steps, old(workspace), ended)
      ensures Valid() && |ledger.steps| == |old(ledger).steps| + 1
      ensures ended != Some(IterationLimit)
      ensures ended == Some(Finished) ==> setting.test.Some? && ledger.Tested() && ledger.Accepted()
      ensures !world.reply(i).Fine? ==> ended == Some(Failed)
      ensures world.reply(i).Fine? ==> Last(ledger.steps).result == Some(RunResult(world.reply(i).ok))
    {
      hide Replayed, FailedRuns, LastContent, LastEvidence, Knows, Latest;
      if !world.reply(i).Fine? {
        ended := Fail(ActionError, a);
        return;
      }
      ended := RecordRun(a, i);
    }

    method HandleRun(a: Action, i: nat) returns (ended: Option<Status>)
      requires Valid() && a.RunTests? && world.turn(i) == Act(a)
      modifies this`ledger
      ensures Follows(i, old(ledger).steps, old(workspace), ended)
      ensures Valid() && |ledger.steps| == |old(ledger).steps| + 1
      ensures ended != Some(IterationLimit)
      ensures ended == Some(Finished) ==> setting.test.Some? && ledger.Tested() && ledger.Accepted()
      // Only a run whose outcome is known for the current generation is not executed.
      ensures old(ledger).Redundant(a) ==> IsRefusal(Last(ledger.steps), a, ended) && ended == None
      ensures !old(ledger).Redundant(a) && !world.reply(i).Fine? ==> ended == Some(Failed)
      ensures !old(ledger).Redundant(a) && world.reply(i).Fine? ==>
        Last(ledger.steps).result == Some(RunResult(world.reply(i).ok))
    {
      ended := None;
      if ledger.Tested() && ledger.testedAction == Some(a) {
        var cached := ledger.evidence.Some? && ledger.evidence.value.0 == ledger.workspaceGeneration;
        Refuse(a, if cached then Some(ledger.evidence.value.1) else None);
        return;
      }
      if a in ledger.failedRuns {
        Refuse(a, None);
        return;
      }
      if ledger.testedAction.Some? { TestedActionIsCurrent(ledger.steps); }
      ended := ExecuteRun(a, i);
    }

    /** The model's word for it is taken exactly if the current generation is tested, and accepted where it must be. */
    method HandleDone(i: nat) returns (ended: Option<Status>)
      requires Valid() && world.turn(i).Complete?
      modifies this`ledger
      ensures Follows(i, old(ledger).steps, old(workspace), ended)
      ensures Valid() && |ledger.steps| == |old(ledger).steps| + 1
      ensures ended == if old(ledger).Tested() && (setting.test.Some? ==> old(ledger).Accepted())
                       then Some(Finished) else None
      ensures ended == Some(Finished) ==> ledger.Tested() && (setting.test.Some? ==> ledger.Accepted())
    {
      var done := ledger.Tested() && (setting.test.Some? ==> ledger.Accepted());
      var decision := if done then DoneAccepted else DoneRefused;
      ReplayedAppended(setting.codec, setting.seed, ledger.steps, Step(decision, None, None, None));
      Note(decision, None, None, None);
      ended := if done then Some(Finished) else None;
    }

    /** One iteration: the model's answer, and what the controller makes of it. */
    method Iterate(i: nat) returns (ended: Option<Status>)
      requires Valid() && setting.codec.Faithful()
      modifies this
      ensures Follows(i, old(ledger).steps, old(workspace), ended)
      ensures Sound(setting, ledger) && |ledger.steps| <= |old(ledger).steps| + 1
      ensures ended == None ==> Valid() && |ledger.steps| == |old(ledger).steps| + 1
      ensures ended != Some(IterationLimit)
      ensures ended == Some(Finished) ==> Valid() && ledger.Tested() && (setting.test.Some? ==> ledger.Accepted())
      // The model's word for it is taken exactly if the current generation is tested, and accepted where it must be.
      ensures world.turn(i).Complete? ==>
        ended == if old(ledger).Tested() && (setting.test.Some? ==> old(ledger).Accepted())
                 then Some(Finished) else None
      ensures world.turn(i).NoAnswer? || world.turn(i).NoAction? ==> ended == Some(Failed) && ledger == old(ledger)
    {
      hide Sound, Replayed, OnRun, OnWrite;
      match world.turn(i) {
        case NoAnswer => ended := Some(Failed);
        case NoAction => ended := Some(Failed);
        case Complete => ended := HandleDone(i);
        case Act(a) =>
          match a {
            case ReadFile(_) => ended := HandleRead(a, i);
            case WriteFile(_, _) => ended := HandleWrite(a, i);
            case RunTests(_) => ended := HandleRun(a, i);
          }
      }
    }

    /** The loop, until the session ends or the limit is reached. */
    method Loop(maxIterations: nat) returns (status: Status)
      requires Valid() && setting.codec.Faithful() && ledger.steps == []
      modifies this
      ensures Sound(setting, ledger) && (status != Failed ==> Valid())
      ensures Course(status, ledger.steps, workspace)
           == CourseFrom(setting, world, 1, maxIterations, [], old(workspace))
      ensures status == Finished ==> ledger.Tested() && (setting.test.Some? ==> ledger.Accepted())
    {
      hide Sound, Answered, CourseFrom;
      status := IterationLimit;
      var i := 1;
      ghost var course := CourseFrom(setting, world, 1, maxIterations, [], workspace);
      while i <= maxIterations
        invariant 1 <= i <= maxIterations + 1
        invariant Valid() && status == IterationLimit
        invariant CourseFrom(setting, world, i, maxIterations, ledger.steps, workspace) == course
      {
        CourseStep(setting, world, i, maxIterations, ledger.steps, workspace);
        var ended := Iterate(i);
        if ended.Some? { return ended.value; }
        i := i + 1;
      }
      CourseStep(setting, world, i, maxIterations, ledger.steps, workspace);
    }

    /** run_auto_lab, after its arguments were checked and the acceptance test was seeded. */
    method Run(maxIterations: nat) returns (r: Report)
      requires Valid() && setting.codec.Faithful() && ledger.steps == [] && 1 <= maxIterations <= MAX_MAX_ITERATIONS
      modifies this
      ensures Sound(setting, ledger) && |r.steps| <= maxIterations
      ensures r == Report(r.status, ledger.workspaceGeneration, ledger.testedGeneration, ledger.acceptanceGeneration,
                          ledger.steps)
      // It is the session of the loop that looks at the whole history in every iteration, and ends as that one does.
      ensures Course(r.status, r.steps, workspace)
           == CourseFrom(setting, world, 1, maxIterations, [], old(workspace))
      ensures Lawful(setting, world, maxIterations, r.status, r.steps)
      // The generations are ordered, and count writes.
      ensures r.workspaceGeneration == Writes(r.steps)
      ensures r.testedGeneration.Some? ==> r.testedGeneration.value <= r.workspaceGeneration
      ensures r.acceptanceGeneration.Some? ==>
        setting.test.Some? && r.testedGeneration.Some? && r.acceptanceGeneration.value <= r.testedGeneration.value
      // Completion is sound: a successful run has nothing written after it, and the acceptance test, if there is
      // one, passed on what that run left.
      ensures r.status == Finished ==>
        r.testedGeneration == Some(r.workspaceGeneration) && exists i: nat :: TestedLast(r.steps, i)
      ensures r.status == Finished && setting.test.Some? ==>
        && r.acceptanceGeneration == Some(r.workspaceGeneration) && setting.accepts(workspace)
        && exists i: nat :: TestedLast(r.steps, i) && r.steps[i].acceptance == Some(true)
      // The shortcuts change nothing: the workspace is that of the loop which performs every write, every acceptance
      // result is that of the workspace it was given for, and no run was repeated whose outcome was known.
      ensures r.status != Failed ==> Valid() && workspace == Replayed(setting.codec, setting.seed, r.steps)
      ensures AcceptancesTrue(setting.codec, setting.accepts, setting.seed, r.steps) && NoFailedRetry(r.steps)
      ensures NoRedundantRun(r.steps)
      // The fold that a candidate is built from never fails, and ends with the controller's own maps.
      ensures Latest(setting.codec, r.steps).Some?
              && Agrees(setting.codec, Latest(setting.codec, r.steps).value, ledger.hashes, ledger.contents)
    {
      var status := Loop(maxIterations);
      CourseIsLawful(setting, world, 1, maxIterations, [], old(workspace));
      GenerationsOrdered(ledger.steps);
      TestedMeans(ledger.steps);
      AcceptedMeans(ledger.steps);
      if status == Finished && setting.test.Some? {
        AcceptedWorkspace(setting.codec, setting.accepts, setting.seed, ledger.steps);
      }
      r := Report(status, ledger.workspaceGeneration, ledger.testedGeneration,
                  ledger.acceptanceGeneration, ledger.steps);
    }
  }

  /** Without a write after it, an acceptance result is about the final workspace. */
  lemma {:induction false} AcceptedWorkspace(codec: Codec, accepts: Workspace -> bool, seed: Workspace,
                                             steps: seq<Step>)
    requires AcceptancesTrue(codec, accepts, seed, steps) && LastAccepted(steps) == Some(Writes(steps))
    requires WritesShow(codec, seed, steps)
    ensures accepts(Replayed(codec, seed, steps))
    decreases |steps|
  {
    var front, last := Front(steps), Last(steps);
    GenerationsOrdered(front);
    if !(RunOk(last) && last.acceptance == Some(true)) { AcceptedWorkspace(codec, accepts, seed, front); }
  }

  /** Only a step that wrote changes the replayed workspace. */
  ghost predicate WritesShow(codec: Codec, seed: Workspace, steps: seq<Step>)
    decreases |steps|
  {
    steps == []
    || (&& WritesShow(codec, seed, Front(steps))
        && (!IsWrite(Last(steps)) ==> Replayed(codec, seed, steps) == Replayed(codec, seed, Front(steps))))
  }
}
