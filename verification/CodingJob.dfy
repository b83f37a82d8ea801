/** One coding job: a workspace of its own, one call of a worker, and the evidence that is made of what it did. */
module CodingJob {
  import opened Basics
  import opened JobLifecycle
  import CandidateStore

  const CODEX_WORKER_NAME := "codex-v1"

  /** What hexdigest() returns. */
  type Digest = s: Id | IsIdentifier(s) witness seq(64, _ => '0')

  /** The identity of a workspace: the session it was created for and the directory it got. */
  datatype Workspace = Workspace(session: Id, device: nat, inode: nat)

  /** Goal, policy and limits of a request come with its job. */
  datatype Request = Request(id: Id, worker: string, workspace: Workspace)

  datatype Snapshot = Snapshot(workspace: Workspace, entries: string)

  /** What a worker reports; `report` is its summary, changed paths and log. */
  datatype Result = Result(id: string, requestId: string, worker: string, workspace: Workspace,
                           status: string, report: string)

  /** What calling a worker comes to: an exception, something that is no result record, or a result of any content. */
  datatype Answer = Raises | Foreign | Reports(result: Result)

  datatype Record = Record(workspace: Workspace, request: Request, result: Result, before: Snapshot, after: Snapshot)

  datatype Moment = BeforeRun | AfterRun | AtTheEnd

  /** SHA-256 over the canonical form of each kind of record. */
  datatype Hashes = Hashes(request: (Job, Workspace) -> Digest,
                           result: (string, string, Workspace, string, string) -> Digest,
                           candidate: (Id, string) -> Digest,
                           integration: (Id, Id) -> Digest)
  {
    ghost predicate Injective() {
      forall s, b, s', b' :: candidate(s, b) == candidate(s', b') ==> s == s' && b == b'
    }
  }

  /** Everything outside: what creating, seeding and walking a workspace comes to, what the worker answers, and what the
      change policy and the text checks say. */
  datatype World = World(hashes: Hashes,
                         place: Id -> Option<(nat, nat)>, seeds: Job -> bool,
                         entries: (Job, Moment) -> Option<string>,
                         answer: (Job, Request) -> Answer, reportOk: (Job, string) -> bool,
                         policyBefore: (Job, string) -> bool, policyAfter: (Job, string, string, bool) -> bool,
                         collects: (Job, string, string) -> bool, body: (Snapshot, Snapshot) -> string)

  predicate IsStatus(status: string) { status == "COMPLETED" || status == "FAILED" || status == "TIMED_OUT" }

  function ResultId(h: Hashes, x: Result): Digest {
    h.result(x.requestId, x.worker, x.workspace, x.status, x.report)
  }

  /** validate_lab_worker_result: the record itself, if it is bound to this request and names itself correctly. */
  function ValidateResult(w: World, job: Job, a: Answer, request: Request): Option<Result> {
    if !a.Reports? then None
    else
      var x := a.result;
      if !IsIdentifier(x.id) || x.requestId != request.id || x.worker != request.worker
         || x.workspace != request.workspace || !IsStatus(x.status) || !w.reportOk(job, x.report)
         || x.id != ResultId(w.hashes, x)
      then None else Some(x)
  }

  /** capture_lab_workspace_snapshot. */
  function Capture(w: World, job: Job, moment: Moment, workspace: Workspace): Option<Snapshot> {
    var entries := w.entries(job, moment);
    if entries.None? then None else Some(Snapshot(workspace, entries.value))
  }

  /** Everything before the worker runs: workspace, seed, request, first snapshot, policy. */
  function Prepared(w: World, job: Job, session: Id): Option<(Request, Snapshot)> {
    var place := w.place(session);
    if place.None? || !w.seeds(job) then None
    else
      var workspace := Workspace(session, place.value.0, place.value.1);
      var before := Capture(w, job, BeforeRun, workspace);
      if before.None? || !w.policyBefore(job, before.value.entries) then None
      else Some((Request(w.hashes.request(job, workspace), CODEX_WORKER_NAME, workspace), before.value))
  }

  /** Everything after it: second snapshot, policy, and only then the validation of what it answered. */
  function Settled(w: World, job: Job, request: Request, before: Snapshot, a: Answer): Option<Record> {
    var after := Capture(w, job, AfterRun, request.workspace);
    if after.None? || !w.policyAfter(job, before.entries, after.value.entries, false) then None
    else
      var result := ValidateResult(w, job, a, request);
      if result.None? then None
      else if result.value.status == "COMPLETED" && !w.policyAfter(job, before.entries, after.value.entries, true)
      then None
      else Some(Record(request.workspace, request, result.value, before, after.value))
  }

  /** run_codex_coding_job_from_commit; None where it raises. */
  function JobOf(w: World, job: Job, session: Id): Option<Record> {
    var prepared := Prepared(w, job, session);
    if prepared.None? then None
    else
      var (request, before) := prepared.value;
      Settled(w, job, request, before, w.answer(job, request))
  }

  /** build_lab_coding_candidate, which trusts nothing in the record. */
  function BuildCandidate(w: World, job: Job, r: Record): Option<CandidateStore.Candidate> {
    if ValidateResult(w, job, Reports(r.result), r.request) != Some(r.result) then None
    else if r.result.status != "COMPLETED" then None
    else if r.request.workspace != r.workspace || !w.policyBefore(job, r.before.entries) then None
    else if r.before.workspace != r.workspace || r.after.workspace != r.workspace then None
    else if !w.policyAfter(job, r.before.entries, r.after.entries, true) then None
    else if !w.collects(job, r.before.entries, r.after.entries) then None
    else if Capture(w, job, AtTheEnd, r.workspace) != Some(r.after) then None
    else
      var session, body := r.after.workspace.session, w.body(r.before, r.after);
      Some(CandidateStore.Candidate(w.hashes.candidate(session, body), session, body))
  }

  function CandidateOf(w: World, job: Job, session: Id): Option<CandidateStore.Candidate> {
    var r := JobOf(w, job, session);
    if r.None? then None else BuildCandidate(w, job, r.value)
  }

  /** Whatever the worker answers, a job that does not raise has a result that is bound to its request, with identifiers
      that are digests, in the workspace of its own session. Every other answer raises. */
  lemma JobIsBound(w: World, job: Job, session: Id)
    ensures JobOf(w, job, session).Some? ==>
      var r := JobOf(w, job, session).value;
      && IsIdentifier(r.request.id) && IsIdentifier(r.result.id)
      && w.answer(job, r.request) == Reports(r.result)
      && r.result.requestId == r.request.id && r.result.id == ResultId(w.hashes, r.result) && IsStatus(r.result.status)
      && r.workspace.session == session
      && r.workspace == r.request.workspace == r.result.workspace == r.before.workspace == r.after.workspace
  {
    if JobOf(w, job, session).Some? {
      var (request, before) := Prepared(w, job, session).value;
      var d: Digest := w.hashes.request(job, request.workspace);
      assert request.id == d;
    }
  }

  /** The answer is bound to the request: the worker's own report, naming it, itself and its status correctly. */
  predicate Bound(w: World, job: Job, request: Request, a: Answer) {
    && a.Reports? && IsIdentifier(a.result.id) && a.result.requestId == request.id
    && a.result.worker == request.worker && a.result.workspace == request.workspace
    && (a.result.status == "COMPLETED" || a.result.status == "FAILED" || a.result.status == "TIMED_OUT")
    && w.reportOk(job, a.result.report)
    && a.result.id == w.hashes.result(request.id, request.worker, request.workspace, a.result.status, a.result.report)
  }

  /** Exactly when a job does not raise: the workspace is there, seeded, and can be walked before and after; the change
      policy allows what is there then, completely where the worker says that it has completed; and its answer is bound
      to the request. */
  lemma JobReturns(w: World, job: Job, session: Id)
    ensures JobOf(w, job, session).Some? <==>
            && w.place(session).Some? && w.seeds(job)
            && w.entries(job, BeforeRun).Some? && w.entries(job, AfterRun).Some?
            && var workspace := Workspace(session, w.place(session).value.0, w.place(session).value.1);
            && var request := Request(w.hashes.request(job, workspace), CODEX_WORKER_NAME, workspace);
            && var before, after := w.entries(job, BeforeRun).value, w.entries(job, AfterRun).value;
            && var a := w.answer(job, request);
            && w.policyBefore(job, before) && w.policyAfter(job, before, after, false)
            && Bound(w, job, request, a) && (a.result.status == "COMPLETED" ==> w.policyAfter(job, before, after, true))
  {
  }

  /** Exactly when a candidate is built, from any record whatever: nothing in it is taken on trust. */
  lemma CandidateIsBuilt(w: World, job: Job, r: Record)
    ensures BuildCandidate(w, job, r).Some? <==>
            && Bound(w, job, r.request, Reports(r.result)) && r.result.status == "COMPLETED"
            && r.request.workspace == r.workspace == r.before.workspace == r.after.workspace
            && w.policyBefore(job, r.before.entries)
            && w.policyAfter(job, r.before.entries, r.after.entries, true)
            && w.collects(job, r.before.entries, r.after.entries)
            && w.entries(job, AtTheEnd) == Some(r.after.entries)
  {
  }

  /** A candidate names the session its job was deployed in, and itself; of what the job established nothing is refused
      when the candidate is built. */
  lemma CandidateIsBound(w: World, job: Job, session: Id)
    requires JobOf(w, job, session).Some?
    ensures var r, c := JobOf(w, job, session).value, CandidateOf(w, job, session);
            && (c.Some? <==> && r.result.status == "COMPLETED" && w.collects(job, r.before.entries, r.after.entries)
                             && w.entries(job, AtTheEnd) == Some(r.after.entries))
            && (c.Some? ==>
                  && IsIdentifier(c.value.id) && c.value.session == session
                  && c.value.id == w.hashes.candidate(session, c.value.body))
  {
    JobIsBound(w, job, session);
    var c := CandidateOf(w, job, session);
    if c.Some? {
      var d: Digest := w.hashes.candidate(session, c.value.body);
      assert c.value.id == d;
    }
  }
}
