/** Running one coding job with its lifecycle recorded around it. */
module JobIntegration {
  import opened Basics
  import opened JobLifecycle
  import opened LifecycleJournal
  import opened CodingJob
  import CandidateStore
  import FileSystem

  datatype IntegrationResult = IntegrationResult(requestId: Id, candidateId: Id, resultId: Id)

  /** The foreign call that runs a worker, and how often it was made. */
  class Worker {
    const world: World
    var executions: seq<Job>

    constructor (world: World)
      ensures this.world == world && executions == []
    {
      this.world, executions := world, [];
    }

    method Run(job: Job, request: Request) returns (a: Answer)
      modifies this`executions
      ensures executions == old(executions) + [job] && a == world.answer(job, request)
    {
      executions := executions + [job];
      a := world.answer(job, request);
    }
  }

  /** run_codex_coding_job_from_commit: the worker is called once, or not at all. */
  method RunJob(worker: Worker, job: Job, session: Id) returns (r: Option<CodingJob.Record>)
    modifies worker`executions
    ensures r == JobOf(worker.world, job, session)
    ensures worker.executions ==
              old(worker.executions) + if Prepared(worker.world, job, session).Some? then [job] else []
  {
    var prepared := Prepared(worker.world, job, session);
    if prepared.None? { return None; }
    var (request, before) := prepared.value;
    var a := worker.Run(job, request);
    r := Settled(worker.world, job, request, before, a);
  }

  function RequestedFor(job: Job): Lifecycle { Lifecycle(job, Requested, NOTHING) }

  function RunningFor(job: Job, session: Id): Lifecycle {
    Lifecycle(job, Running, NOTHING.(session := Some(session)))
  }

  /** build_lab_coding_integration_result. */
  function ResultFor(w: World, job: Job, c: CandidateStore.Candidate): IntegrationResult {
    IntegrationResult(job.requestId, c.id, w.hashes.integration(job.requestId, c.id))
  }

  /** The successor state and evidence that the driver asks for once the job is over. `saved` says whether its
      candidate, if there is one, was stored. */
  function Verdict(w: World, job: Job, session: Id, saved: bool): (State, Evidence) {
    match JobOf(w, job, session)
    case None => (Failed, NOTHING)
    case Some(r) =>
      var seen := NOTHING.(workerRequest := Some(r.request.id), workerResult := Some(r.result.id));
      if r.result.status == "FAILED" then (Failed, seen)
      else if r.result.status == "TIMED_OUT" then (TimedOut, seen)
      else if r.result.status != "COMPLETED" then (Failed, seen)
      else
        match CandidateOf(w, job, session)
        case None => (Failed, seen)
        case Some(c) =>
          if saved
          then (Completed, seen.(candidate := Some(c.id), result := Some(ResultFor(w, job, c).resultId)))
          else (Failed, seen)
  }

  /** The same, branch by branch. */
  method Judge(w: World, job: Job, ghost session: Id, record: Option<CodingJob.Record>,
               stored: Option<CandidateStore.Candidate>)
    returns (state: State, seen: Evidence)
    requires record == JobOf(w, job, session) && (stored.Some? ==> stored == CandidateOf(w, job, session))
    ensures (state, seen) == Verdict(w, job, session, stored.Some?)
  {
    CandidateNeedsCompletion(w, job, session);
    state, seen := Failed, NOTHING;
    if record.None? { return; }
    var r := record.value;
    seen := seen.(workerRequest := Some(r.request.id), workerResult := Some(r.result.id));
    if r.result.status == "FAILED" { return; }
    if r.result.status == "TIMED_OUT" {
      state := TimedOut;
      return;
    }
    if r.result.status != "COMPLETED" || stored.None? { return; }
    var result := ResultFor(w, job, stored.value);
    state, seen := Completed, seen.(candidate := Some(stored.value.id), result := Some(result.resultId));
  }

  lemma CandidateNeedsCompletion(w: World, job: Job, session: Id)
    ensures CandidateOf(w, job, session).Some? ==>
      JobOf(w, job, session).Some? && JobOf(w, job, session).value.result.status == "COMPLETED"
  {
    if JobOf(w, job, session).Some? { CandidateIsBound(w, job, session); }
  }

  /** The snapshot tells what happened: TIMED_OUT exactly if the job has a result that says so, COMPLETED exactly if its
      candidate was stored, and FAILED otherwise. It names the job's own session, request and result, the last two
      exactly if the job did not raise, and its own candidate and integration result, exactly if it is COMPLETED. */
  predicate Truthful(w: World, job: Job, session: Id, saved: bool, last: Lifecycle) {
    var record, candidate := JobOf(w, job, session), CandidateOf(w, job, session);
    var timedOut := record.Some? && record.value.result.status == "TIMED_OUT";
    var completed := candidate.Some? && saved;
    && last.job == job && last.evidence.session == Some(session)
    && (last.state == TimedOut <==> timedOut)
    && (last.state == Completed <==> completed)
    && (last.state == Failed <==> !timedOut && !completed)
    && last.evidence.workerRequest == (if record.Some? then Some(record.value.request.id) else None)
    && last.evidence.workerResult == (if record.Some? then Some(record.value.result.id) else None)
    && last.evidence.candidate == (if completed then Some(candidate.value.id) else None)
    && last.evidence.result ==
         if completed then Some(w.hashes.integration(job.requestId, candidate.value.id)) else None
  }

  lemma FinalIsTruthful(w: World, job: Job, session: Id, saved: bool)
    ensures Truthful(w, job, session, saved, FinalFor(w, job, session, saved))
    ensures ChainFor(w, job, session, saved, 3)[2] == FinalFor(w, job, session, saved)
  {
    CandidateNeedsCompletion(w, job, session);
  }

  predicate IsJob(job: Job) { IsIdentifier(job.requestId) && IsIdentifier(job.runId) }

  /** The terminal snapshot for the verdict. */
  function FinalFor(w: World, job: Job, session: Id, saved: bool): Lifecycle {
    var (state, seen) := Verdict(w, job, session, saved);
    Lifecycle(job, state, seen.(session := Some(session)))
  }

  /** Whatever the worker answers and whatever the store does, the transition for the verdict is legal. */
  lemma FinalIsLegal(w: World, job: Job, session: Id, saved: bool)
    requires IsJob(job) && IsIdentifier(session)
    ensures var (state, seen) := Verdict(w, job, session, saved);
            var final := FinalFor(w, job, session, saved);
            && Transition(RunningFor(job, session), state, seen) == Some(final)
            && Transition(RunningFor(job, session), state, final.evidence) == Some(final)
            && Terminal(state) && Truthful(w, job, session, saved, final)
  {
    JobIsBound(w, job, session);
    FinalIsTruthful(w, job, session, saved);
    if CandidateOf(w, job, session).Some? {
      CandidateIsBound(w, job, session);
      var d: Digest := w.hashes.integration(job.requestId, CandidateOf(w, job, session).value.id);
      assert ResultFor(w, job, CandidateOf(w, job, session).value).resultId == d;
    }
    assert Valid(RunningFor(job, session));
  }

  /** The three chains a run can leave behind, in the order in which they come about. */
  function ChainFor(w: World, job: Job, session: Id, saved: bool, length: nat): seq<Lifecycle>
    requires length <= 3
  {
    [RequestedFor(job), RunningFor(job, session), FinalFor(w, job, session, saved)][..length]
  }

  lemma ChainForIsLegal(w: World, job: Job, session: Id, saved: bool)
    requires IsJob(job) && IsIdentifier(session)
    ensures forall length :: 1 <= length <= 3 ==> Legal(job, ChainFor(w, job, session, saved, length))
    ensures Follows(job, ChainFor(w, job, session, saved, 1), RunningFor(job, session))
    ensures Follows(job, ChainFor(w, job, session, saved, 2), FinalFor(w, job, session, saved))
  {
    var one, two := ChainFor(w, job, session, saved, 1), ChainFor(w, job, session, saved, 2);
    FinalIsLegal(w, job, session, saved);
    assert Transition(RequestedFor(job), Running, RunningFor(job, session).evidence) == Some(RunningFor(job, session));
    LegalAppended(job, [], RequestedFor(job));
    assert [] + [RequestedFor(job)] == [RequestedFor(job)] == one;
    LegalAppended(job, one, RunningFor(job, session));
    assert one + [RunningFor(job, session)] == two;
    LegalAppended(job, two, FinalFor(w, job, session, saved));
    assert two + [FinalFor(w, job, session, saved)] == ChainFor(w, job, session, saved, 3);
  }

  /** The chain of a run that has got as far as RUNNING, whatever comes of it. */
  function BegunChain(job: Job, session: Id): seq<Lifecycle> { [RequestedFor(job), RunningFor(job, session)] }

  lemma ChainForBegins(w: World, job: Job, session: Id, saved: bool)
    ensures ChainFor(w, job, session, saved, 1) == [RequestedFor(job)]
    ensures ChainFor(w, job, session, saved, 2) == BegunChain(job, session)
    ensures ChainFor(w, job, session, saved, 3) == BegunChain(job, session) + [FinalFor(w, job, session, saved)]
  {
  }

  /** REQUESTED and RUNNING are durable, whatever became of the third file. */
  ghost predicate Begun(root: Root, job: Job, session: Id) {
    && job in root && root[job].Snapshots?
    && forall i :: 0 <= i < 2 ==>
         SnapshotFilename(i) in root[job].files
         && root[job].files[SnapshotFilename(i)] == Whole(RecordAt(BegunChain(job, session), i))
  }

  lemma HoldsBegins(root: Root, job: Job, session: Id, chain: seq<Lifecycle>)
    requires BegunChain(job, session) <= chain && Holds(root, job, chain)
    ensures Begun(root, job, session)
  {
    var two := BegunChain(job, session);
    forall i | 0 <= i < 2 ensures RecordAt(chain, i) == RecordAt(two, i) { assert chain[i] == two[i]; }
  }

  /** Create REQUESTED, append RUNNING: only then may the worker run. */
  method Begin(j: Journal, job: Job, session: Id, ghost w: World) returns (o: Outcome<Lifecycle>)
    requires IsIdentifier(session)
    modifies j`tick, j`root
    ensures Went(j.faults, old(j.tick), j.tick, o) && OthersKept(old(j.root), j.root, job)
    ensures o.Done? ==>
      && IsJob(job) && RootValid(old(j.root)) && job !in old(j.root) && RootValid(j.root)
      && o.value == RunningFor(job, session) && Holds(j.root, job, BegunChain(job, session))
    ensures old(j.Calm()) && RootValid(old(j.root)) && job !in old(j.root) && IsJob(job) ==> o.Done?
  {
    var requested := Build(job);
    if requested.None? { return Error; }
    ChainForIsLegal(w, job, session, false);
    ChainForBegins(w, job, session, false);
    var first :- j.Create(requested.value);
    var running := Transition(requested.value, Running, NOTHING.(session := Some(session)));
    if running.None? { return Error; }
    ghost var chain;
    ghost var created := j.root;
    assert Holds(created, job, [RequestedFor(job)]);
    o, chain := j.Append(running.value, requested.value);
    if o.Done? {
      OneChain(created[job].files, job, chain, [RequestedFor(job)]);
      assert [RequestedFor(job)] + [running.value] == BegunChain(job, session);
    }
  }

  /** Append the terminal snapshot for the verdict. */
  method Finish(j: Journal, ghost w: World, job: Job, session: Id, ghost saved: bool, state: State, seen: Evidence)
    returns (o: Outcome<Lifecycle>)
    requires IsJob(job) && IsIdentifier(session) && (state, seen) == Verdict(w, job, session, saved)
    requires RootValid(j.root) && Holds(j.root, job, BegunChain(job, session))
    modifies j`tick, j`root
    ensures Went(j.faults, old(j.tick), j.tick, o) && OthersKept(old(j.root), j.root, job) && RootValid(j.root)
    ensures Begun(j.root, job, session)
    ensures o.Done? ==> Holds(j.root, job, ChainFor(w, job, session, saved, 3))
    ensures old(j.Calm()) ==> o.Done?
  {
    FinalIsLegal(w, job, session, saved);
    ChainForIsLegal(w, job, session, saved);
    ChainForBegins(w, job, session, saved);
    ghost var two, was := BegunChain(job, session), j.root;
    HoldsBegins(j.root, job, session, two);
    assert LastOf(two) == Some(RunningFor(job, session));
    var final := Transition(RunningFor(job, session), state, seen);
    ghost var chain;
    o, chain := j.Append(final.value, RunningFor(job, session));
    if o.Done? { OneChain(was[job].files, job, chain, two); }
  }

  /** finalize_lab_coding_workflow: build the candidate and publish it. */
  method Finalize(store: CandidateStore.Store, w: World, job: Job, ghost session: Id, r: CodingJob.Record)
    returns (o: Outcome<CandidateStore.Candidate>)
    requires store.Valid() && store.codec.Canonical() && JobOf(w, job, session) == Some(r)
    modifies store
    ensures Stored(store.codec, old(store.disk), store.disk) && store.Valid()
    ensures Went(store.faults, old(store.tick), store.tick, o)
    ensures o.Done? ==>
      && CandidateOf(w, job, session) == Some(o.value)
      && CandidateStore.Publishable(store.codec, old(store.disk), o.value)
      && CandidateStore.Published(store.codec, store.disk, o.value) && CandidateStore.NoTemporaries(store.disk)
      && store.disk.live.Keys == old(store.disk).live.Keys + {CandidateStore.Final(o.value.id)}
    ensures old(store.Calm()) && CandidateStore.NoTemporaries(old(store.disk)) ==>
      !o.Dead? && (o.Done? <==> Completes(w, store.codec, old(store.disk), job, session))
  {
    var c := BuildCandidate(w, job, r);
    if c.None? { return Error; }
    CandidateIsBound(w, job, session);
    var _ :- store.Persist(c.value);
    o := Done(c.value);
  }

  /** What follows the worker: a completed job is finalized, any other is over. */
  method Conclude(store: CandidateStore.Store, w: World, job: Job, ghost session: Id, record: Option<CodingJob.Record>)
    returns (o: Outcome<CandidateStore.Candidate>)
    requires store.Valid() && store.codec.Canonical() && record == JobOf(w, job, session)
    modifies store
    ensures Stored(store.codec, old(store.disk), store.disk) && store.Valid()
    ensures Went(store.faults, old(store.tick), store.tick, o)
    ensures o.Done? ==>
      && Prepared(w, job, session).Some? && CandidateOf(w, job, session) == Some(o.value)
      && Delivers(w, store.codec, old(store.disk), store.disk, job, session, ResultFor(w, job, o.value))
    ensures old(store.Calm()) && CandidateStore.NoTemporaries(old(store.disk)) ==>
      !o.Dead? && (o.Done? <==> Completes(w, store.codec, old(store.disk), job, session))
  {
    hide CandidateStore.Ordered;
    if record.None? || record.value.result.status != "COMPLETED" { return Error; }
    o := Finalize(store, w, job, session, record.value);
  }

  /** The job yields a candidate, and the store can take it. */
  ghost predicate Completes(w: World, codec: CandidateStore.Codec, disk: FileSystem.Disk, job: Job, session: Id) {
    && CandidateOf(w, job, session).Some?
    && CandidateStore.Publishable(codec, disk, CandidateOf(w, job, session).value)
  }

  /** Nothing that was in the store has changed. */
  ghost predicate Stored(codec: CandidateStore.Codec, before: FileSystem.Disk, after: FileSystem.Disk) {
    CandidateStore.RecordsKept(before, after) && CandidateStore.DurableKept(before, after)
  }

  /** Since these ticks of journal and store, an operation that returned has had no call fail in either, and it died
      exactly if a call in one of them killed the process. */
  ghost predicate BothWent<T>(j: Journal, jFrom: nat, store: CandidateStore.Store, storeFrom: nat, o: Outcome<T>)
    reads j`tick, store`tick
  {
    && jFrom <= j.tick && storeFrom <= store.tick
    && (o.Done? ==> Smooth(j.faults, jFrom, j.tick) && Smooth(store.faults, storeFrom, store.tick))
    && (o.Dead? <==> Killed(j.faults, jFrom, j.tick) || Killed(store.faults, storeFrom, store.tick))
  }

  /** run_lab_coding_integration_request_with_lifecycle. `saved` says whether a candidate was stored. */
  method RunRequest(j: Journal, worker: Worker, store: CandidateStore.Store, job: Job, session: Id)
    returns (o: Outcome<IntegrationResult>, ghost saved: bool)
    requires IsIdentifier(session) && store.Valid() && store.codec.Canonical()
    modifies j`tick, j`root, worker`executions, store
    ensures OthersKept(old(j.root), j.root, job)
    ensures Stored(store.codec, old(store.disk), store.disk) && store.Valid()
    // It dies exactly if a call kills the process, and in the store that leaves the job RUNNING.
    ensures BothWent(j, old(j.tick), store, old(store.tick), o)
    ensures Killed(store.faults, old(store.tick), store.tick) ==> Holds(j.root, job, BegunChain(job, session))
    // The worker runs at most once, and it runs and the store changes only behind a durable RUNNING of a new job.
    ensures worker.executions == old(worker.executions) || worker.executions == old(worker.executions) + [job]
    ensures worker.executions != old(worker.executions) || store.disk != old(store.disk) ==>
      && IsJob(job) && job !in old(j.root) && RootValid(old(j.root)) && RootValid(j.root) && Begun(j.root, job, session)
    // A result is returned only with the whole chain and the candidate durable, and names that candidate.
    ensures o.Done? ==>
      && worker.executions == old(worker.executions) + [job] && RootValid(j.root)
      && Finished(worker.world, j.root, job, session)
      && Delivers(worker.world, store.codec, old(store.disk), store.disk, job, session, o.value)
    ensures saved ==>
      && CandidateOf(worker.world, job, session).Some?
      && CandidateStore.Published(store.codec, store.disk, CandidateOf(worker.world, job, session).value)
    // With a working journal, whatever worker and store do, the chain ends in a terminal state, unless the process died
    // in the store.
    ensures old(j.Calm()) && RootValid(old(j.root)) && job !in old(j.root) && IsJob(job) ==>
      && worker.executions ==
           old(worker.executions) + (if Prepared(worker.world, job, session).Some? then [job] else [])
      && RootValid(j.root)
      && (o.Dead? || Recorded(worker.world, j.root, job, session, saved))
      && (!o.Done? && !o.Dead? ==> Fails(worker.world, job, session, saved))
      && (old(store.Calm()) && CandidateStore.NoTemporaries(old(store.disk)) ==>
            !o.Dead? && (o.Done? <==> Completes(worker.world, store.codec, old(store.disk), job, session)))
  {
    saved := false;
    var running := Begin(j, job, session, worker.world);
    if !running.Done? { return running.PropagateFailure(), saved; }
    o, saved := RunBegun(j, worker, store, job, session);
  }

  /** The job's whole chain is durable, and its last snapshot tells what happened. */
  ghost predicate Recorded(w: World, root: Root, job: Job, session: Id, saved: bool) {
    && Holds(root, job, ChainFor(w, job, session, saved, 3))
    && Truthful(w, job, session, saved, ChainFor(w, job, session, saved, 3)[2])
  }

  /** The job's whole chain, ending in COMPLETED, is durable. */
  ghost predicate Finished(w: World, root: Root, job: Job, session: Id) {
    CandidateOf(w, job, session).Some? && Recorded(w, root, job, session, true)
  }

  /** The job has no candidate, or it was not stored. */
  predicate Fails(w: World, job: Job, session: Id, saved: bool) { CandidateOf(w, job, session).None? || !saved }

  /** The job's candidate is new in the store, and it is the one that the result names. */
  ghost predicate Delivers(w: World, codec: CandidateStore.Codec, before: FileSystem.Disk,
                           after: FileSystem.Disk, job: Job, session: Id, r: IntegrationResult) {
    && CandidateOf(w, job, session).Some?
    && var c := CandidateOf(w, job, session).value;
    && r == ResultFor(w, job, c) && CandidateStore.Publishable(codec, before, c)
    && CandidateStore.Published(codec, after, c) && CandidateStore.NoTemporaries(after)
    && after.live.Keys == before.live.Keys + {CandidateStore.Final(c.id)}
  }

  /** The part behind a durable RUNNING. */
  method RunBegun(j: Journal, worker: Worker, store: CandidateStore.Store, job: Job, session: Id)
    returns (o: Outcome<IntegrationResult>, ghost saved: bool)
    requires IsJob(job) && IsIdentifier(session) && store.Valid() && store.codec.Canonical()
    requires RootValid(j.root) && Holds(j.root, job, BegunChain(job, session))
    modifies j`tick, j`root, worker`executions, store
    ensures OthersKept(old(j.root), j.root, job) && RootValid(j.root)
    ensures Stored(store.codec, old(store.disk), store.disk) && store.Valid()
    ensures BothWent(j, old(j.tick), store, old(store.tick), o)
    ensures Killed(store.faults, old(store.tick), store.tick) ==> j.root == old(j.root)
    ensures worker.executions ==
              old(worker.executions) + if Prepared(worker.world, job, session).Some? then [job] else []
    ensures Begun(j.root, job, session)
    ensures o.Done? ==>
      && Prepared(worker.world, job, session).Some? && Finished(worker.world, j.root, job, session)
      && Delivers(worker.world, store.codec, old(store.disk), store.disk, job, session, o.value)
    ensures saved ==>
      && CandidateOf(worker.world, job, session).Some?
      && CandidateStore.Published(store.codec, store.disk, CandidateOf(worker.world, job, session).value)
    ensures old(j.Calm()) ==>
      && (o.Dead? || Recorded(worker.world, j.root, job, session, saved))
      && (!o.Done? && !o.Dead? ==> Fails(worker.world, job, session, saved))
      && (old(store.Calm()) && CandidateStore.NoTemporaries(old(store.disk)) ==>
            !o.Dead? && (o.Done? <==> Completes(worker.world, store.codec, old(store.disk), job, session)))
  {
    hide CodingJob.JobOf, CodingJob.CandidateOf, Verdict, FinalFor, LifecycleJournal.RootValid, CandidateStore.Ordered,
      Truthful;
    saved := false;
    HoldsBegins(j.root, job, session, BegunChain(job, session));
    var record := RunJob(worker, job, session);
    var candidate := Conclude(store, worker.world, job, session, record);
    if candidate.Dead? { return Dead, saved; }
    saved := candidate.Done?;
    var stored := if candidate.Done? then Some(candidate.value) else None;
    var state, seen := Judge(worker.world, job, session, record, stored);
    FinalIsTruthful(worker.world, job, session, saved);
    var final := Finish(j, worker.world, job, session, saved, state, seen);
    if !final.Done? { return final.PropagateFailure(), saved; }
    o := if candidate.Done? then Done(ResultFor(worker.world, job, candidate.value)) else Error;
  }
}
