/** Queues of coding jobs: their dispatch one after the other, and the packet that is reviewed afterwards. */
module JobDispatch {
  import opened Basics
  import opened JobLifecycle
  import opened LifecycleJournal
  import opened CodingJob
  import opened JobIntegration
  import CandidateStore
  import FileSystem

  const MAX_CODING_JOB_QUEUE_ITEMS: nat := 32

  /** The items of a queue are jobs; an item's identifier is that of its job. */
  type Queue = seq<Job>

  predicate ValidQueue(q: Queue) {
    && 0 < |q| <= MAX_CODING_JOB_QUEUE_ITEMS
    && (forall i :: 0 <= i < |q| ==> IsJob(q[i]))
    && (forall i, j :: 0 <= i < j < |q| ==> q[i].requestId != q[j].requestId)
    && (forall i, j :: 0 <= i < j < |q| ==> q[i].runId != q[j].runId)
  }

  /** One deployment for each item, all with different sessions. */
  predicate ValidDeployments(q: Queue, sessions: seq<Id>) {
    && |sessions| == |q|
    && (forall i :: 0 <= i < |sessions| ==> IsIdentifier(sessions[i]))
    && (forall i, j :: 0 <= i < j < |sessions| ==> sessions[i] != sessions[j])
  }

  predicate Distinct(ids: seq<Id>) { forall i, j :: 0 <= i < j < |ids| ==> ids[i] != ids[j] }

  function Elements(ids: seq<Id>): set<Id> { set id | id in ids }

  /** Identifiers are distinct exactly if there are as many different ones as there are places. */
  lemma {:induction false} DistinctByCounting(ids: seq<Id>)
    ensures |Elements(ids)| <= |ids|
    ensures Distinct(ids) <==> |Elements(ids)| == |ids|
  {
    if ids != [] {
      var front, last := ids[..|ids| - 1], ids[|ids| - 1];
      DistinctByCounting(front);
      assert ids == front + [last];
      assert Elements(ids) == Elements(front) + {last};
      if Distinct(ids) { assert last !in Elements(front); }
    }
  }

  function RequestIds(q: Queue): seq<Id> { seq(|q|, i requires 0 <= i < |q| => q[i].requestId) }

  function RunIds(q: Queue): seq<Id> { seq(|q|, i requires 0 <= i < |q| => q[i].runId) }

  /** validate_lab_coding_job_queue, which counts. */
  method ValidateQueue(q: Queue) returns (ok: bool)
    ensures ok <==>
      && 1 <= |q| <= 32 && (forall job <- q :: IsIdentifier(job.requestId) && IsIdentifier(job.runId))
      && Distinct(RequestIds(q)) && Distinct(RunIds(q))
    ensures ok <==> ValidQueue(q)
  {
    if q == [] || |q| > MAX_CODING_JOB_QUEUE_ITEMS { return false; }
    for i := 0 to |q|
      invariant forall k :: 0 <= k < i ==> IsJob(q[k])
    {
      if !IsIdentifier(q[i].requestId) || !IsIdentifier(q[i].runId) { return false; }
    }
    var requestIds, runIds := RequestIds(q), RunIds(q);
    DistinctByCounting(requestIds);
    DistinctByCounting(runIds);
    ok := |Elements(requestIds)| == |requestIds| && |Elements(runIds)| == |runIds|;
    assert forall i, j :: 0 <= i < j < |q| ==>
      (requestIds[i] == requestIds[j] <==> q[i].requestId == q[j].requestId)
      && (runIds[i] == runIds[j] <==> q[i].runId == q[j].runId);
  }

  /** _validate_dispatch_deployments, likewise. */
  method ValidateDeployments(q: Queue, sessions: seq<Id>) returns (ok: bool)
    ensures ok <==> |sessions| == |q| && (forall id <- sessions :: IsIdentifier(id)) && Distinct(sessions)
    ensures ok <==> ValidDeployments(q, sessions)
  {
    if |sessions| != |q| { return false; }
    for i := 0 to |sessions|
      invariant forall k :: 0 <= k < i ==> IsIdentifier(sessions[k])
    {
      if !IsIdentifier(sessions[i]) { return false; }
    }
    DistinctByCounting(sessions);
    ok := |Elements(sessions)| == |sessions|;
  }

  /** The first `k` items have finished, and were new; from item `rest` on nothing has happened. */
  ghost predicate Progress(w: World, before: Root, root: Root, q: Queue, sessions: seq<Id>, k: nat, rest: nat)
    requires k <= |q| == |sessions|
  {
    && (forall i :: 0 <= i < k ==> Finished(w, root, q[i], sessions[i]) && q[i] !in before)
    && (forall i :: rest <= i < |q| ==> Same(before, root, q[i]))
  }

  ghost predicate Same(before: Root, root: Root, job: Job) {
    (job in root <==> job in before) && (job in root ==> root[job] == before[job])
  }

  lemma ProgressKept(w: World, before: Root, root: Root, root': Root, q: Queue, sessions: seq<Id>, k: nat)
    requires ValidQueue(q) && k < |q| == |sessions| && Progress(w, before, root, q, sessions, k, k)
    requires OthersKept(root, root', q[k])
    ensures Progress(w, before, root', q, sessions, k, k + 1)
    ensures Finished(w, root', q[k], sessions[k]) && q[k] !in root ==>
      Progress(w, before, root', q, sessions, k + 1, k + 1)
  {
    forall i | 0 <= i < |q| && i != k ensures q[i] != q[k] { }
    assert Same(before, root, q[k]);
    forall i | 0 <= i < k ensures Finished(w, root', q[i], sessions[i]) && q[i] !in before {
      assert Finished(w, root, q[i], sessions[i]);
      assert root'[q[i]] == root[q[i]];
    }
    forall i | k + 1 <= i < |q| ensures Same(before, root', q[i]) { assert Same(before, root, q[i]); }
  }

  // ---- the candidates ------------------------------------------------------------------------

  /** The candidate of item `i` was new when dispatch started. It is in the store, durable, and the result names it. */
  ghost predicate Kept(w: World, codec: CandidateStore.Codec, before: FileSystem.Disk, disk: FileSystem.Disk,
                       job: Job, session: Id, r: IntegrationResult) {
    && CandidateOf(w, job, session).Some?
    && var c := CandidateOf(w, job, session).value;
    && r == ResultFor(w, job, c) && CandidateStore.Publishable(codec, before, c)
       && CandidateStore.Published(codec, disk, c)
  }

  /** The first `k` candidates are kept, and nothing else has come into the store. */
  ghost predicate Collected(w: World, codec: CandidateStore.Codec, before: FileSystem.Disk, disk: FileSystem.Disk,
                            q: Queue, sessions: seq<Id>, results: seq<IntegrationResult>)
    requires |results| <= |q| == |sessions|
  {
    && Stored(codec, before, disk)
    && (forall i :: 0 <= i < |results| ==> Kept(w, codec, before, disk, q[i], sessions[i], results[i]))
    && (forall p :: p in disk.live && p !in before.live ==>
          exists i :: 0 <= i < |results| && p == CandidateStore.Final(results[i].candidateId))
    && (results == [] ==> disk == before)
    && (results != [] ==> CandidateStore.NoTemporaries(disk))
  }

  lemma CollectedGrows(w: World, codec: CandidateStore.Codec, before: FileSystem.Disk, disk: FileSystem.Disk,
                       disk': FileSystem.Disk, q: Queue, sessions: seq<Id>, results: seq<IntegrationResult>,
                       r: IntegrationResult)
    requires |results| < |q| == |sessions| && Collected(w, codec, before, disk, q, sessions, results)
    requires Stored(codec, disk, disk')
    requires Delivers(w, codec, disk, disk', q[|results|], sessions[|results|], r)
    ensures Collected(w, codec, before, disk', q, sessions, results + [r])
  {
    var more := results + [r];
    forall i | 0 <= i < |more| ensures Kept(w, codec, before, disk', q[i], sessions[i], more[i]) {
      if i < |results| { assert Kept(w, codec, before, disk, q[i], sessions[i], results[i]); }
    }
    forall p | p in disk'.live && p !in before.live
      ensures exists i :: 0 <= i < |more| && p == CandidateStore.Final(more[i].candidateId)
    {
      if p in disk.live {
        var i :| 0 <= i < |results| && p == CandidateStore.Final(results[i].candidateId);
        assert more[i] == results[i];
      } else {
        assert p in disk'.live.Keys;
        assert p == CandidateStore.Final(more[|results|].candidateId);
      }
    }
  }

  /** What the earlier items have stored is never in a later one's way: sessions differ, so candidates do. */
  lemma StillPublishable(w: World, codec: CandidateStore.Codec, before: FileSystem.Disk, disk: FileSystem.Disk,
                         q: Queue, sessions: seq<Id>, results: seq<IntegrationResult>, k: nat)
    requires |results| <= k < |q| == |sessions| && ValidDeployments(q, sessions) && w.hashes.Injective()
    requires Collected(w, codec, before, disk, q, sessions, results)
    ensures Completes(w, codec, disk, q[k], sessions[k]) <==> Completes(w, codec, before, q[k], sessions[k])
  {
    var c := CandidateOf(w, q[k], sessions[k]);
    if c.Some? {
      CandidateIsBound(w, q[k], sessions[k]);
      var name := CandidateStore.Final(c.value.id);
      if name in disk.live && name !in before.live {
        var i :| 0 <= i < |results| && name == CandidateStore.Final(results[i].candidateId);
        assert sessions[i] != sessions[k];
        assert Kept(w, codec, before, disk, q[i], sessions[i], results[i]);
        CandidateIsBound(w, q[i], sessions[i]);
        CandidateStore.RecordNameDetermines(c.value.id, results[i].candidateId);
        assert false;
      }
    }
  }

  // ---- the dispatch --------------------------------------------------------------------------

  /** The journal works and the jobs are new in it. */
  ghost predicate Fresh(root: Root, q: Queue) { RootValid(root) && forall i :: 0 <= i < |q| ==> q[i] !in root }

  /** The store works and nothing is in the way in it. */
  ghost predicate Open(store: CandidateStore.Store)
    reads store
  {
    store.Calm() && CandidateStore.NoTemporaries(store.disk)
  }

  /** Every job of the queue yields a candidate that the store can take. */
  ghost predicate AllComplete(w: World, codec: CandidateStore.Codec, disk: FileSystem.Disk, q: Queue, sessions: seq<Id>)
    requires |sessions| == |q|
  {
    forall i :: 0 <= i < |q| ==> Completes(w, codec, disk, q[i], sessions[i])
  }

  /** One item of the queue. */
  method RunItem(j: Journal, worker: Worker, store: CandidateStore.Store, q: Queue, sessions: seq<Id>, k: nat,
                 ghost before: Root, ghost shelf: FileSystem.Disk, ghost results: seq<IntegrationResult>)
    returns (o: Outcome<IntegrationResult>, ghost saved: bool)
    requires ValidQueue(q) && ValidDeployments(q, sessions) && k < |q| && |results| == k
    requires store.Valid() && store.codec.Canonical()
    requires Progress(worker.world, before, j.root, q, sessions, k, k)
    requires Collected(worker.world, store.codec, shelf, store.disk, q, sessions, results)
    modifies j`tick, j`root, worker`executions, store
    ensures store.Valid() && BothWent(j, old(j.tick), store, old(store.tick), o)
    ensures Progress(worker.world, before, j.root, q, sessions, k, k + 1)
    ensures worker.executions == old(worker.executions)
            || (worker.executions == old(worker.executions) + [q[k]] && Begun(j.root, q[k], sessions[k]))
    ensures o.Done? ==>
      && worker.executions == old(worker.executions) + [q[k]] && RootValid(j.root)
      && Progress(worker.world, before, j.root, q, sessions, k + 1, k + 1)
      && CandidateStore.NoTemporaries(store.disk)
      && Collected(worker.world, store.codec, shelf, store.disk, q, sessions, results + [o.value])
    ensures old(j.Calm()) && RootValid(old(j.root)) && q[k] !in old(j.root) ==>
      && RootValid(j.root)
      && (o.Done? || o.Dead?
          || (&& Fails(worker.world, q[k], sessions[k], saved)
              && Recorded(worker.world, j.root, q[k], sessions[k], saved)))
      && (old(Open(store)) && worker.world.hashes.Injective() ==>
            !o.Dead? && (o.Done? <==> Completes(worker.world, store.codec, shelf, q[k], sessions[k])))
  {
    ghost var w, root, disk := worker.world, j.root, store.disk;
    if w.hashes.Injective() { StillPublishable(w, store.codec, shelf, disk, q, sessions, results, k); }
    o, saved := RunRequest(j, worker, store, q[k], sessions[k]);
    ProgressKept(w, before, root, j.root, q, sessions, k);
    if o.Done? { CollectedGrows(w, store.codec, shelf, disk, store.disk, q, sessions, results, o.value); }
  }

  lemma CollectedIsComplete(w: World, codec: CandidateStore.Codec, before: FileSystem.Disk, disk: FileSystem.Disk,
                            q: Queue, sessions: seq<Id>, results: seq<IntegrationResult>)
    requires |results| == |q| == |sessions| && Collected(w, codec, before, disk, q, sessions, results)
    ensures AllComplete(w, codec, before, q, sessions)
  {
    forall i | 0 <= i < |q| ensures Completes(w, codec, before, q[i], sessions[i]) {
      assert Kept(w, codec, before, disk, q[i], sessions[i], results[i]);
    }
  }

  /** The dispatch of a valid queue. */
  method DispatchAll(j: Journal, worker: Worker, store: CandidateStore.Store, q: Queue, sessions: seq<Id>)
    returns (o: Outcome<seq<IntegrationResult>>, ghost stopped: nat, ghost saved: bool)
    requires ValidQueue(q) && ValidDeployments(q, sessions) && store.Valid() && store.codec.Canonical()
    modifies j`tick, j`root, worker`executions, store
    ensures store.Valid() && BothWent(j, old(j.tick), store, old(store.tick), o)
    ensures stopped <= |q| && (o.Done? ==> stopped == |q|)
    ensures Progress(worker.world, old(j.root), j.root, q, sessions, stopped, stopped + 1)
    ensures worker.executions == old(worker.executions) + q[..stopped]
            || (stopped < |q| && worker.executions == old(worker.executions) + q[..stopped + 1]
                && Begun(j.root, q[stopped], sessions[stopped]))
    ensures o.Done? ==>
      && RootValid(j.root) && |o.value| == |q|
      && Collected(worker.world, store.codec, old(store.disk), store.disk, q, sessions, o.value)
    ensures old(j.Calm()) && Fresh(old(j.root), q) ==>
      || o.Done? || o.Dead?
      || (&& stopped < |q| && Fails(worker.world, q[stopped], sessions[stopped], saved)
          && Recorded(worker.world, j.root, q[stopped], sessions[stopped], saved))
    ensures old(j.Calm()) && Fresh(old(j.root), q) && old(Open(store)) && worker.world.hashes.Injective() ==>
      !o.Dead? && (o.Done? <==> AllComplete(worker.world, store.codec, old(store.disk), q, sessions))
  {
    hide CodingJob.JobOf, CodingJob.CandidateOf, Recorded, Truthful, Kept, CandidateStore.Ordered,
      LifecycleJournal.RootValid, Completes, Begun, Fails, BegunChain;
    stopped, saved := 0, false;
    var results: seq<IntegrationResult> := [];
    ghost var w, before, ran, shelf := worker.world, j.root, worker.executions, store.disk;
    ghost var calm := j.Calm() && Fresh(before, q);
    ghost var open := calm && Open(store) && w.hashes.Injective();
    for k := 0 to |q|
      invariant stopped == k && |results| == k && old(j.tick) <= j.tick && old(store.tick) <= store.tick
      invariant Smooth(j.faults, old(j.tick), j.tick) && Smooth(store.faults, old(store.tick), store.tick)
      invariant Progress(w, before, j.root, q, sessions, k, k) && (0 < k ==> RootValid(j.root))
      invariant store.Valid() && Collected(w, store.codec, shelf, store.disk, q, sessions, results)
      invariant worker.executions == ran + q[..k]
      invariant calm ==> j.Calm() && RootValid(j.root)
      invariant open ==> Open(store)
    {
      assert ran + q[..k + 1] == (ran + q[..k]) + [q[k]];
      assert Same(before, j.root, q[k]);
      var result;
      result, saved := RunItem(j, worker, store, q, sessions, k, before, shelf, results);
      if !result.Done? { return result.PropagateFailure(), stopped, saved; }
      results := results + [result.value];
      stopped := k + 1;
    }
    assert q[..|q|] == q;
    CollectedIsComplete(w, store.codec, shelf, store.disk, q, sessions, results);
    o := Done(results);
  }

  /** run_lab_coding_job_queue. `stopped` is the item at which dispatch stopped, or the number of items, and `saved`
      says whether the candidate of that item was stored. */
  method RunQueue(j: Journal, worker: Worker, store: CandidateStore.Store, q: Queue, sessions: seq<Id>)
    returns (o: Outcome<seq<IntegrationResult>>, ghost stopped: nat, ghost saved: bool)
    requires store.Valid() && store.codec.Canonical()
    modifies j`tick, j`root, worker`executions, store
    ensures store.Valid() && BothWent(j, old(j.tick), store, old(store.tick), o)
    ensures !ValidQueue(q) || !ValidDeployments(q, sessions) ==>
      !o.Done? && j.root == old(j.root) && worker.executions == old(worker.executions) && store.disk == old(store.disk)
    ensures ValidQueue(q) && ValidDeployments(q, sessions) ==>
      && stopped <= |q| && (o.Done? ==> stopped == |q|)
      // Every item before the stop has finished; the item at the stop has not returned; later ones are untouched.
      && Progress(worker.world, old(j.root), j.root, q, sessions, stopped, stopped + 1)
      // Each worker ran at most once, in order, and only behind a durable RUNNING.
      && (worker.executions == old(worker.executions) + q[..stopped]
          || (stopped < |q| && worker.executions == old(worker.executions) + q[..stopped + 1]
              && Begun(j.root, q[stopped], sessions[stopped])))
    ensures o.Done? ==>
      && ValidQueue(q) && ValidDeployments(q, sessions) && RootValid(j.root) && |o.value| == |q|
      && Collected(worker.world, store.codec, old(store.disk), store.disk, q, sessions, o.value)
    // With a working journal, whatever workers and store do, dispatch stops at a job whose chain ends in FAILED or
    // TIMED_OUT, unless the process died.
    ensures ValidQueue(q) && ValidDeployments(q, sessions) && old(j.Calm()) && Fresh(old(j.root), q) ==>
      || o.Done? || o.Dead?
      || (&& stopped < |q| && Fails(worker.world, q[stopped], sessions[stopped], saved)
          && Recorded(worker.world, j.root, q[stopped], sessions[stopped], saved))
    // With a working store besides, it returns exactly if every job yields a candidate that the store can take.
    ensures
      && ValidQueue(q) && ValidDeployments(q, sessions) && old(j.Calm()) && Fresh(old(j.root), q)
      && old(Open(store)) && worker.world.hashes.Injective()
      ==> !o.Dead? && (o.Done? <==> AllComplete(worker.world, store.codec, old(store.disk), q, sessions))
  {
    hide CodingJob.JobOf, CodingJob.CandidateOf, Recorded, Progress, Collected, AllComplete, Begun, Fails,
      CandidateStore.Ordered, LifecycleJournal.RootValid;
    stopped, saved := 0, false;
    var queueOk := ValidateQueue(q);
    var deploymentsOk := ValidateDeployments(q, sessions);
    if !queueOk || !deploymentsOk { return Error, stopped, saved; }
    o, stopped, saved := DispatchAll(j, worker, store, q, sessions);
  }

  // ---- the review packet ---------------------------------------------------------------------

  datatype ReviewItem =
    ReviewItem(lifecycle: Lifecycle, result: IntegrationResult, candidate: CandidateStore.Candidate)

  datatype Packet = Packet(id: Id, queue: Queue, items: seq<ReviewItem>)

  /** SHA-256 over the canonical form of a packet. */
  type PacketHash = (Queue, seq<ReviewItem>) -> Digest

  predicate ValidCandidate(h: Hashes, c: CandidateStore.Candidate) {
    IsIdentifier(c.id) && IsIdentifier(c.session) && c.id == h.candidate(c.session, c.body)
  }

  predicate ValidReviewItem(h: Hashes, x: ReviewItem) {
    && Valid(x.lifecycle) && ValidCandidate(h, x.candidate)
    && x.result.resultId == h.integration(x.result.requestId, x.result.candidateId)
    && x.lifecycle.state == Completed
    && x.lifecycle.job.requestId == x.result.requestId
    && x.lifecycle.evidence.candidate == Some(x.result.candidateId)
    && x.lifecycle.evidence.candidate == Some(x.candidate.id)
    && x.lifecycle.evidence.result == Some(x.result.resultId)
    && x.lifecycle.evidence.session == Some(x.candidate.session)
  }

  /** A valid item is complete, and all of a piece: its snapshot determines the rest, and so does its candidate together
      with the job and the worker's identifiers. An item that differs from a valid one in one part only is refused. */
  lemma ItemIsBound(h: Hashes, x: ReviewItem, y: ReviewItem)
    requires ValidReviewItem(h, x) && h.Injective()
    ensures var e := x.lifecycle.evidence;
            && IsJob(x.lifecycle.job) && x.lifecycle.state == Completed
            && e.session.Some? && e.workerRequest.Some? && e.workerResult.Some? && e.candidate.Some? && e.result.Some?
            && IsIdentifier(x.candidate.id) && x.candidate.id == h.candidate(x.candidate.session, x.candidate.body)
    ensures ValidReviewItem(h, y) && x.lifecycle == y.lifecycle ==> x == y
    ensures
      && ValidReviewItem(h, y) && x.candidate == y.candidate && x.lifecycle.job == y.lifecycle.job
      && x.lifecycle.evidence.workerRequest == y.lifecycle.evidence.workerRequest
      && x.lifecycle.evidence.workerResult == y.lifecycle.evidence.workerResult
      ==> x == y
    ensures ValidReviewItem(h, y) && x.result == y.result ==> x.candidate == y.candidate
  {
  }

  /** The items are consistent and each is the one that the queue has in its place. */
  predicate ItemsMatch(h: Hashes, q: Queue, items: seq<ReviewItem>) {
    && ValidQueue(q) && |items| == |q|
    && forall i :: 0 <= i < |q| ==> ValidReviewItem(h, items[i]) && items[i].lifecycle.job == q[i]
  }

  method CheckItems(h: Hashes, q: Queue, items: seq<ReviewItem>) returns (ok: bool)
    ensures ok <==> ItemsMatch(h, q, items)
  {
    var queueOk := ValidateQueue(q);
    if !queueOk || |items| != |q| { return false; }
    for i := 0 to |q|
      invariant forall k :: 0 <= k < i ==> ValidReviewItem(h, items[k]) && items[k].lifecycle.job == q[k]
    {
      if !ValidReviewItem(h, items[i]) || items[i].lifecycle.job != q[i] { return false; }
    }
    ok := true;
  }

  /** validate_lab_coding_review_packet. */
  method ValidatePacket(h: Hashes, packetId: PacketHash, p: Packet) returns (ok: bool)
    ensures ok <==> ItemsMatch(h, p.queue, p.items) && p.id == packetId(p.queue, p.items)
  {
    if !IsIdentifier(p.id) { return false; }
    var matching := CheckItems(h, p.queue, p.items);
    ok := matching && p.id == packetId(p.queue, p.items);
  }

  /** build_lab_coding_review_packet: a packet is built exactly from matching items, and what is built validates. */
  method BuildPacket(h: Hashes, packetId: PacketHash, q: Queue, items: seq<ReviewItem>) returns (r: Option<Packet>)
    ensures r.Some? <==> ItemsMatch(h, q, items)
    ensures r.Some? ==> r.value.queue == q && r.value.items == items && r.value.id == packetId(q, items)
  {
    var matching := CheckItems(h, q, items);
    if !matching { return None; }
    var p := Packet(packetId(q, items), q, items);
    var ok := ValidatePacket(h, packetId, p);
    r := if ok then Some(p) else None;
  }

  /** What a reviewer gathers for a finished job: the last snapshot, the result and the candidate. */
  predicate Gathered(w: World, job: Job, session: Id, x: ReviewItem) {
    && CandidateOf(w, job, session) == Some(x.candidate)
    && x.lifecycle == FinalFor(w, job, session, true) && x.result == ResultFor(w, job, x.candidate)
  }

  /** Chain and candidate of a job are durable. */
  ghost predicate Due(w: World, codec: CandidateStore.Codec, before: FileSystem.Disk, disk: FileSystem.Disk, root: Root,
                      job: Job, session: Id, r: IntegrationResult) {
    Finished(w, root, job, session) && Kept(w, codec, before, disk, job, session, r)
  }

  /** After a full dispatch the packet of what is durable validates: in particular every candidate comes from the
      session its job was deployed in. */
  lemma DispatchIsReviewable(w: World, root: Root, q: Queue, sessions: seq<Id>, items: seq<ReviewItem>)
    requires ValidQueue(q) && ValidDeployments(q, sessions) && |items| == |q|
    requires forall i :: 0 <= i < |q| ==>
      Finished(w, root, q[i], sessions[i]) && Gathered(w, q[i], sessions[i], items[i])
    ensures ItemsMatch(w.hashes, q, items)
  {
    forall i | 0 <= i < |q| ensures ValidReviewItem(w.hashes, items[i]) && items[i].lifecycle.job == q[i] {
      assert Finished(w, root, q[i], sessions[i]);
      FinalIsLegal(w, q[i], sessions[i], true);
      CandidateIsBound(w, q[i], sessions[i]);
    }
  }

  /** Reload one lifecycle and the candidate its result names. */
  method GatherOne(j: Journal, store: CandidateStore.Store, ghost w: World, ghost before: FileSystem.Disk, job: Job,
                   ghost session: Id, r: IntegrationResult)
    returns (o: Outcome<ReviewItem>)
    requires store.Valid() && store.codec.Canonical()
    requires Due(w, store.codec, before, store.disk, j.root, job, session, r)
    modifies j`tick, j`root, store`tick, store`disk
    ensures j.root == old(j.root) && store.disk == old(store.disk)
    ensures old(j.tick) <= j.tick && old(store.tick) <= store.tick
    ensures o.Done? ==> Gathered(w, job, session, o.value)
    ensures old(j.Calm()) && old(Open(store)) && RootValid(j.root) ==> o.Done?
  {
    var loaded;
    ghost var chain;
    loaded, chain := j.Load(job);
    var last :- loaded;
    OneChain(j.root[job].files, job, chain, ChainFor(w, job, session, true, 3));
    ghost var c := CandidateOf(w, job, session).value;
    var candidate :- store.Load(r.candidateId);
    CandidateStore.LoadsWhatWasPersisted(store.codec, store.disk, store.disk, c, candidate);
    o := Done(ReviewItem(last.0, r, candidate));
  }

  /** Reload everything that the packet needs. */
  method Gather(j: Journal, store: CandidateStore.Store, ghost w: World, ghost before: FileSystem.Disk, q: Queue,
                ghost sessions: seq<Id>, results: seq<IntegrationResult>)
    returns (o: Outcome<seq<ReviewItem>>)
    requires store.Valid() && store.codec.Canonical() && |results| == |q| == |sessions|
    requires forall i :: 0 <= i < |q| ==>
      Due(w, store.codec, before, store.disk, j.root, q[i], sessions[i], results[i])
    modifies j`tick, j`root, store`tick, store`disk
    ensures j.root == old(j.root)
    ensures o.Done? ==> |o.value| == |q| && forall i :: 0 <= i < |q| ==> Gathered(w, q[i], sessions[i], o.value[i])
    ensures old(j.Calm()) && old(Open(store)) && RootValid(j.root) ==> o.Done?
  {
    hide Due, Gathered, CandidateStore.Ordered, LifecycleJournal.RootValid;
    var items: seq<ReviewItem> := [];
    for i := 0 to |q|
      invariant j.root == old(j.root) && store.disk == old(store.disk) && store.Valid()
      invariant old(j.tick) <= j.tick && old(store.tick) <= store.tick && |items| == i
      invariant forall k :: 0 <= k < i ==> Gathered(w, q[k], sessions[k], items[k])
    {
      assert Due(w, store.codec, before, store.disk, j.root, q[i], sessions[i], results[i]);
      var item :- GatherOne(j, store, w, before, q[i], sessions[i], results[i]);
      items := items + [item];
    }
    o := Done(items);
  }

  /** Dispatch, reload, build and validate. Whatever happens on the way, a packet that can be gathered after a full
      dispatch is built and validates; and without a failing call one is, exactly if every job yields a candidate. */
  method DispatchAndReview(j: Journal, worker: Worker, store: CandidateStore.Store, q: Queue, sessions: seq<Id>,
                           packetId: PacketHash)
    returns (o: Outcome<Option<Packet>>)
    requires ValidQueue(q) && ValidDeployments(q, sessions) && store.Valid() && store.codec.Canonical()
    modifies j`tick, j`root, worker`executions, store
    ensures o.Done? ==>
      && o.value.Some? && ItemsMatch(worker.world.hashes, q, o.value.value.items) && o.value.value.queue == q
      && forall i :: 0 <= i < |q| ==> o.value.value.items[i].candidate.session == sessions[i]
    ensures
      && old(j.Calm()) && Fresh(old(j.root), q) && old(Open(store)) && worker.world.hashes.Injective()
      ==> (o.Done? <==> AllComplete(worker.world, store.codec, old(store.disk), q, sessions))
  {
    ghost var w, before := worker.world, store.disk;
    ghost var stopped, saved;
    var dispatched;
    dispatched, stopped, saved := RunQueue(j, worker, store, q, sessions);
    var results :- dispatched;
    forall i | 0 <= i < |q| ensures Due(w, store.codec, before, store.disk, j.root, q[i], sessions[i], results[i]) {
      assert Finished(w, j.root, q[i], sessions[i]);
      assert Kept(w, store.codec, before, store.disk, q[i], sessions[i], results[i]);
    }
    var items :- Gather(j, store, w, before, q, sessions, results);
    DispatchIsReviewable(w, j.root, q, sessions, items);
    forall i | 0 <= i < |q| ensures items[i].candidate.session == sessions[i] {
      CandidateIsBound(w, q[i], sessions[i]);
    }
    var p := BuildPacket(worker.world.hashes, packetId, q, items);
    o := Done(p);
  }
}
