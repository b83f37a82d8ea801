/** The lifecycle of a coding job: a pure transition system over frozen records. */
module JobLifecycle {
  import opened Basics

  type Id = string

  predicate LowerHex(c: char) { '0' <= c <= '9' || 'a' <= c <= 'f' }

  predicate IsIdentifier(s: string) { |s| == 64 && forall c <- s :: LowerHex(c) }

  /** A job's identifier is a hash of the two, so the pair stands for it. */
  datatype Job = Job(requestId: Id, runId: Id)

  datatype State = Requested | Running | Completed | Failed | TimedOut

  /** What a job has shown so far. */
  datatype Evidence = Evidence(session: Option<Id>, workerRequest: Option<Id>, workerResult: Option<Id>,
                               candidate: Option<Id>, result: Option<Id>)

  const NOTHING := Evidence(None, None, None, None, None)

  /** One snapshot; its identifier is a hash of the rest, so the record stands for it. */
  datatype Lifecycle = Lifecycle(job: Job, state: State, evidence: Evidence)

  predicate Allowed(from: State, to: State) {
    match from
    case Requested => to == Running || to == Failed
    case Running => to == Completed || to == Failed || to == TimedOut
    case _ => false
  }

  predicate Terminal(s: State) { s == Completed || s == Failed || s == TimedOut }

  predicate OptionalIdentifier(id: Option<Id>) { id.Some? ==> IsIdentifier(id.value) }

  predicate StateInvariants(s: State, e: Evidence) {
    && (e.workerRequest.Some? ==> e.session.Some?)
    && (e.workerResult.Some? ==> e.workerRequest.Some?)
    && match s
       case Requested => e == NOTHING
       case Running => e.session.Some? && e.workerResult.None? && e.candidate.None? && e.result.None?
       case Completed =>
         e.session.Some? && e.workerRequest.Some? && e.workerResult.Some? && e.candidate.Some? && e.result.Some?
       case Failed => e.candidate.None? && e.result.None?
       case TimedOut => e.candidate.None? && e.result.None? && e.session.Some?
  }

  predicate Valid(l: Lifecycle) {
    && IsIdentifier(l.job.requestId) && IsIdentifier(l.job.runId)
    && OptionalIdentifier(l.evidence.session) && OptionalIdentifier(l.evidence.workerRequest)
    && OptionalIdentifier(l.evidence.workerResult) && OptionalIdentifier(l.evidence.candidate)
    && OptionalIdentifier(l.evidence.result)
    && StateInvariants(l.state, l.evidence)
  }

  function Build(job: Job): (r: Option<Lifecycle>)
    ensures r.Some? ==> Valid(r.value)
  {
    if IsIdentifier(job.requestId) && IsIdentifier(job.runId) then Some(Lifecycle(job, Requested, NOTHING)) else None
  }

  /** An identifier may be recorded once and repeated, never changed or taken back. */
  function Advance(current: Option<Id>, supplied: Option<Id>): Option<Option<Id>> {
    if supplied.None? then Some(current)
    else if !IsIdentifier(supplied.value) || (current.Some? && supplied != current) then None
    else Some(supplied)
  }

  function AdvanceAll(current: Evidence, supplied: Evidence): Option<Evidence> {
    var session := Advance(current.session, supplied.session);
    var workerRequest := Advance(current.workerRequest, supplied.workerRequest);
    var workerResult := Advance(current.workerResult, supplied.workerResult);
    var candidate := Advance(current.candidate, supplied.candidate);
    var result := Advance(current.result, supplied.result);
    if session.None? || workerRequest.None? || workerResult.None? || candidate.None? || result.None? then None
    else Some(Evidence(session.value, workerRequest.value, workerResult.value, candidate.value, result.value))
  }

  function Transition(current: Lifecycle, state: State, supplied: Evidence): (r: Option<Lifecycle>)
    ensures r.Some? ==> Valid(r.value)
  {
    if !Valid(current) || !Allowed(current.state, state) then None
    else
      var evidence := AdvanceAll(current.evidence, supplied);
      if evidence.None? || !StateInvariants(state, evidence.value) then None
      else Some(Lifecycle(current.job, state, evidence.value))
  }

  /** From a valid snapshot exactly these steps are possible, with suitable evidence. */
  lemma SuccessorStates(l: Lifecycle, state: State)
    requires Valid(l)
    ensures (exists e :: Transition(l, state, e).Some?)
       <==> (l.state, state) in {(Requested, Running), (Requested, Failed),
                                 (Running, Completed), (Running, Failed), (Running, TimedOut)}
  {
    var id := Some(seq(64, _ => '0'));
    if (l.state, state) == (Requested, Running) {
      assert Transition(l, state, NOTHING.(session := id)).Some?;
    } else if (l.state, state) == (Running, Completed) {
      var e := Evidence(l.evidence.session, if l.evidence.workerRequest.Some? then l.evidence.workerRequest else id,
                        id, id, id);
      assert Transition(l, state, e).Some?;
    } else if state == Failed || state == TimedOut {
      assert Allowed(l.state, state) ==> Transition(l, state, NOTHING).Some?;
    }
  }

  /** The identifiers that a snapshot names, in the order in which they come about. */
  function Named(l: Lifecycle): seq<Option<Id>> {
    [Some(l.job.requestId), Some(l.job.runId), l.evidence.session, l.evidence.workerRequest, l.evidence.workerResult,
     l.evidence.candidate, l.evidence.result]
  }

  /** What a valid snapshot has shown: candidate and result exactly if it is COMPLETED, then with everything before
      them; and nothing yet if it is REQUESTED. Whatever it names is an identifier. */
  lemma EvidenceMeans(l: Lifecycle)
    requires Valid(l)
    ensures l.evidence.candidate.Some? <==> l.state == Completed
    ensures l.evidence.result.Some? <==> l.state == Completed
    ensures l.state == Completed ==> l.evidence.workerResult.Some?
    ensures l.evidence.workerResult.Some? ==> l.evidence.workerRequest.Some? && Terminal(l.state)
    ensures l.evidence.workerRequest.Some? || l.state == TimedOut || l.state == Running ==> l.evidence.session.Some?
    ensures l.state == Requested ==> l.evidence == NOTHING
    ensures forall id <- Named(l) :: id.Some? ==> |id.value| == 64 && forall c <- id.value :: LowerHex(c)
  {
  }

  predicate Kept(before: Option<Id>, after: Option<Id>) { before.Some? ==> after == before }

  /** Nothing that was recorded is changed or lost. */
  predicate Extends(before: Evidence, after: Evidence) {
    && Kept(before.session, after.session) && Kept(before.workerRequest, after.workerRequest)
    && Kept(before.workerResult, after.workerResult) && Kept(before.candidate, after.candidate)
    && Kept(before.result, after.result)
  }

  /** A chain of snapshots of one job, each the legal successor of the one before. */
  ghost predicate Legal(job: Job, chain: seq<Lifecycle>) {
    && chain != [] && Build(job) == Some(chain[0])
    && forall i :: 0 < i < |chain| ==> Succeeds(chain, i)
  }

  predicate Succeeds(chain: seq<Lifecycle>, i: nat)
    requires 0 < i < |chain|
  {
    Transition(chain[i - 1], chain[i].state, chain[i].evidence) == Some(chain[i])
  }

  function Stage(s: State): nat {
    match s
    case Requested => 0
    case Running => 1
    case _ => 2
  }

  /** Along a legal chain the job stays the same, the stage climbs and the evidence only grows. */
  lemma {:induction false} ChainGrows(job: Job, chain: seq<Lifecycle>, i: nat, j: nat)
    requires Legal(job, chain) && i <= j < |chain|
    ensures chain[i].job == chain[j].job == job && Valid(chain[j])
    ensures Stage(chain[i].state) + j - i <= Stage(chain[j].state)
    ensures Extends(chain[i].evidence, chain[j].evidence)
    decreases j
  {
    if 0 < j {
      assert Succeeds(chain, j);
      ChainGrows(job, chain, if i < j then i else j - 1, j - 1);
    }
  }

  /** So a legal chain has one to three snapshots and ends, if it has three, in a terminal state. */
  lemma ChainIsShort(job: Job, chain: seq<Lifecycle>)
    requires Legal(job, chain)
    ensures 1 <= |chain| <= 3 && (|chain| == 3 ==> Terminal(chain[2].state))
    ensures chain[0].state == Requested
  {
    ChainGrows(job, chain, 0, |chain| - 1);
  }
}
