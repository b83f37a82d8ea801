/** The durable store of one-use human promotion approvals.

    Every operation runs under an exclusive lock, so operations follow one another; but each of them
    is a series of file creations, any of which may fail or be the last thing the process does. What
    such an operation leaves behind - a directory without its record, a record cut short - stays. */
module ApprovalStore {
  import opened Basics

  type Id = string

  /** Clock readings, in microseconds. */
  type Time = int

  const CHALLENGE_MAX_LIFETIME: Time := 3 * 60 * 60 * 1_000_000
  const APPROVAL_MAX_LIFETIME: Time := 30 * 1_000_000

  datatype Challenge = Challenge(id: Id, proposalId: Id, createdAt: Time, expiresAt: Time)

  datatype Verdict = Approved(approvalId: Id) | Rejected | Lapsed

  datatype Decision = Decision(challengeId: Id, proposalId: Id, verdict: Verdict, decidedAt: Time)

  datatype Approval = Approval(challengeId: Id, proposalId: Id, id: Id,
                               approvedAt: Time, createdAt: Time, expiresAt: Time)

  datatype TerminalState = Consumed(runId: Id) | Revoked | Expired

  datatype Terminal = Terminal(approvalId: Id, proposalId: Id, state: TerminalState, terminalAt: Time)

  /** A record file: not there, begun (empty or cut short), or complete. */
  datatype File<T> = Missing | Begun | Whole(record: T)

  datatype ChallengeDir = ChallengeDir(challenge: File<Challenge>, decision: File<Decision>)

  datatype ApprovalDir = ApprovalDir(approval: File<Approval>, terminal: File<Terminal>)

  datatype Store = Store(challenges: map<Id, ChallengeDir>, approvals: map<Id, ApprovalDir>)

  predicate ValidChallenge(c: Challenge) {
    c.createdAt < c.expiresAt && c.expiresAt - c.createdAt <= CHALLENGE_MAX_LIFETIME
  }

  predicate ValidApproval(a: Approval) {
    a.approvedAt <= a.createdAt < a.expiresAt && a.expiresAt - a.createdAt <= APPROVAL_MAX_LIFETIME
  }

  /** The challenge under `id` and its decision, if the directory is in one of its two proper states. */
  function LoadChallenge(s: Store, id: Id): (r: Option<(Challenge, Option<Decision>)>) {
    if id !in s.challenges then None
    else match s.challenges[id]
    case ChallengeDir(Whole(c), Missing) =>
      if ValidChallenge(c) && c.id == id then Some((c, None)) else None
    case ChallengeDir(Whole(c), Whole(d)) =>
      if ValidChallenge(c) && c.id == id && d.challengeId == id && d.proposalId == c.proposalId
      then Some((c, Some(d))) else None
    case _ => None
  }

  function LoadApproval(s: Store, id: Id): (r: Option<(Approval, Option<Terminal>)>) {
    if id !in s.approvals then None
    else match s.approvals[id]
    case ApprovalDir(Whole(a), Missing) =>
      if ValidApproval(a) && a.id == id then Some((a, None)) else None
    case ApprovalDir(Whole(a), Whole(t)) =>
      if ValidApproval(a) && a.id == id && t.approvalId == id && t.proposalId == a.proposalId
      then Some((a, Some(t))) else None
    case _ => None
  }

  /** The approval is backed by a durable approved decision that names it. */
  predicate Backed(s: Store, a: Approval) {
    var loaded := LoadChallenge(s, a.challengeId);
    && loaded.Some?
    && loaded.value.0.proposalId == a.proposalId
    && loaded.value.1.Some?
    && loaded.value.1.value.verdict == Approved(a.id)
  }

  datatype Answer = Answer(status: string, approval: Approval, terminal: Option<Terminal>)

  /** query_promotion_approval at a given time; None where it raises. */
  function Query(s: Store, id: Id, proposalId: Id, now: Time): (r: Option<Answer>) {
    var loaded := LoadApproval(s, id);
    if loaded.None? then None
    else
      var (a, t) := loaded.value;
      if a.proposalId != proposalId || !Backed(s, a) then None
      else match t
      case Some(terminal) =>
        Some(Answer(match terminal.state
                    case Consumed(_) => "consumed"
                    case Revoked => "revoked"
                    case Expired => "expired",
                    a, t))
      case None =>
        if now < a.createdAt then None
        else Some(Answer(if now >= a.expiresAt then "expired" else "approved", a, None))
  }

  /** The approval may be used now. */
  predicate Allows(s: Store, id: Id, proposalId: Id, now: Time) {
    Query(s, id, proposalId, now).Some? && Query(s, id, proposalId, now).value.status == "approved"
  }

  /** An attempt to consume the approval gets as far as claiming its terminal file. */
  predicate Claimable(s: Store, id: Id, proposalId: Id) {
    var loaded := LoadApproval(s, id);
    && loaded.Some? && loaded.value.1.None? && loaded.value.0.proposalId == proposalId && Backed(s, loaded.value.0)
  }

  /** What an attempt at `now` for `runId` writes into the claimed file: the approval is consumed inside its window,
      revoked if the clock is before it, and expired if it is behind it. */
  predicate SettledBy(a: Approval, t: Terminal, runId: Id, now: Time) {
    && t.approvalId == a.id && t.proposalId == a.proposalId && t.terminalAt == now
    && (t.state == Revoked <==> now < a.createdAt)
    && (t.state == Expired <==> a.expiresAt <= now)
    && (t.state == Consumed(runId) <==> a.createdAt <= now < a.expiresAt)
  }

  // ---- what every reachable store satisfies --------------------------------------------------

  predicate Undecided(s: Store, id: Id)
    requires id in s.challenges
  {
    LoadChallenge(s, id).None? || LoadChallenge(s, id).value.1.None?
  }

  ghost predicate OneUndecided(s: Store) {
    forall x, y :: x in s.challenges && y in s.challenges && Undecided(s, x) && Undecided(s, y) ==> x == y
  }

  /** Where an approval record stands, its decision stands, and it was made inside the challenge's window. */
  ghost predicate ApprovalsBacked(s: Store) {
    forall id :: id in s.approvals && s.approvals[id].approval.Whole? ==>
      var a := s.approvals[id].approval.record;
      && a.id == id && ValidApproval(a) && Backed(s, a)
      && var c := LoadChallenge(s, a.challengeId).value.0; c.createdAt <= a.createdAt < c.expiresAt
  }

  /** Where a terminal file stands, an approval record stands; a consumption happened inside its window. */
  ghost predicate TerminalsInWindow(s: Store) {
    forall id :: id in s.approvals && !s.approvals[id].terminal.Missing? ==>
      && s.approvals[id].approval.Whole?
      && (s.approvals[id].terminal.Whole? ==>
            var a, t := s.approvals[id].approval.record, s.approvals[id].terminal.record;
            && t.approvalId == id && t.proposalId == a.proposalId
            && (t.state.Consumed? ==> a.createdAt <= t.terminalAt < a.expiresAt))
  }

  ghost predicate Sound(s: Store) { OneUndecided(s) && ApprovalsBacked(s) && TerminalsInWindow(s) }

  predicate ConsumedBy(s: Store, id: Id, proposalId: Id, runId: Id) {
    && id in s.approvals && s.approvals[id].approval.Whole? && s.approvals[id].terminal.Whole?
    && s.approvals[id].terminal.record.approvalId == id
    && s.approvals[id].terminal.record.proposalId == proposalId
    && s.approvals[id].terminal.record.state == Consumed(runId)
    && s.approvals[id].approval.record.proposalId == proposalId
    && s.approvals[id].approval.record.id == id
    && Backed(s, s.approvals[id].approval.record)
  }

  /** The approval was consumed for the run at exactly this time. */
  predicate Confirms(s: Store, id: Id, proposalId: Id, runId: Id, terminalAt: Time) {
    ConsumedBy(s, id, proposalId, runId) && s.approvals[id].terminal.record.terminalAt == terminalAt
  }

  /** In a reachable store a query reports every consumption, at any time, with its run and its time. */
  lemma ConfirmedIsReported(s: Store, id: Id, proposalId: Id, runId: Id, terminalAt: Time, now: Time)
    requires Sound(s)
    ensures Confirms(s, id, proposalId, runId, terminalAt)
       <==> var q := Query(s, id, proposalId, now);
            && q.Some? && q.value.status == "consumed" && q.value.terminal.Some?
            && q.value.terminal.value.state == Consumed(runId)
            && q.value.terminal.value.terminalAt == terminalAt
  {
  }

  /** Nothing that an operation has left, complete or not, is touched by a later one, except that a decision or a
      terminal may be added. */
  ghost predicate Grows(s: Store, t: Store) {
    && (forall id :: id in s.challenges ==>
          && id in t.challenges
          && t.challenges[id].challenge == s.challenges[id].challenge
          && (!s.challenges[id].decision.Missing? ==> t.challenges[id].decision == s.challenges[id].decision))
    && (forall id :: id in s.approvals ==>
          && id in t.approvals
          && t.approvals[id].approval == s.approvals[id].approval
          && (!s.approvals[id].terminal.Missing? ==> t.approvals[id].terminal == s.approvals[id].terminal))
  }

  /** A new challenge may be made: every directory loads, and every challenge is decided or over. */
  ghost predicate Creatable(s: Store, now: Time) {
    forall x :: x in s.challenges ==> Closed(s, x, now)
  }

  predicate Closed(s: Store, x: Id, now: Time) {
    var loaded := LoadChallenge(s, x);
    loaded.Some? && (loaded.value.1.None? ==> loaded.value.0.expiresAt <= now)
  }

  /** A decision about the challenge gets as far as being written: it is this proposal's, undecided, and made. */
  predicate Pending(s: Store, id: Id, proposalId: Id, now: Time) {
    var loaded := LoadChallenge(s, id);
    && loaded.Some? && loaded.value.1.None? && loaded.value.0.proposalId == proposalId
    && loaded.value.0.createdAt <= now
  }

  /** The challenge is this proposal's, undecided, and its window is open. */
  predicate Decidable(s: Store, id: Id, proposalId: Id, now: Time) {
    var loaded := LoadChallenge(s, id);
    && loaded.Some? && loaded.value.1.None? && loaded.value.0.proposalId == proposalId
    && loaded.value.0.createdAt <= now < loaded.value.0.expiresAt
  }

  /** A challenge directory that a crash left incomplete never loads again, so no challenge can be made any more. */
  lemma PartialBlocksForever(s: Store, t: Store, x: Id, now: Time)
    requires Grows(s, t) && x in s.challenges && LoadChallenge(s, x).None?
    ensures LoadChallenge(t, x).None? && !Creatable(t, now)
  {
    assert t.challenges[x].challenge == s.challenges[x].challenge;
    assert !Closed(t, x, now);
  }

  /** In every reachable store a consumption lies strictly before three hours and thirty seconds after
      its challenge was made, whatever the clock did. */
  lemma ConsumptionWindow(s: Store, id: Id)
    requires Sound(s)
    requires id in s.approvals && s.approvals[id].terminal.Whole? && s.approvals[id].terminal.record.state.Consumed?
    ensures s.approvals[id].approval.Whole?
    ensures var a := s.approvals[id].approval.record;
            && LoadChallenge(s, a.challengeId).Some?
            && LoadChallenge(s, a.challengeId).value.1 .Some?
            && LoadChallenge(s, a.challengeId).value.1.value.verdict == Approved(id)
            && LoadChallenge(s, a.challengeId).value.0.proposalId
               == a.proposalId == s.approvals[id].terminal.record.proposalId
            && s.approvals[id].terminal.record.terminalAt
               < LoadChallenge(s, a.challengeId).value.0.createdAt + 10_830 * 1_000_000
  {
    var a := s.approvals[id].approval.record;
    assert Backed(s, a);
  }

  /** Once the terminal file of an approval is claimed, complete or not, no query ever answers
      "approved" again, in this store or in any store it grows into. */
  lemma ClaimedIsNeverApproved(s: Store, t: Store, id: Id, proposalId: Id, now: Time)
    requires id in s.approvals && !s.approvals[id].terminal.Missing?
    requires Grows(s, t)
    ensures Query(t, id, proposalId, now).Some? ==> Query(t, id, proposalId, now).value.status != "approved"
  {
    assert t.approvals[id].terminal == s.approvals[id].terminal;
  }

  /** What an attempt has written is what every query reports from then on, whenever it is made: which of the three
      it is depends on the time of the attempt alone. */
  lemma AttemptIsReported(s: Store, id: Id, runId: Id, at: Time, t: Store, now: Time)
    requires Sound(s) && Grows(s, t) && id in s.approvals && s.approvals[id].approval.Whole?
    requires s.approvals[id].terminal.Whole?
    requires SettledBy(s.approvals[id].approval.record, s.approvals[id].terminal.record, runId, at)
    ensures var a, terminal := s.approvals[id].approval.record, s.approvals[id].terminal.record;
            var q := Query(t, id, a.proposalId, now);
            && q.Some? && q.value.approval == a && q.value.terminal == Some(terminal)
            && (q.value.status == "revoked" <==> at < a.createdAt)
            && (q.value.status == "expired" <==> a.expiresAt <= at)
            && (q.value.status == "consumed" <==> a.createdAt <= at < a.expiresAt)
            && (q.value.status == "consumed" ==> terminal == Terminal(id, a.proposalId, Consumed(runId), at))
  {
    var a := s.approvals[id].approval.record;
    BackedGrows(s, t, a);
    assert t.approvals[id].approval == s.approvals[id].approval;
    assert t.approvals[id].terminal == s.approvals[id].terminal;
  }

  /** Until then the answer depends on the time of the query. */
  lemma UnclaimedIsReported(s: Store, id: Id, proposalId: Id, now: Time)
    requires Claimable(s, id, proposalId)
    ensures var a, q := s.approvals[id].approval.record, Query(s, id, proposalId, now);
            && (q.None? <==> now < a.createdAt)
            && (q.Some? ==> q.value.approval == a && q.value.terminal.None?)
            && (q.Some? && q.value.status == "approved" <==> a.createdAt <= now < a.expiresAt)
            && (q.Some? && q.value.status == "expired" <==> a.expiresAt <= now)
  {
  }

  lemma BackedGrows(s: Store, t: Store, a: Approval)
    requires Backed(s, a) && Grows(s, t)
    ensures Backed(t, a) && LoadChallenge(t, a.challengeId) == LoadChallenge(s, a.challengeId)
  {
    var id := a.challengeId;
    assert t.challenges[id].challenge == s.challenges[id].challenge;
    assert t.challenges[id].decision == s.challenges[id].decision;
  }

  lemma ConsumedGrows(s: Store, t: Store, id: Id, proposalId: Id, runId: Id)
    requires ConsumedBy(s, id, proposalId, runId) && Grows(s, t)
    ensures ConsumedBy(t, id, proposalId, runId)
  {
    BackedGrows(s, t, s.approvals[id].approval.record);
  }

  // ---- the ways in which a store changes -----------------------------------------------------

  ghost predicate ReceiptsKept(s: Store, receipts: seq<Receipt>) {
    && (forall i :: 0 <= i < |receipts| ==>
          ConsumedBy(s, receipts[i].approvalId, receipts[i].proposalId, receipts[i].runId))
    && (forall i, j :: 0 <= i < j < |receipts| ==> receipts[i].approvalId != receipts[j].approvalId)
  }

  lemma ReceiptsSurvive(s: Store, t: Store, receipts: seq<Receipt>)
    requires ReceiptsKept(s, receipts) && Grows(s, t)
    ensures ReceiptsKept(t, receipts)
  {
    forall i | 0 <= i < |receipts|
      ensures ConsumedBy(t, receipts[i].approvalId, receipts[i].proposalId, receipts[i].runId)
    {
      ConsumedGrows(s, t, receipts[i].approvalId, receipts[i].proposalId, receipts[i].runId);
    }
  }

  /** Approvals stay backed when the store grows without touching them. */
  lemma BackingSurvives(s: Store, t: Store)
    requires ApprovalsBacked(s) && Grows(s, t) && t.approvals == s.approvals
    ensures ApprovalsBacked(t)
  {
    forall id | id in t.approvals && t.approvals[id].approval.Whole?
      ensures Backed(t, t.approvals[id].approval.record)
      ensures LoadChallenge(t, t.approvals[id].approval.record.challengeId)
           == LoadChallenge(s, t.approvals[id].approval.record.challengeId)
    {
      BackedGrows(s, t, t.approvals[id].approval.record);
    }
  }

  function WithChallenge(s: Store, id: Id, file: File<Challenge>): Store {
    s.(challenges := s.challenges[id := ChallengeDir(file, Missing)])
  }

  function WithApproval(s: Store, id: Id, file: File<Approval>): Store {
    s.(approvals := s.approvals[id := ApprovalDir(file, Missing)])
  }

  function WithTerminal(s: Store, id: Id, file: File<Terminal>): Store
    requires id in s.approvals
  {
    s.(approvals := s.approvals[id := ApprovalDir(s.approvals[id].approval, file)])
  }

  lemma ChallengeAdded(s: Store, id: Id, dir: ChallengeDir)
    requires Sound(s) && id !in s.challenges && dir.decision.Missing?
    requires forall x :: x in s.challenges ==> !Undecided(s, x)
    ensures var t := s.(challenges := s.challenges[id := dir]);
            Sound(t) && Grows(s, t) && forall x :: x in s.challenges ==> !Undecided(t, x)
  {
    var t := s.(challenges := s.challenges[id := dir]);
    forall x | x in s.challenges ensures LoadChallenge(t, x) == LoadChallenge(s, x) { }
    BackingSurvives(s, t);
  }

  lemma DecisionAdded(s: Store, c: Challenge, file: File<Decision>)
    requires Sound(s) && LoadChallenge(s, c.id) == Some((c, None))
    ensures var t := s.(challenges := s.challenges[c.id := ChallengeDir(Whole(c), file)]);
            Sound(t) && Grows(s, t)
  {
    var t := s.(challenges := s.challenges[c.id := ChallengeDir(Whole(c), file)]);
    DecisionGrows(s, c, file);
    assert OneUndecided(t) by { DecisionOnlySettles(s, c, file); }
    assert ApprovalsBacked(t) by { BackingSurvives(s, t); }
  }

  lemma DecisionGrows(s: Store, c: Challenge, file: File<Decision>)
    requires LoadChallenge(s, c.id) == Some((c, None))
    ensures Grows(s, s.(challenges := s.challenges[c.id := ChallengeDir(Whole(c), file)]))
  {
    assert s.challenges[c.id] == ChallengeDir(Whole(c), Missing);
  }

  lemma DecisionOnlySettles(s: Store, c: Challenge, file: File<Decision>)
    requires OneUndecided(s) && LoadChallenge(s, c.id) == Some((c, None))
    ensures OneUndecided(s.(challenges := s.challenges[c.id := ChallengeDir(Whole(c), file)]))
  {
    var t := s.(challenges := s.challenges[c.id := ChallengeDir(Whole(c), file)]);
    forall x | x in t.challenges && Undecided(t, x) ensures x in s.challenges && Undecided(s, x) {
      if x != c.id { assert LoadChallenge(t, x) == LoadChallenge(s, x); }
    }
  }

  lemma ApprovalAdded(s: Store, id: Id, dir: ApprovalDir)
    requires Sound(s) && id !in s.approvals && dir.terminal.Missing?
    requires dir.approval.Whole? ==>
               var a := dir.approval.record;
               && a.id == id && ValidApproval(a) && Backed(s, a)
               && LoadChallenge(s, a.challengeId).value.0.createdAt <= a.createdAt
               && a.createdAt < LoadChallenge(s, a.challengeId).value.0.expiresAt
    ensures var t := s.(approvals := s.approvals[id := dir]);
            Sound(t) && Grows(s, t)
  {
    var t := s.(approvals := s.approvals[id := dir]);
    SameChallenges(s, t);
  }

  lemma TerminalAdded(s: Store, id: Id, file: File<Terminal>)
    requires Sound(s) && id in s.approvals
    requires s.approvals[id].approval.Whole? && s.approvals[id].terminal.Missing?
    requires file.Whole? ==>
               var a, t := s.approvals[id].approval.record, file.record;
               && t.approvalId == id && t.proposalId == a.proposalId
               && (t.state.Consumed? ==> a.createdAt <= t.terminalAt < a.expiresAt)
    ensures var t := s.(approvals := s.approvals[id := ApprovalDir(s.approvals[id].approval, file)]);
            Sound(t) && Grows(s, t)
  {
    var t := s.(approvals := s.approvals[id := ApprovalDir(s.approvals[id].approval, file)]);
    SameChallenges(s, t);
  }

  lemma SameChallenges(s: Store, t: Store)
    requires t.challenges == s.challenges
    ensures forall x :: LoadChallenge(t, x) == LoadChallenge(s, x)
    ensures forall a :: Backed(t, a) <==> Backed(s, a)
    ensures OneUndecided(s) ==> OneUndecided(t)
  {
    forall x | x in s.challenges ensures Undecided(t, x) == Undecided(s, x) { }
  }

  lemma GrowsTransitive(s: Store, t: Store, u: Store)
    requires Grows(s, t) && Grows(t, u)
    ensures Grows(s, u)
  {
  }

  /** What a decision of `verdict` leaves in the challenge's directory: its record, or a file cut short. */
  predicate Decided(before: ChallengeDir, after: ChallengeDir, verdict: Verdict, now: Time) {
    && before.challenge.Whole? && after.challenge == before.challenge
    && (after.decision == Begun
        || after.decision ==
             Whole(Decision(before.challenge.record.id, before.challenge.record.proposalId, verdict, now)))
  }

  /** The challenge is undecided, and its window is over. */
  predicate Over(s: Store, id: Id, now: Time) {
    var loaded := LoadChallenge(s, id);
    loaded.Some? && loaded.value.1.None? && loaded.value.0.expiresAt <= now
  }

  /** The challenge under `id`, if it is undecided and its window is open. */
  function OpenAt(s: Store, id: Id, now: Time): Option<Challenge> {
    var loaded := LoadChallenge(s, id);
    if loaded.Some? && loaded.value.1.None? && loaded.value.0.createdAt <= now < loaded.value.0.expiresAt
    then Some(loaded.value.0) else None
  }

  /** What expiring makes of challenge `id` if no call fails: it has lapsed if it was over, and is untouched if not. */
  predicate Expires(s: Store, t: Store, id: Id, now: Time)
    requires id in s.challenges && id in t.challenges
  {
    if Over(s, id, now) then
      var c := LoadChallenge(s, id).value.0;
      LoadChallenge(t, id) == Some((c, Some(Decision(id, c.proposalId, Lapsed, now))))
    else t.challenges[id] == s.challenges[id]
  }

  /** A challenge that is over is the only one that is undecided or does not load. */
  lemma OneOver(s: Store, id: Id, x: Id, now: Time)
    requires Sound(s) && id in s.challenges && x in s.challenges && Undecided(s, id) && Over(s, x, now)
    ensures x == id
  {
    assert Undecided(s, x);
  }

  /** Challenge `id` is untouched, or its window was over and it has lapsed. */
  predicate AtMostLapsed(entry: Store, s: Store, id: Id, now: Time)
    requires id in entry.challenges && id in s.challenges
  {
    || s.challenges[id] == entry.challenges[id]
    || (Closed(entry, id, now) && Decided(entry.challenges[id], s.challenges[id], Lapsed, now))
  }

  /** A walk that has `rest` still before it: those are untouched, and the others have at most lapsed. */
  ghost predicate Walked(entry: Store, s: Store, rest: set<Id>, now: Time) {
    && rest <= s.challenges.Keys == entry.challenges.Keys
    && (forall id :: id in rest ==> s.challenges[id] == entry.challenges[id])
    && (forall id :: id in s.challenges ==> AtMostLapsed(entry, s, id, now))
  }

  /** And those behind it have lapsed exactly if they were over. */
  ghost predicate AllExpired(entry: Store, s: Store, rest: set<Id>, now: Time)
    requires s.challenges.Keys == entry.challenges.Keys
  {
    forall id :: id in s.challenges && id !in rest ==> Expires(entry, s, id, now)
  }

  ghost predicate AllClosed(entry: Store, s: Store, rest: set<Id>, now: Time)
    requires s.challenges.Keys == entry.challenges.Keys
  {
    forall id :: id in s.challenges && id !in rest ==> !Undecided(s, id) && Closed(entry, id, now)
  }

  /** Challenges that have at most lapsed still have when a new one has been added. */
  lemma StillLapsed(entry: Store, s: Store, t: Store, id: Id, now: Time)
    requires entry.challenges.Keys == s.challenges.Keys
    requires forall x :: x in entry.challenges ==> AtMostLapsed(entry, s, x, now)
    requires t == s || (id !in s.challenges && exists file :: t == WithChallenge(s, id, file))
    ensures forall x :: x in entry.challenges ==> AtMostLapsed(entry, t, x, now)
    ensures AllExpired(entry, s, {}, now) ==> forall x :: x in entry.challenges ==> Expires(entry, t, x, now)
  {
    forall x | x in entry.challenges
      ensures AtMostLapsed(entry, t, x, now) && (AllExpired(entry, s, {}, now) ==> Expires(entry, t, x, now))
    {
      assert AtMostLapsed(entry, s, x, now) && t.challenges[x] == s.challenges[x];
      assert LoadChallenge(t, x) == LoadChallenge(s, x);
    }
  }

  /** A walk that stops at an undecided challenge has nothing left to expire. */
  lemma NothingElseIsOver(entry: Store, s: Store, rest: set<Id>, id: Id, now: Time)
    requires Sound(entry) && Walked(entry, s, rest, now) && AllExpired(entry, s, rest, now)
    requires id in entry.challenges && id !in rest && Undecided(entry, id)
    ensures AllExpired(entry, s, {}, now)
  {
    forall x | x in s.challenges && x in rest ensures Expires(entry, s, x, now) {
      if Over(entry, x, now) { OneOver(entry, id, x, now); }
    }
  }

  /** The list holds exactly the challenges behind the walk that are open. */
  ghost predicate Reported(entry: Store, pending: seq<Challenge>, rest: set<Id>, now: Time) {
    forall c :: c in pending <==> c.id in entry.challenges && c.id !in rest && OpenAt(entry, c.id, now) == Some(c)
  }

  lemma ReportedOn(entry: Store, pending: seq<Challenge>, rest: set<Id>, id: Id, now: Time)
    requires Reported(entry, pending, rest, now) && id in rest && id in entry.challenges
    ensures var open := OpenAt(entry, id, now);
            Reported(entry, if open.Some? then pending + [open.value] else pending, rest - {id}, now)
  {
  }

  lemma WalkedOn(entry: Store, s: Store, t: Store, rest: set<Id>, id: Id, now: Time)
    requires Walked(entry, s, rest, now) && id in rest && t.challenges.Keys == s.challenges.Keys
    requires forall x :: x in t.challenges && x != id ==> t.challenges[x] == s.challenges[x]
    requires AtMostLapsed(s, t, id, now)
    ensures Walked(entry, t, rest - {id}, now)
    ensures AllExpired(entry, s, rest, now) && Expires(s, t, id, now) ==> AllExpired(entry, t, rest - {id}, now)
    ensures AllClosed(entry, s, rest, now) && !Undecided(t, id) && Closed(s, id, now) ==>
      AllClosed(entry, t, rest - {id}, now)
  {
    assert LoadChallenge(s, id) == LoadChallenge(entry, id);
    forall x | x in t.challenges && x != id ensures LoadChallenge(t, x) == LoadChallenge(s, x) { }
  }

  // ---- the operations ------------------------------------------------------------------------

  /** A consumption that returned to its caller. */
  datatype Receipt = Receipt(approvalId: Id, proposalId: Id, runId: Id)

  /** One call into the store, with the identifier it draws and the clock reading it gets. */
  datatype Request =
    | Create(proposalId: Id, id: Id, now: Time)
    | Decide(id: Id, proposalId: Id, approve: bool, approvalId: Id, now: Time)
    | Consume(id: Id, proposalId: Id, runId: Id, now: Time)

  class Approvals {
    const faults: nat -> Fault
    var tick: nat
    var store: Store

    /** The consumptions that have returned "consumed", in order. */
    var receipts: seq<Receipt>

    constructor (faults: nat -> Fault)
      ensures Safe() && store == Store(map[], map[]) && receipts == [] && tick == 0 && this.faults == faults
    {
      this.faults := faults;
      tick, store, receipts := 0, Store(map[], map[]), [];
    }

    /** The store is sound, every receipt is backed by a consumed terminal, and no approval has two. */
    ghost predicate Safe()
      reads this
    {
      Sound(store) && ReceiptsKept(store, receipts)
    }

    /** Nothing goes wrong from here on. */
    ghost predicate Calm()
      reads this`tick
    {
      forall t :: tick <= t ==> faults(t).Quiet?
    }

    /** One step of an operation: the store becomes `half` or `full`, or stays, as the fault has it. */
    method Perform(half: Store, full: Store) returns (o: Outcome<()>)
      modifies this`tick, this`store
      ensures tick == old(tick) + 1
      ensures store == old(store) || store == half || store == full
      ensures faults(old(tick)).Effective() ==> store == full
      ensures o.Done? <==> faults(old(tick)).Quiet?
      ensures o.Dead? <==> faults(old(tick)).Deadly()
    {
      var fault := faults(tick);
      tick := tick + 1;
      if fault.Effective() { store := full; } else if fault.Partial() { store := half; }
      o := fault.Report(());
    }

    method PersistDecision(c: Challenge, verdict: Verdict, now: Time) returns (o: Outcome<()>)
      requires Safe() && LoadChallenge(store, c.id) == Some((c, None))
      modifies this`tick, this`store
      ensures Went(faults, old(tick), tick, o)
      ensures Safe() && Grows(old(store), store)
      ensures store.approvals == old(store.approvals)
      ensures store.challenges.Keys == old(store.challenges.Keys)
      ensures forall id :: id in store.challenges && id != c.id ==> store.challenges[id] == old(store.challenges[id])
      ensures o.Done? ==> LoadChallenge(store, c.id) == Some((c, Some(Decision(c.id, c.proposalId, verdict, now))))
      ensures store.challenges[c.id] == old(store.challenges)[c.id]
              || Decided(old(store.challenges)[c.id], store.challenges[c.id], verdict, now)
      ensures (old(Calm()) ==> o.Done?)
    {
      var d := Decision(c.id, c.proposalId, verdict, now);
      ghost var before := store;
      DecisionAdded(store, c, Begun);
      DecisionAdded(store, c, Whole(d));
      o := Perform(store.(challenges := store.challenges[c.id := ChallengeDir(Whole(c), Begun)]),
                   store.(challenges := store.challenges[c.id := ChallengeDir(Whole(c), Whole(d))]));
      ReceiptsSurvive(before, store, receipts);
    }

    /** Look at one challenge: write an expired decision if its window is over, report it if it is still open. */
    method ExpireOne(id: Id, now: Time) returns (o: Outcome<Option<Challenge>>)
      requires Safe() && id in store.challenges
      modifies this`tick, this`store
      ensures Went(faults, old(tick), tick, o)
      ensures Safe() && Grows(old(store), store) && store.approvals == old(store.approvals)
      ensures store.challenges.Keys == old(store.challenges.Keys)
      ensures forall x :: x in store.challenges && x != id ==> store.challenges[x] == old(store.challenges)[x]
      ensures AtMostLapsed(old(store), store, id, now)
      ensures o.Done? ==> (o.value.None? <==> Closed(old(store), id, now)) && (o.value.None? ==> !Undecided(store, id))
      ensures o.Done? || old(Calm()) ==> Expires(old(store), store, id, now)
      ensures o.Done? ==> o.value == OpenAt(old(store), id, now)
      ensures old(Calm()) && !o.Done? ==> Undecided(old(store), id) && store == old(store)
      ensures old(Calm()) && Closed(old(store), id, now) ==> o.Done?
    {
      var loaded := LoadChallenge(store, id);
      if loaded.None? { return Error; }
      var (c, decision) := loaded.value;
      if decision.Some? { return Done(None); }
      if now < c.createdAt { return Error; }
      if now < c.expiresAt { return Done(Some(c)); }
      var _ :- PersistDecision(c, Lapsed, now);
      o := Done(None);
    }

    /** The next challenge of a walk. */
    method ExpireNext(ghost entry: Store, ghost rest: set<Id>, id: Id, now: Time)
      returns (o: Outcome<Option<Challenge>>)
      requires Safe() && Grows(entry, store) && store.approvals == entry.approvals
      requires Walked(entry, store, rest, now) && id in rest
      modifies this`tick, this`store
      ensures Went(faults, old(tick), tick, o)
      ensures Safe() && Grows(entry, store) && store.approvals == entry.approvals
      ensures Walked(entry, store, rest - {id}, now)
      ensures AllExpired(entry, old(store), rest, now) && (o.Done? || old(Calm())) ==>
        AllExpired(entry, store, rest - {id}, now)
      ensures old(Calm()) && !o.Done? ==> Undecided(entry, id) && store == old(store)
      ensures o.Done? ==> o.value == OpenAt(entry, id, now)
      ensures o.Done? ==> (o.value.None? <==> Closed(entry, id, now))
      ensures o.Done? && o.value.None? && AllClosed(entry, old(store), rest, now) ==>
        AllClosed(entry, store, rest - {id}, now)
      ensures old(Calm()) && Closed(entry, id, now) ==> o.Done?
    {
      ghost var before := store;
      assert Closed(before, id, now) <==> Closed(entry, id, now);
      o := ExpireOne(id, now);
      GrowsTransitive(entry, before, store);
      WalkedOn(entry, before, store, rest, id, now);
    }

    /** Walk over all challenges, writing an expired decision where the window is over, and return those
        still open. A directory that does not load stops the walk. */
    method ExpireOldPending(now: Time) returns (o: Outcome<seq<Challenge>>)
      requires Safe()
      modifies this`tick, this`store
      ensures Went(faults, old(tick), tick, o)
      ensures Safe() && Grows(old(store), store) && store.approvals == old(store.approvals)
      ensures store.challenges.Keys == old(store.challenges.Keys)
      // Only challenges whose window is over are touched, and all that is written is that they lapsed.
      ensures forall x :: x in old(store).challenges ==> AtMostLapsed(old(store), store, x, now)
      ensures old(store).challenges.Keys == {} ==> o == Done([]) && store == old(store) && tick == old(tick)
      ensures o == Done([]) ==>
        Creatable(old(store), now) && forall id :: id in store.challenges ==> !Undecided(store, id)
      ensures old(Calm()) && Creatable(old(store), now) ==> o == Done([])
      ensures o.Done? || old(Calm()) ==> AllExpired(old(store), store, {}, now)
      ensures o.Done? ==> Reported(old(store), o.value, {}, now)
    {
      hide Expires, ReceiptsKept, Sound, OpenAt, LoadChallenge;
      ghost var entry := store;
      var rest := store.challenges.Keys;
      var pending: seq<Challenge> := [];
      while rest != {}
        invariant Safe() && Grows(entry, store) && store.approvals == entry.approvals
        invariant old(tick) <= tick && Smooth(faults, old(tick), tick)
        invariant Walked(entry, store, rest, now)
        invariant AllExpired(entry, store, rest, now)
        invariant Reported(entry, pending, rest, now)
        invariant pending == [] ==> AllClosed(entry, store, rest, now)
        invariant Creatable(entry, now) ==> pending == []
        invariant entry.challenges.Keys == {} ==> store == entry && tick == old(tick)
        decreases rest
      {
        var id :| id in rest;
        assert Creatable(entry, now) ==> Closed(entry, id, now);
        var next := ExpireNext(entry, rest, id, now);
        if old(Calm()) && !next.Done? { NothingElseIsOver(entry, store, rest - {id}, id, now); }
        var open :- next;
        ReportedOn(entry, pending, rest, id, now);
        if open.Some? { pending := pending + [open.value]; }
        rest := rest - {id};
      }
      o := Done(pending);
    }

    /** A new challenge, provided no other one is open. `id` is the identifier drawn at random. */
    method Create(proposalId: Id, id: Id, now: Time) returns (o: Outcome<Challenge>)
      requires Safe()
      modifies this`tick, this`store
      ensures Went(faults, old(tick), tick, o)
      ensures Safe() && Grows(old(store), store) && store.approvals == old(store.approvals)
      ensures o.Done? ==>
        && id !in old(store.challenges)
        && o.value == Challenge(id, proposalId, now, now + 10_800 * 1_000_000)
        && LoadChallenge(store, id) == Some((o.value, None))
        && Creatable(old(store), now)
        && forall x :: x in old(store.challenges) ==> x in store.challenges && !Undecided(store, x)
      ensures forall x :: x in old(store).challenges ==> AtMostLapsed(old(store), store, x, now)
      ensures old(Calm()) ==> (o.Done? <==> Creatable(old(store), now) && id !in old(store.challenges))
      // Unless a call fails, exactly the challenge that is over has lapsed, and no directory is made for a refused one.
      ensures o.Done? || old(Calm()) ==>
        && old(store).challenges.Keys <= store.challenges.Keys
        && forall x :: x in old(store).challenges ==> Expires(old(store), store, x, now)
      ensures old(Calm()) && !o.Done? ==> store.challenges.Keys == old(store).challenges.Keys
      // The very first creation may die after it made the challenge's directory.
      ensures old(store).challenges.Keys == {} && faults(old(tick)).DieLate? ==>
        o.Dead? && store == WithChallenge(old(store), id, Missing)
    {
      hide AtMostLapsed, Sound, Grows, Closed, ReceiptsKept, Creatable, LoadChallenge, Undecided, Expires, AllExpired;
      ghost var entry := store;
      var expired := ExpireOldPending(now);
      StillLapsed(entry, store, store, id, now);
      var pending :- expired;
      if pending != [] || id in store.challenges { return Error; }
      ghost var base := store;
      var c := Challenge(id, proposalId, now, now + CHALLENGE_MAX_LIFETIME);
      var written := WriteChallenge(c);
      GrowsTransitive(entry, base, store);
      StillLapsed(entry, base, store, id, now);
      var _ :- written;
      o := Done(c);
    }

    /** The directory of a new challenge, and the record in it. */
    method WriteChallenge(c: Challenge) returns (o: Outcome<()>)
      requires Safe() && c.id !in store.challenges && c.expiresAt == c.createdAt + CHALLENGE_MAX_LIFETIME
      requires forall x :: x in store.challenges ==> !Undecided(store, x)
      modifies this`tick, this`store
      ensures Went(faults, old(tick), tick, o)
      ensures Safe() && Grows(old(store), store)
      ensures || store == old(store) || store == WithChallenge(old(store), c.id, Missing)
              || store == WithChallenge(old(store), c.id, Begun) || store == WithChallenge(old(store), c.id, Whole(c))
      ensures o.Done? ==>
        store == WithChallenge(old(store), c.id, Whole(c)) && LoadChallenge(store, c.id) == Some((c, None))
      ensures forall x :: x in old(store).challenges ==> x in store.challenges && !Undecided(store, x)
      ensures old(Calm()) ==> o.Done?
      ensures faults(old(tick)).DieLate? ==> o.Dead? && store == WithChallenge(old(store), c.id, Missing)
    {
      var base := store;
      ChallengeAdded(base, c.id, ChallengeDir(Missing, Missing));
      ChallengeAdded(base, c.id, ChallengeDir(Begun, Missing));
      ChallengeAdded(base, c.id, ChallengeDir(Whole(c), Missing));
      assert LoadChallenge(WithChallenge(base, c.id, Whole(c)), c.id) == Some((c, None));
      var made := Perform(base, WithChallenge(base, c.id, Missing));
      ReceiptsSurvive(base, store, receipts);
      var _ :- made;
      o := Perform(WithChallenge(base, c.id, Begun), WithChallenge(base, c.id, Whole(c)));
      ReceiptsSurvive(base, store, receipts);
    }

    /** One irreversible human decision. An approval record follows the decision that backs it. */
    method Decide(id: Id, proposalId: Id, approve: bool, approvalId: Id, now: Time)
      returns (o: Outcome<Option<Approval>>)
      requires Safe()
      modifies this`tick, this`store
      ensures Went(faults, old(tick), tick, o)
      ensures Safe() && Grows(old(store), store)
      ensures o.Done? ==>
        && LoadChallenge(old(store), id).Some? && LoadChallenge(old(store), id).value.1.None?
        && var c := LoadChallenge(old(store), id).value.0;
        && c.proposalId == proposalId && c.createdAt <= now < c.expiresAt
        && LoadChallenge(store, id) ==
             Some((c, Some(Decision(id, proposalId, if approve then Approved(approvalId) else Rejected, now))))
        && o.value.Some? == approve
        && (approve ==>
              && o.value.value == Approval(id, proposalId, approvalId, now, now, now + 30 * 1_000_000)
              && approvalId !in old(store.approvals)
              && LoadApproval(store, approvalId) == Some((o.value.value, None))
              && Backed(store, o.value.value))
        && (!approve ==> store.approvals == old(store.approvals))
      // Nothing but this challenge is decided, and only as asked, or as lapsed when its window is over.
      ensures store.challenges.Keys == old(store).challenges.Keys
      ensures forall x :: x in store.challenges && x != id ==> store.challenges[x] == old(store).challenges[x]
      ensures id in store.challenges && store.challenges[id] != old(store).challenges[id] ==>
        var open := Decidable(old(store), id, proposalId, now);
        Decided(old(store).challenges[id], store.challenges[id],
                if !open then Lapsed else if approve then Approved(approvalId) else Rejected, now)
      ensures old(Calm()) ==>
        (o.Done? <==> Decidable(old(store), id, proposalId, now) && (approve ==> approvalId !in old(store).approvals))
      // A decision that cannot be made leaves no trace; any other is written as asked, or as lapsed after the window.
      ensures !Pending(old(store), id, proposalId, now) ==> store == old(store)
      ensures old(Calm()) && Pending(old(store), id, proposalId, now) ==>
        var c := LoadChallenge(old(store), id).value.0;
        var verdict := if c.expiresAt <= now then Lapsed else if approve then Approved(approvalId) else Rejected;
        LoadChallenge(store, id) == Some((c, Some(Decision(id, proposalId, verdict, now))))
      // An approval's directory is made only behind the durable decision that names it, and no other is touched.
      ensures store.approvals != old(store).approvals ==>
        && approve && approvalId !in old(store).approvals && Decidable(old(store), id, proposalId, now)
        && store.approvals.Keys == old(store).approvals.Keys + {approvalId}
        && (forall x :: x in old(store).approvals ==> store.approvals[x] == old(store).approvals[x])
        && LoadChallenge(store, id) ==
             Some((LoadChallenge(old(store), id).value.0,
                   Some(Decision(id, proposalId, Approved(approvalId), now))))
    {
      ghost var entry := store;
      var loaded := LoadChallenge(store, id);
      if loaded.None? || loaded.value.0.proposalId != proposalId || loaded.value.1.Some? { return Error; }
      var c := loaded.value.0;
      if now < c.createdAt { return Error; }
      if now >= c.expiresAt {
        var _ :- PersistDecision(c, Lapsed, now);
        return Error;
      }
      if !approve {
        var _ :- PersistDecision(c, Rejected, now);
        return Done(None);
      }
      var _ :- PersistDecision(c, Approved(approvalId), now);
      var a := Approval(id, proposalId, approvalId, now, now, now + APPROVAL_MAX_LIFETIME);
      ghost var base := store;
      var persisted := PersistApproval(a);
      GrowsTransitive(entry, base, store);
      SameChallenges(base, store);
      var _ :- persisted;
      o := Done(Some(a));
    }

    /** The directory of an approval, and the record in it. */
    method PersistApproval(a: Approval) returns (o: Outcome<()>)
      requires Safe() && ValidApproval(a) && Backed(store, a)
      requires var c := LoadChallenge(store, a.challengeId).value.0; c.createdAt <= a.createdAt < c.expiresAt
      modifies this`tick, this`store
      ensures Went(faults, old(tick), tick, o)
      ensures Safe() && Grows(old(store), store)
      ensures || store == old(store)
              || (a.id !in old(store).approvals && exists file :: store == WithApproval(old(store), a.id, file))
      ensures o.Done? ==> a.id !in old(store).approvals && store == WithApproval(old(store), a.id, Whole(a))
      ensures old(Calm()) ==> (o.Done? <==> a.id !in old(store).approvals)
    {
      hide ReceiptsKept, LoadChallenge, Backed;
      var base, id := store, a.id;
      if id in base.approvals { return Error; }
      ApprovalAdded(base, id, ApprovalDir(Missing, Missing));
      ApprovalAdded(base, id, ApprovalDir(Begun, Missing));
      ApprovalAdded(base, id, ApprovalDir(Whole(a), Missing));
      var made := Perform(base, WithApproval(base, id, Missing));
      ReceiptsSurvive(base, store, receipts);
      var _ :- made;
      o := Perform(WithApproval(base, id, Begun), WithApproval(base, id, Whole(a)));
      ReceiptsSurvive(base, store, receipts);
    }

    /** Claim the terminal file of an approval: created exclusively, still without content. */
    method ClaimTerminal(id: Id) returns (o: Outcome<()>)
      requires Safe() && id in store.approvals && store.approvals[id].approval.Whole?
      requires store.approvals[id].terminal.Missing?
      modifies this`tick, this`store
      ensures Went(faults, old(tick), tick, o)
      ensures Safe() && Grows(old(store), store)
      ensures store == old(store) || store == WithTerminal(old(store), id, Begun)
      ensures tick == old(tick) + 1 && (o.Done? <==> faults(old(tick)).Quiet?)
      ensures faults(old(tick)).Effective() ==> store == WithTerminal(old(store), id, Begun)
    {
      ghost var before := store;
      TerminalAdded(store, id, Begun);
      o := Perform(store, WithTerminal(store, id, Begun));
      ReceiptsSurvive(before, store, receipts);
    }

    /** Write the record into the claimed file. */
    method FinalizeTerminal(ghost base: Store, id: Id, t: Terminal) returns (o: Outcome<()>)
      requires Sound(base) && Safe() && id in base.approvals
      requires store == WithTerminal(base, id, Begun) && Grows(base, store)
      requires base.approvals[id].approval.Whole?
      requires base.approvals[id].terminal.Missing? && ReceiptsKept(base, receipts)
      requires var a := base.approvals[id].approval.record;
               && t.approvalId == id && t.proposalId == a.proposalId
               && (t.state.Consumed? ==> a.createdAt <= t.terminalAt < a.expiresAt)
      modifies this`tick, this`store
      ensures Went(faults, old(tick), tick, o)
      ensures Safe() && Grows(base, store)
      ensures store == WithTerminal(base, id, Begun) || store == WithTerminal(base, id, Whole(t))
      ensures o.Done? ==> store == WithTerminal(base, id, Whole(t))
      ensures o.Done? <==> faults(old(tick)).Quiet?
    {
      TerminalAdded(base, id, Whole(t));
      assert WithTerminal(store, id, Whole(t)) == WithTerminal(base, id, Whole(t));
      o := Perform(store, WithTerminal(store, id, Whole(t)));
      ReceiptsSurvive(base, store, receipts);
    }

    /** Claim the terminal file and fill it. */
    method WriteTerminal(id: Id, t: Terminal) returns (o: Outcome<()>)
      requires Safe() && id in store.approvals && store.approvals[id].approval.Whole?
      requires store.approvals[id].terminal.Missing?
      requires var a := store.approvals[id].approval.record;
               && t.approvalId == id && t.proposalId == a.proposalId
               && (t.state.Consumed? ==> a.createdAt <= t.terminalAt < a.expiresAt)
      modifies this`tick, this`store
      ensures Went(faults, old(tick), tick, o)
      ensures Safe() && Grows(old(store), store)
      ensures || store == old(store) || store == WithTerminal(old(store), id, Begun)
              || store == WithTerminal(old(store), id, Whole(t))
      ensures o.Done? ==> store == WithTerminal(old(store), id, Whole(t))
      ensures faults(old(tick)).Effective() ==> store != old(store)
      ensures o.Done? <==> faults(old(tick)).Quiet? && faults(old(tick) + 1).Quiet?
    {
      ghost var base := store;
      var _ :- ClaimTerminal(id);
      o := FinalizeTerminal(base, id, t);
    }

    /** Consume an approval for one run. The terminal file is claimed before the clock is read, and what
        is written into it - consumed, expired or revoked - depends on the reading. */
    method Consume(id: Id, proposalId: Id, runId: Id, now: Time) returns (o: Outcome<Answer>)
      requires Safe()
      modifies this`tick, this`store, this`receipts
      ensures Went(faults, old(tick), tick, o)
      ensures Safe() && Grows(old(store), store) && store.challenges == old(store.challenges)
      ensures forall x :: x in store.approvals && x != id ==>
        x in old(store.approvals) && store.approvals[x] == old(store.approvals[x])
      ensures o.Done? ==>
        && receipts == old(receipts) + [Receipt(id, proposalId, runId)]
        && id in old(store.approvals) && old(store.approvals)[id].terminal.Missing?
        && Confirms(store, id, proposalId, runId, now)
        && o.value == Answer("consumed", store.approvals[id].approval.record,
                             Some(Terminal(id, proposalId, Consumed(runId), now)))
        && store.approvals[id].approval.record.createdAt <= now < store.approvals[id].approval.record.expiresAt
      ensures !o.Done? ==> receipts == old(receipts)
      ensures old(Calm()) ==> (o.Done? <==> Allows(old(store), id, proposalId, now))
      // An attempt that the first checks refuse leaves no trace. Any other one claims the terminal file, as soon as its
      // first call takes effect, and whatever the clock says; what it writes there depends on the clock.
      ensures !Claimable(old(store), id, proposalId) ==> !o.Done? && store == old(store)
      ensures Claimable(old(store), id, proposalId) ==>
        var a := old(store).approvals[id].approval.record;
        && store.approvals.Keys == old(store).approvals.Keys && store.approvals[id].approval == Whole(a)
        && (faults(old(tick)).Effective() ==> !store.approvals[id].terminal.Missing?)
        && (faults(old(tick)).Quiet? && faults(old(tick) + 1).Quiet? ==> store.approvals[id].terminal.Whole?)
        && (store.approvals[id].terminal.Whole? ==> SettledBy(a, store.approvals[id].terminal.record, runId, now))
    {
      var loaded := LoadApproval(store, id);
      if loaded.None? || loaded.value.0.proposalId != proposalId
         || !Backed(store, loaded.value.0) || loaded.value.1.Some? {
        return Error;
      }
      ghost var base := store;
      var a := loaded.value.0;
      var state := if now < a.createdAt then Revoked else if now >= a.expiresAt then Expired else Consumed(runId);
      var t := Terminal(id, proposalId, state, now);
      var _ :- WriteTerminal(id, t);
      if !t.state.Consumed? { return Error; }
      SameChallenges(base, store);
      AddReceipt(id, proposalId, runId, now);
      o := Done(Answer("consumed", a, Some(t)));
    }

    /** The call returns: its receipt joins the others. */
    method AddReceipt(id: Id, proposalId: Id, runId: Id, now: Time)
      requires Safe() && Confirms(store, id, proposalId, runId, now)
      requires forall i :: 0 <= i < |receipts| ==> receipts[i].approvalId != id
      modifies this`receipts
      ensures Safe() && receipts == old(receipts) + [Receipt(id, proposalId, runId)]
    {
      receipts := receipts + [Receipt(id, proposalId, runId)];
    }

    /** Any number of calls in any order, with any clock and any faults. The lock serialises the calls of
        different processes, and a process that dies is followed by the next call. */
    method Run(requests: seq<Request>)
      requires Safe()
      modifies this
      ensures Safe() && Grows(old(store), store)
      ensures old(receipts) <= receipts
      ensures forall i :: |old(receipts)| <= i < |receipts| && receipts[i].approvalId in old(store).approvals ==>
                old(store).approvals[receipts[i].approvalId].terminal.Missing?
    {
      for k := 0 to |requests|
        invariant Safe() && Grows(old(store), store)
        invariant old(receipts) <= receipts
        invariant forall i :: |old(receipts)| <= i < |receipts| && receipts[i].approvalId in old(store).approvals ==>
                    old(store).approvals[receipts[i].approvalId].terminal.Missing?
      {
        ghost var before := store;
        match requests[k] {
          case Create(proposalId, id, now) => var _ := Create(proposalId, id, now);
          case Decide(id, proposalId, approve, approvalId, now) =>
            var _ := Decide(id, proposalId, approve, approvalId, now);
          case Consume(id, proposalId, runId, now) => var _ := Consume(id, proposalId, runId, now);
        }
        GrowsTransitive(old(store), before, store);
      }
    }
  }

  /** One attempt is all there is. Whether it returns, raises or dies, and whatever the clock says then, once it has
      claimed the terminal file no later attempt returns, for any run, with any clock, after any calls. */
  method OneAttempt(a: Approvals, id: Id, proposalId: Id, runId: Id, now: Time, requests: seq<Request>, runId': Id,
                    later: Time)
    returns (first: Outcome<Answer>, second: Outcome<Answer>)
    requires a.Safe() && Claimable(a.store, id, proposalId) && a.faults(a.tick).Effective()
    modifies a
    ensures a.Safe() && !second.Done? && old(a.receipts) <= a.receipts
    ensures first.Done? ==>
      |a.receipts| > |old(a.receipts)| && a.receipts[|old(a.receipts)|] == Receipt(id, proposalId, runId)
    ensures forall i :: |old(a.receipts)| + (if first.Done? then 1 else 0) <= i < |a.receipts| ==>
              a.receipts[i].approvalId != id
  {
    hide Sound, Backed, SettledBy;
    first := a.Consume(id, proposalId, runId, now);
    ghost var claimed := a.store;
    a.Run(requests);
    assert a.store.approvals[id].terminal == claimed.approvals[id].terminal;
    second := a.Consume(id, proposalId, runId', later);
  }

  /** Such a directory comes about: the process that makes the first challenge dies after the directory is made.
      Whatever is asked of the store afterwards, with any clock and any faults, no challenge can be made any more. */
  method BlockedForGood(proposalId: Id, id: Id, now: Time, faults: nat -> Fault, requests: seq<Request>)
    returns (a: Approvals)
    requires faults(0).DieLate?
    ensures fresh(a) && a.Safe() && id in a.store.challenges && LoadChallenge(a.store, id).None?
    ensures forall later :: !Creatable(a.store, later)
  {
    a := new Approvals(faults);
    var died := a.Create(proposalId, id, now);
    ghost var left := a.store;
    assert left.challenges[id] == ChallengeDir(Missing, Missing);
    a.Run(requests);
    forall later ensures !Creatable(a.store, later) { PartialBlocksForever(left, a.store, id, later); }
    PartialBlocksForever(left, a.store, id, now);
  }
}
