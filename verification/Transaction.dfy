/** Promotion transactions: the immutable plan, its snapshots and their legal successors. */
module Transaction {
  import opened Basics
  import opened FileSystem

  datatype Operation = Add | Modify

  /** One file of the plan. `before` is None exactly for ADD: there was no file. */
  datatype FilePlan = FilePlan(operation: Operation, path: Path, before: Option<Image>, after: Image)

  datatype Plan = Plan(transactionId: string, proposalId: string, runId: string, files: seq<FilePlan>)

  datatype State =
    | Prepared | Applying | Verifying | Completed | RollingBack | RolledBack | RecoveryRequired

  datatype Progress = Pending | Installed | Verified | Restored

  /** A snapshot's identifier is a hash of the transaction, the state and the per-file progress,
      so within one transaction the snapshot itself stands for its identifier. */
  datatype Snapshot = Snapshot(state: State, progress: seq<Progress>)

  predicate AllowedState(from: State, to: State) {
    match from
    case Prepared => to == Applying || to == RecoveryRequired
    case Applying => to == Applying || to == Verifying || to == RollingBack || to == RecoveryRequired
    case Verifying => to == Verifying || to == Completed || to == RollingBack || to == RecoveryRequired
    case RollingBack => to == RollingBack || to == RolledBack || to == RecoveryRequired
    case _ => false
  }

  predicate AllowedProgress(from: Progress, to: Progress) {
    || (from == Pending && to == Installed)
    || (from == Installed && to == Verified)
    || (from == Installed && to == Restored)
    || (from == Verified && to == Restored)
  }

  /** Which progress values a file may have in a state. */
  predicate Permits(state: State, progress: Progress) {
    match state
    case Prepared => progress == Pending
    case Applying => progress == Pending || progress == Installed
    case Verifying => progress == Installed || progress == Verified
    case Completed => progress == Verified
    case RolledBack => progress == Pending || progress == Restored
    case _ => true
  }

  predicate ValidSnapshot(s: Snapshot) {
    s.progress != [] && forall i :: 0 <= i < |s.progress| ==> Permits(s.state, s.progress[i])
  }

  /** The validated successor, or None where the transition is illegal. */
  function Transition(current: Snapshot, state: State, progress: seq<Progress>): (r: Option<Snapshot>) {
    if !ValidSnapshot(current) || !AllowedState(current.state, state) || |progress| != |current.progress|
    then None
    else if exists i :: 0 <= i < |progress| && progress[i] != current.progress[i]
                        && !AllowedProgress(current.progress[i], progress[i])
    then None
    else if !ValidSnapshot(Snapshot(state, progress)) then None
    else Some(Snapshot(state, progress))
  }

  predicate Terminal(state: State) { state == Completed || state == RolledBack || state == RecoveryRequired }

  predicate Active(state: State) { state == Applying || state == Verifying || state == RollingBack }

  function Initial(n: nat): Snapshot { Snapshot(Prepared, seq(n, _ => Pending)) }

  /** A measure that every legal change raises; it is what keeps snapshots from repeating. */
  function Rank(s: Snapshot): nat { 8 * StateRank(s.state) + ProgressRank(s.progress) * 64 }

  function StateRank(s: State): nat {
    match s
    case Prepared => 0
    case Applying => 1
    case Verifying => 2
    case RollingBack => 3
    case _ => 4
  }

  function ProgressRank(ps: seq<Progress>): nat {
    if ps == [] then 0 else OneRank(ps[0]) + ProgressRank(ps[1..])
  }

  function OneRank(p: Progress): nat {
    match p
    case Pending => 0
    case Installed => 1
    case Verified => 2
    case Restored => 3
  }

  lemma {:induction false} ProgressNeverFalls(a: seq<Progress>, b: seq<Progress>)
    requires |a| == |b|
    requires forall i :: 0 <= i < |a| ==> a[i] == b[i] || AllowedProgress(a[i], b[i])
    ensures ProgressRank(a) <= ProgressRank(b)
    ensures a != b ==> ProgressRank(a) < ProgressRank(b)
  {
    if a != [] {
      assert a == [a[0]] + a[1..] && b == [b[0]] + b[1..];
      forall i | 0 <= i < |a[1..]| ensures a[1..][i] == b[1..][i] || AllowedProgress(a[1..][i], b[1..][i]) {
        assert a[1..][i] == a[i + 1] && b[1..][i] == b[i + 1];
      }
      ProgressNeverFalls(a[1..], b[1..]);
    }
  }

  /** Every legal transition that changes anything climbs. */
  lemma TransitionClimbs(s: Snapshot, state: State, progress: seq<Progress>)
    requires Transition(s, state, progress).Some?
    requires Snapshot(state, progress) != s
    ensures Rank(s) < Rank(Snapshot(state, progress))
  {
    ProgressNeverFalls(s.progress, progress);
  }

  /** COMPLETED, ROLLED_BACK and RECOVERY_REQUIRED are the states that nothing follows, and the only ones. */
  lemma TerminalIsFinal(s: Snapshot)
    requires ValidSnapshot(s)
    ensures Terminal(s.state) <==> forall state, progress :: Transition(s, state, progress).None?
  {
    if !Terminal(s.state) {
      var next := if s.state == Prepared then Applying else RecoveryRequired;
      assert forall i :: 0 <= i < |s.progress| ==> Permits(s.state, s.progress[i]) && Permits(next, s.progress[i]);
      assert ValidSnapshot(Snapshot(next, s.progress));
      assert Transition(s, next, s.progress).Some?;
    }
  }
}
