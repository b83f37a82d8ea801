/** The durable append-only journal of a promotion transaction. */
module TransactionJournal {
  import opened Basics
  import opened Transaction

  const MAX_SNAPSHOTS: nat := 100_000

  /** One snapshot file: its sequence number, the snapshot it claims to follow and the snapshot. */
  datatype Record = Record(sequence: nat, previous: Option<Snapshot>, snapshot: Snapshot)

  /** The snapshot directory of one transaction of `size` files; the records are listed by file name.
      `torn` says that one more file was begun and not finished. */
  datatype Journal = Journal(size: nat, records: seq<Record>, torn: bool)

  /** Record `i` is numbered `i`, names the snapshot before it and holds a legal successor of it. */
  predicate Linked(records: seq<Record>, i: nat)
    requires 0 < i < |records|
  {
    && records[i].sequence == i
    && records[i].previous == Some(records[i - 1].snapshot)
    && Transition(records[i - 1].snapshot, records[i].snapshot.state, records[i].snapshot.progress).Some?
  }

  /** A chain that passes every check of the loader. */
  ghost predicate Chain(size: nat, records: seq<Record>) {
    && 0 < size && 0 < |records| <= MAX_SNAPSHOTS
    && records[0] == Record(0, None, Initial(size))
    && forall i :: 0 < i < |records| ==> Linked(records, i)
  }

  function Current(j: Journal): Snapshot
    requires j.records != []
  {
    j.records[|j.records| - 1].snapshot
  }

  ghost predicate Loads(j: Journal) { !j.torn && Chain(j.size, j.records) }

  /** The loader: reads the records in order and re-derives every transition. */
  method Load(j: Journal) returns (r: Option<Snapshot>)
    ensures r.Some? <==> Loads(j)
    ensures r.Some? ==> r.value == Current(j)
  {
    if j.size == 0 || j.torn || j.records == [] || |j.records| > MAX_SNAPSHOTS { return None; }
    var current := Initial(j.size);
    var previous := None;
    for i := 0 to |j.records|
      invariant 0 < i ==> current == j.records[i - 1].snapshot && previous == Some(current)
      invariant i == 0 ==> current == Initial(j.size) && previous == None
      invariant 0 < i ==> j.records[0] == Record(0, None, Initial(j.size))
      invariant forall k :: 0 < k < i ==> Linked(j.records, k)
    {
      var record := j.records[i];
      assert 0 < i && Loads(j) ==> Linked(j.records, i);
      if record.sequence != i || record.previous != previous { return None; }
      if i == 0 {
        if record.snapshot != current { return None; }
      } else {
        var successor := Transition(current, record.snapshot.state, record.snapshot.progress);
        if successor.None? { return None; }
        current := successor.value;
      }
      previous := Some(record.snapshot);
    }
    r := Some(current);
  }

  lemma CurrentIsValid(j: Journal)
    requires Loads(j)
    ensures ValidSnapshot(Current(j)) && |Current(j).progress| == j.size
  {
    LinkIsValid(j, |j.records| - 1);
  }

  lemma {:induction false} LinkIsValid(j: Journal, i: nat)
    requires Loads(j) && i < |j.records|
    ensures ValidSnapshot(j.records[i].snapshot) && |j.records[i].snapshot.progress| == j.size
  {
    if i == 0 {
      assert j.records[0].snapshot.progress[0] == Pending;
    } else {
      LinkIsValid(j, i - 1);
      assert Linked(j.records, i);
      var s := j.records[i].snapshot;
      assert Snapshot(s.state, s.progress) == s;
    }
  }

  /** What the loader lets follow what, in any journal that loads: the states in their order, every file one stage
      further or where it was, COMPLETED only with every file verified and straight after VERIFYING, ROLLED_BACK only
      with every file untouched or restored and straight after ROLLING_BACK. */
  lemma RecordsInOrder(j: Journal, i: nat)
    requires Loads(j) && 0 < i < |j.records|
    ensures var from, to := j.records[i - 1].snapshot, j.records[i].snapshot;
            && (from.state, to.state) in {(Prepared, Applying), (Prepared, RecoveryRequired), (Applying, Applying),
                                          (Applying, Verifying), (Applying, RollingBack), (Applying, RecoveryRequired),
                                          (Verifying, Verifying), (Verifying, Completed), (Verifying, RollingBack),
                                          (Verifying, RecoveryRequired), (RollingBack, RollingBack),
                                          (RollingBack, RolledBack), (RollingBack, RecoveryRequired)}
            && |to.progress| == |from.progress| == j.size
            && (forall f :: 0 <= f < j.size && to.progress[f] != from.progress[f] ==>
                  (from.progress[f], to.progress[f]) in {(Pending, Installed), (Installed, Verified),
                                                         (Installed, Restored), (Verified, Restored)})
            && (to.state == Completed ==> forall f :: 0 <= f < j.size ==> to.progress[f] == Verified)
            && (to.state == RolledBack ==>
                  forall f :: 0 <= f < j.size ==> to.progress[f] == Pending || to.progress[f] == Restored)
  {
    LinkIsValid(j, i - 1);
    LinkIsValid(j, i);
    assert Linked(j.records, i);
  }

  /** The append is accepted: the predecessor is the expected one and the successor is legal and new. */
  ghost predicate Accepts(j: Journal, expected: Snapshot, successor: Snapshot) {
    && Loads(j)
    && Current(j) == expected
    && successor != expected
    && Transition(expected, successor.state, successor.progress).Some?
    && |j.records| < MAX_SNAPSHOTS
  }

  /** A journal that only create and accepted appends have written: it loads and never stands still. */
  ghost predicate Grown(j: Journal) {
    && Chain(j.size, j.records)
    && forall i :: 0 < i < |j.records| ==> Linked(j.records, i) && Moves(j.records, i)
  }

  predicate Moves(records: seq<Record>, i: nat)
    requires 0 < i < |records|
  {
    records[i].snapshot != records[i - 1].snapshot
  }

  function Extended(j: Journal, successor: Snapshot): Journal
    requires j.records != []
  {
    j.(records := j.records + [Record(|j.records|, Some(Current(j)), successor)])
  }

  lemma ExtendedLoads(j: Journal, expected: Snapshot, successor: Snapshot)
    requires Accepts(j, expected, successor)
    ensures Loads(Extended(j, successor)) && Current(Extended(j, successor)) == successor
    ensures Grown(j) ==> Grown(Extended(j, successor))
  {
    var x := Extended(j, successor);
    forall i | 0 < i < |x.records| ensures Linked(x.records, i) && (Grown(j) ==> Moves(x.records, i)) {
      if i < |j.records| {
        assert Linked(j.records, i);
        assert Grown(j) ==> Moves(j.records, i);
      }
    }
  }

  /** Snapshots of one chain never repeat, so a snapshot names its place in the chain. */
  lemma {:induction false} ChainClimbs(j: Journal, a: nat, b: nat)
    requires Grown(j) && a < b < |j.records|
    ensures Rank(j.records[a].snapshot) < Rank(j.records[b].snapshot)
  {
    LinkClimbs(j, b);
    if a < b - 1 { ChainClimbs(j, a, b - 1); }
  }

  lemma LinkClimbs(j: Journal, b: nat)
    requires Grown(j) && 0 < b < |j.records|
    ensures Rank(j.records[b - 1].snapshot) < Rank(j.records[b].snapshot)
  {
    var from, to := j.records[b - 1].snapshot, j.records[b].snapshot;
    assert Linked(j.records, b) && Moves(j.records, b);
    assert to == Snapshot(to.state, to.progress);
    TransitionClimbs(from, to.state, to.progress);
  }

  /** Of two appends naming the same predecessor at most one is accepted: after the first, and after
      anything that follows it, the second is stale. */
  lemma SamePredecessorOnce(j: Journal, expected: Snapshot, first: Snapshot, later: Journal, second: Snapshot)
    requires Accepts(j, expected, first)
    requires Grown(later) && Extended(j, first).records <= later.records
    ensures !Accepts(later, expected, second)
  {
    var k := |j.records| - 1;
    var x := Extended(j, first);
    assert x.records[k] == j.records[k];
    assert later.records[k] == x.records[k];
    ChainClimbs(later, k, |later.records| - 1);
  }
}
