/** Where a promotion stands: closed forms of the journal and of the directory after any number of its steps. */
module PromotionProgress {
  import opened Basics
  import opened FileSystem
  import opened Transaction
  import opened TransactionJournal
  import opened Target
  import opened AppliedTarget
  import RollbackPlan

  // ---- the journal ---------------------------------------------------------------------------

  /** The snapshot after `m` appends: APPLYING, then one per installed file, VERIFYING, then one per verified
      file, and COMPLETED as number 2n + 3. */
  function SnapshotAt(n: nat, m: nat): Snapshot
    requires m <= 2 * n + 3
  {
    if m == 0 then Initial(n)
    else if m <= n + 1 then Snapshot(Applying, seq(n, i => if i < m - 1 then Installed else Pending))
    else if m <= 2 * n + 2 then Snapshot(Verifying, seq(n, i => if i < m - n - 2 then Verified else Installed))
    else Snapshot(Completed, seq(n, _ => Verified))
  }

  function Log(n: nat, m: nat): seq<Record>
    requires m <= 2 * n + 3
  {
    seq(m + 1, i requires 0 <= i <= m =>
      Record(i, if i == 0 then None else Some(SnapshotAt(n, i - 1)), SnapshotAt(n, i)))
  }

  lemma NextIsLegal(n: nat, m: nat)
    requires 0 < n && m < 2 * n + 3
    ensures var next := SnapshotAt(n, m + 1);
            Transition(SnapshotAt(n, m), next.state, next.progress) == Some(next) && next != SnapshotAt(n, m)
  {
    var a, b := SnapshotAt(n, m), SnapshotAt(n, m + 1);
    assert |a.progress| == |b.progress| == n;
    assert forall i :: 0 <= i < n ==> a.progress[i] == b.progress[i] || AllowedProgress(a.progress[i], b.progress[i]);
    assert a.progress[0] == a.progress[0];
    if 1 <= m <= n { assert a.progress[m - 1] != b.progress[m - 1]; }
    if n + 2 <= m < 2 * n + 2 { assert a.progress[m - n - 2] != b.progress[m - n - 2]; }
  }

  lemma LogGrows(n: nat, m: nat)
    requires m < 2 * n + 3
    ensures Log(n, m + 1) == Log(n, m) + [Record(m + 1, Some(SnapshotAt(n, m)), SnapshotAt(n, m + 1))]
  {
  }

  lemma LogLoads(n: nat, m: nat)
    requires 0 < n && m <= 2 * n + 3 && m < MAX_SNAPSHOTS
    ensures Chain(n, Log(n, m))
  {
    forall i | 0 < i <= m
      ensures var s := SnapshotAt(n, i); Transition(SnapshotAt(n, i - 1), s.state, s.progress).Some?
    {
      NextIsLegal(n, i - 1);
    }
  }

  // ---- the directory -------------------------------------------------------------------------

  function Install(t: Target, i: nat): DirOp
    requires i < t.Size()
  {
    Rename(t.Temp(i), t.Dest(i))
  }

  /** The directory after the temporaries of the first `k` files were renamed onto their destinations. */
  function InstalledIn(t: Target, d: Directory, k: nat): Directory
    requires k <= t.Size()
  {
    if k == 0 then d else Apply(InstalledIn(t, d, k - 1), Install(t, k - 1))
  }

  /** What a preparation leaves and the executor looks for before it starts. */
  ghost predicate Ready(t: Target, disk: Disk) {
    && t.Valid() && t.TempsVisible() && t.ModifyOnly()
    && (forall i :: 0 <= i < t.Size() ==>
          t.DestinationSeen(disk, i) == Before && t.TemporarySeen(disk, i) == Exact)
    && t.Untracked(disk) <= t.Temps() && t.Changed(disk) == {}
  }

  /** Everything a promotion relies on once it is under way. */
  ghost predicate Promotable(t: Target, disk: Disk) { Ready(t, disk) && t.Checked() }

  /** All destinations and temporaries are there and no two of them coincide. */
  ghost predicate Laid(t: Target, d: Directory) {
    && (forall i :: 0 <= i < t.Size() ==> t.Dest(i) in d && t.Temp(i) in d)
    && (forall i, j :: 0 <= i < j < t.Size() ==> t.Dest(i) != t.Dest(j) && t.Temp(i) != t.Temp(j))
    && (forall i, j :: 0 <= i < t.Size() && 0 <= j < t.Size() ==> t.Dest(i) != t.Temp(j))
  }

  lemma PromotableIsLaid(t: Target, disk: Disk)
    requires Promotable(t, disk)
    ensures Laid(t, disk.live)
  {
    forall i, j | 0 <= i < t.Size() && 0 <= j < t.Size() ensures t.Dest(i) != t.Temp(j) { t.DestIsNotTemp(i, j); }
    forall i | 0 <= i < t.Size() ensures t.Dest(i) in disk.live && t.Temp(i) in disk.live {
      assert t.TemporarySeen(disk, i) == Exact && t.DestinationSeen(disk, i) == Before;
    }
  }

  /** The entry of `p` after `k` renames. */
  lemma {:induction false} InstalledEntry(t: Target, d: Directory, k: nat, p: Path)
    requires Laid(t, d) && k <= t.Size()
    ensures var x := InstalledIn(t, d, k);
            && (forall i :: 0 <= i < k && p == t.Dest(i) ==> p in x && x[p] == d[t.Temp(i)])
            && (forall i :: 0 <= i < k && p == t.Temp(i) ==> p !in x)
            && ((forall i :: 0 <= i < k ==> p != t.Dest(i) && p != t.Temp(i)) ==>
                  (p in x <==> p in d) && (p in x ==> x[p] == d[p]))
  {
    if k > 0 {
      InstalledEntry(t, d, k - 1, p);
      InstalledEntry(t, d, k - 1, t.Temp(k - 1));
    }
  }

  lemma InstalledShape(t: Target, d: Directory, k: nat)
    requires Laid(t, d) && k <= t.Size()
    ensures var x := InstalledIn(t, d, k);
            && (forall i :: 0 <= i < k ==> t.Dest(i) in x && x[t.Dest(i)] == d[t.Temp(i)] && t.Temp(i) !in x)
            && (forall i :: k <= i < t.Size() ==>
                  && t.Dest(i) in x && x[t.Dest(i)] == d[t.Dest(i)]
                  && t.Temp(i) in x && x[t.Temp(i)] == d[t.Temp(i)])
  {
    forall i | 0 <= i < t.Size()
      ensures var x := InstalledIn(t, d, k);
              && (i < k ==> t.Dest(i) in x && x[t.Dest(i)] == d[t.Temp(i)] && t.Temp(i) !in x)
              && (k <= i ==>
                    t.Dest(i) in x && x[t.Dest(i)] == d[t.Dest(i)] && t.Temp(i) in x && x[t.Temp(i)] == d[t.Temp(i)])
    {
      InstalledEntry(t, d, k, t.Dest(i));
      InstalledEntry(t, d, k, t.Temp(i));
    }
  }

  /** Paths that are neither a temporary nor a destination are left alone. */
  lemma InstalledElsewhere(t: Target, d: Directory, k: nat, p: Path)
    requires Laid(t, d) && k <= t.Size()
    requires p !in t.Temps() && p !in t.Dests(Modify) && t.ModifyOnly()
    ensures var x := InstalledIn(t, d, k); (p in x <==> p in d) && (p in x ==> x[p] == d[p])
  {
    forall i | 0 <= i < k ensures p != t.Dest(i) && p != t.Temp(i) {
      assert t.Dest(i) in t.Dests(Modify) && t.Temp(i) in t.Temps();
    }
    InstalledEntry(t, d, k, p);
  }

  // ---- both together -------------------------------------------------------------------------

  /** `m` appends and `k` renames belong together: a rename runs at most one ahead of the journal. */
  predicate InStep(n: nat, m: nat, k: nat) {
    && m <= 2 * n + 3 && k <= n
    && (m == 0 ==> k == 0)
    && (1 <= m <= n + 1 ==> k == m - 1 || k == m)
    && (n + 1 < m ==> k == n)
  }

  /** The disk after `k` renames; on a disk that was settled, only a rename ahead of the journal still waits. */
  ghost predicate Stands(t: Target, before: Disk, disk: Disk, m: nat, k: nat)
    requires InStep(t.Size(), m, k)
  {
    && disk.inodes == before.inodes
    && disk.live == InstalledIn(t, before.live, k)
    && (before.Settled() ==>
          || disk.Settled()
          || (0 < k == m && disk.stable == InstalledIn(t, before.live, k - 1) && disk.pending == [Install(t, k - 1)]))
  }

  /** What every file looks like after `k` renames. */
  lemma InstalledEvidence(t: Target, before: Disk, disk: Disk, k: nat)
    requires Promotable(t, before) && k <= t.Size()
    requires disk.inodes == before.inodes && disk.live == InstalledIn(t, before.live, k)
    ensures forall i :: 0 <= i < k ==> t.DestinationSeen(disk, i) == After && t.TemporarySeen(disk, i) == Absent
    ensures forall i :: k <= i < t.Size() ==> t.DestinationSeen(disk, i) == Before && t.TemporarySeen(disk, i) == Exact
  {
    PromotableIsLaid(t, before);
    InstalledShape(t, before.live, k);
    forall i | 0 <= i < t.Size()
      ensures i < k ==> t.DestinationSeen(disk, i) == After && t.TemporarySeen(disk, i) == Absent
      ensures k <= i ==> t.DestinationSeen(disk, i) == Before && t.TemporarySeen(disk, i) == Exact
    {
      assert t.TemporarySeen(before, i) == Exact && t.DestinationSeen(before, i) == Before;
      assert t.plan.files[i].operation.Modify? && t.plan.files[i].before != Some(t.plan.files[i].after);
    }
  }

  /** Nothing else changes, so there is no foreign dirt. */
  lemma InstalledIsClean(t: Target, before: Disk, disk: Disk, k: nat)
    requires Promotable(t, before) && k <= t.Size()
    requires disk.inodes == before.inodes && disk.live == InstalledIn(t, before.live, k)
    ensures forall p :: p !in t.Temps() && p !in t.Dests(Modify) ==> disk.Look(p) == before.Look(p)
    ensures t.Clean(disk)
  {
    PromotableIsLaid(t, before);
    forall p | p !in t.Temps() && p !in t.Dests(Modify) ensures disk.Look(p) == before.Look(p) {
      InstalledElsewhere(t, before.live, k, p);
    }
    forall p | p !in t.Temps() && p !in t.Dests(Modify) ensures p !in t.Untracked(disk) && p !in t.Changed(disk) {
      assert p !in t.Untracked(before) && p !in t.Changed(before);
    }
    forall p | p in t.Dests(Modify) ensures p !in t.Untracked(disk) { }
    forall p | p in t.Temps() ensures p !in t.Changed(disk) { }
  }

  /** At every crash point the triples (progress, destination, temporary) are (PENDING, BEFORE, EXACT),
      (INSTALLED or VERIFIED, AFTER, ABSENT), or, for at most one file, (PENDING, AFTER, ABSENT). */
  lemma CrashTriples(t: Target, before: Disk, disk: Disk, m: nat, k: nat)
    requires Promotable(t, before) && InStep(t.Size(), m, k) && Stands(t, before, disk, m, k)
    ensures var es := t.Observed(disk, SnapshotAt(t.Size(), m).progress);
            && (forall i :: 0 <= i < t.Size() ==>
                  var e := es[i];
                  || (e.progress == Pending && e.destination == Before && e.temporary == Exact)
                  || (&& (e.progress == Installed || e.progress == Verified)
                      && e.destination == After && e.temporary == Absent)
                  || (e.progress == Pending && e.destination == After && e.temporary == Absent && i == k - 1 == m - 1))
            && (Active(SnapshotAt(t.Size(), m).state) ==> Inspectable(t, disk, SnapshotAt(t.Size(), m)))
  {
    InstalledEvidence(t, before, disk, k);
    InstalledIsClean(t, before, disk, k);
  }

  /** From every such crash point in an active state a rollback can be planned. */
  lemma CrashIsPlannable(t: Target, before: Disk, disk: Disk, m: nat, k: nat)
    requires Promotable(t, before) && InStep(t.Size(), m, k) && Stands(t, before, disk, m, k)
    requires 1 <= m <= 2 * t.Size() + 2
    ensures var s := SnapshotAt(t.Size(), m);
            Inspectable(t, disk, s) && RollbackPlan.PlanSteps(s.state, t.Observed(disk, s.progress)).Some?
  {
    var s := SnapshotAt(t.Size(), m);
    var es := t.Observed(disk, s.progress);
    CrashTriples(t, before, disk, m, k);
    forall e | e in es ensures RollbackPlan.Plannable(s.state, e) {
      var i :| 0 <= i < |es| && es[i] == e;
    }
    RollbackPlan.PlanExists(s.state, es);
  }

  /** How many snapshots a power loss leaves of `m`: all, or all but the last, if nothing was renamed after it. An
      append returns only when its snapshot is durable, so the one before a rename cannot be lost; the last one may have
      been on its way. */
  predicate Leaves(n: nat, m: nat, k: nat, m': nat) { m' == m || (m == m' + 1 && InStep(n, m', k)) }

  /** The crash points are closed under power loss, which may take back the snapshot on its way, the waiting rename, or
      both. Because a directory is synchronised before the INSTALLED snapshot is appended, what is left is a crash point
      again. In particular (INSTALLED, BEFORE, _) cannot come about and no destination becomes OTHER. */
  lemma PowerLossOfPromotion(t: Target, before: Disk, disk: Disk, m: nat, k: nat, m': nat, after: Disk)
    returns (k': nat)
    requires Promotable(t, before) && before.AtRest() && InStep(t.Size(), m, k) && Stands(t, before, disk, m, k)
    requires AfterPowerLoss(disk, after) && Leaves(t.Size(), m, k, m')
    ensures k - 1 <= k' <= k && InStep(t.Size(), m', k') && Stands(t, before, after, m', k')
  {
    assert after.inodes == before.inodes;
    if disk.Settled() {
      PowerLossOfNone(disk, after);
      k' := k;
    } else {
      PowerLossOfOne(disk, after, Install(t, k - 1));
      k' := if after.live == disk.live then k else k - 1;
    }
  }

  // ---- what the checks before a promotion do not see -----------------------------------------

  /** A prepared target fails the fixed checks of the later inspections exactly where a file is not tracked or its two
      images are the same. An untracked destination gets this far only if Git ignores it, or it has a temporary's
      name. */
  lemma ReadyButUnchecked(t: Target, disk: Disk)
    requires Ready(t, disk)
    ensures t.Checked() <==> forall i :: 0 <= i < t.Size() ==>
                               t.Dest(i) in t.git.tracked && t.plan.files[i].before != Some(t.plan.files[i].after)
    ensures forall i :: 0 <= i < t.Size() && t.Dest(i) !in t.git.tracked ==>
              t.git.ignored(t.Dest(i)) || t.Dest(i) in t.Temps()
  {
    forall i | 0 <= i < t.Size() && t.Dest(i) !in t.git.tracked && !t.git.ignored(t.Dest(i))
      ensures t.Dest(i) in t.Temps()
    {
      assert t.DestinationSeen(disk, i) == Before;
      assert t.Dest(i) in t.Untracked(disk);
    }
  }

  /** A tracked file whose two images are the same, prepared like any other. */
  lemma SameImagesAreReady() returns (t: Target, disk: Disk)
    ensures Ready(t, disk) && t.Size() == 1 && t.Dest(0) in t.git.tracked && !t.git.ignored(t.Dest(0))
    ensures t.plan.files[0].before == Some(t.plan.files[0].after) && !t.Checked()
  {
    var image, p := Image([], 0), Path("", "a");
    var plan := Plan("", "", "", [FilePlan(Modify, p, Some(image), image)]);
    t := Target(plan, _ => "", GitView(map[p := Blob([], false)], _ => false));
    var temp := t.Temp(0);
    assert |temp.name| > 1;
    var entries := map[p := 0, temp := 1];
    disk := Disk([Inode(image, true, true), Inode(image, true, true)], entries, entries, []);
    assert t.Temps() == {temp};
    assert t.DestinationSeen(disk, 0) == Before && t.TemporarySeen(disk, 0) == Exact;
    assert t.Untracked(disk) == {temp} && t.Changed(disk) == {};
  }
}
