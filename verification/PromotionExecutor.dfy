/** Applying and verifying a prepared, approved promotion. */
module PromotionExecutor {
  import opened Basics
  import opened FileSystem
  import opened Transaction
  import opened TransactionJournal
  import opened Target
  import opened Host
  import opened PromotionProgress
  import ApprovalStore
  import AppliedTarget
  import PreparedTarget
  import TargetPreparer

  /** The last snapshot of a marked journal: the files where they were, the state RECOVERY_REQUIRED. */
  function Marker(n: nat, m: nat): Record
    requires m <= 2 * n + 3
  {
    Record(m + 1, Some(SnapshotAt(n, m)), Snapshot(RecoveryRequired, SnapshotAt(n, m).progress))
  }

  /** Journal and disk stand at `m` appends and `k` renames. Without the plan's checks nothing gets past APPLYING. */
  ghost predicate At(h: Host, before: Disk, m: nat, k: nat)
    reads h`disk, h`journal
  {
    && InStep(h.target.Size(), m, k) && Stands(h.target, before, h.disk, m, k)
    && h.journal.size == h.target.Size() && h.journal.records == Log(h.target.Size(), m)
    && (1 < m || 0 < k ==> h.target.Checked())
  }

  /** The same, with the failure marked. */
  ghost predicate MarkedAt(h: Host, before: Disk, m: nat, k: nat)
    reads h`disk, h`journal
  {
    && InStep(h.target.Size(), m, k) && Stands(h.target, before, h.disk, m, k)
    && h.journal.size == h.target.Size() && h.journal.records == Log(h.target.Size(), m) + [Marker(h.target.Size(), m)]
    && 1 <= m <= 2 * h.target.Size() + 2
    && (1 < m || 0 < k ==> h.target.Checked())
  }

  lemma AppendGrowsLog(j: Journal, n: nat, m: nat)
    requires 0 < n && m < 2 * n + 3 && j.size == n && j.records == Log(n, m)
    ensures Current(j) == SnapshotAt(n, m) && Extended(j, SnapshotAt(n, m + 1)).records == Log(n, m + 1)
    ensures !j.torn && m + 2 <= MAX_SNAPSHOTS ==> Accepts(j, SnapshotAt(n, m), SnapshotAt(n, m + 1))
  {
    NextIsLegal(n, m);
    LogGrows(n, m);
    if m + 2 <= MAX_SNAPSHOTS { LogLoads(n, m); }
  }

  /** Nothing goes wrong for `n` calls from tick `t` on, and the next one dies in the middle of what it writes. */
  ghost predicate DiesTorn(faults: nat -> Fault, t: nat, n: nat) {
    (forall u :: t <= u < t + n ==> faults(u).Quiet?) && faults(t + n).DieTorn?
  }

  /** One append: the next snapshot of the promotion. */
  method Advance(h: Host, current: Snapshot, state: State, progress: seq<Progress>, ghost before: Disk,
                 ghost m: nat, ghost k: nat)
    returns (o: Outcome<Snapshot>, ghost m': nat)
    requires h.target.Valid() && At(h, before, m, k) && InStep(h.target.Size(), m + 1, k)
    requires current == SnapshotAt(h.target.Size(), m)
    requires Snapshot(state, progress) == SnapshotAt(h.target.Size(), m + 1)
    requires before.Settled() ==> h.disk.Settled()
    requires 0 < m || 0 < k ==> h.target.Checked()
    modifies h`tick, h`journal
    ensures h.Took(old(h.tick), old(h.journal), 2, o)
    ensures m' == m || m' == m + 1
    ensures At(h, before, m', k)
    ensures o.Done? ==> m' == m + 1 && o.value == SnapshotAt(h.target.Size(), m') && !h.journal.torn
    ensures !old(h.journal.torn) && m + 2 <= MAX_SNAPSHOTS ==>
      && (h.Smooth(old(h.tick)) ==> o.Done?)
      && (old(h.QuietFor(1)) && h.faults(old(h.tick) + 1).DieTorn? ==> o.Dead? && m' == m && h.journal.torn)
  {
    AppendGrowsLog(h.journal, h.target.Size(), m);
    ghost var journal := h.journal;
    o := h.Append(current, state, progress);
    m' := if h.journal.records == journal.records then m else m + 1;
  }

  /** Which shape the observed files must have. */
  datatype Shape = InOrder | JustInstalled(i: nat) | AllAfter

  predicate FileFits(e: Evidence, shape: Shape, i: nat) {
    if shape == JustInstalled(i) then e.destination == After && e.temporary == Absent && e.progress == Pending
    else if shape.AllAfter? then e.destination == After && e.temporary == Absent
    else match e.progress
    case Pending => e.destination == Before && e.temporary == Exact
    case Installed => e.destination == After && e.temporary == Absent
    case Verified => e.destination == After && e.temporary == Absent
    case Restored => false
  }

  /** Each shape leaves one situation to every file: the after image and no temporary where it must be installed, and
      otherwise the before image with the exact temporary. */
  lemma ShapeIsExact(e: Evidence, shape: Shape, i: nat)
    ensures var installed := shape == AllAfter || shape == JustInstalled(i) || e.progress != Pending;
            FileFits(e, shape, i) <==>
              && (e.destination, e.temporary) == (if installed then (After, Absent) else (Before, Exact))
              && (shape == JustInstalled(i) ==> e.progress == Pending)
              && (e.progress == Restored ==> shape == AllAfter)
  {
  }

  /** Inspect, and require the shape of every file. */
  method RequireShape(h: Host, s: Snapshot, shape: Shape) returns (o: Outcome<()>)
    requires h.target.Valid()
    modifies h`tick
    ensures h.Took(old(h.tick), h.journal, 2, o)
    ensures o.Done? ==>
      && AppliedTarget.Inspectable(h.target, h.disk, s) && !h.journal.torn
      && forall i :: 0 <= i < h.target.Size() ==> FileFits(h.target.Seen(h.disk, s.progress, i), shape, i)
    ensures
      && Loads(h.journal) && Current(h.journal) == s && AppliedTarget.Inspectable(h.target, h.disk, s)
      && (forall i :: 0 <= i < h.target.Size() ==> FileFits(h.target.Seen(h.disk, s.progress, i), shape, i))
      && h.Smooth(old(h.tick))
      ==> o.Done?
  {
    var files :- AppliedTarget.Inspect(h, s);
    for i := 0 to |files|
      invariant forall j :: 0 <= j < i ==> FileFits(h.target.Seen(h.disk, s.progress, j), shape, j)
    {
      assert files[i] == h.target.Seen(h.disk, s.progress, i);
      if !FileFits(files[i], shape, i) { return Error; }
    }
    o := Done(());
  }

  /** Read both files once more, rename, and synchronise the directory. Whatever the disk holds by now, nothing is
      replaced unless the destination still is the before image and the temporary the after image, exactly. */
  method GuardedInstall(h: Host, i: nat) returns (o: Outcome<()>)
    requires h.target.Valid() && h.target.ModifyOnly() && i < h.target.Size()
    modifies h`tick, h`disk
    ensures h.Took(old(h.tick), h.journal, 3, o)
    ensures h.disk != old(h.disk) || o.Done? ==> Installable(h.target, old(h.disk), i)
    ensures var renamed := old(h.disk).Do(Install(h.target, i));
            var synced := renamed.SyncDirectory(h.target.Dest(i).dir);
            (h.disk == old(h.disk) || h.disk == renamed || h.disk == synced) && (o.Done? ==> h.disk == synced)
    ensures Installable(h.target, old(h.disk), i) && h.Smooth(old(h.tick)) ==> o.Done?
  {
    var t, disk := h.target, h.disk;
    var _ :- h.Probe();
    if !disk.Holds(t.Dest(i), t.plan.files[i].before.value) || !disk.Holds(t.Temp(i), t.plan.files[i].after) {
      return Error;
    }
    hide Disk.Do, Disk.SyncDirectory, Disk.Holds;
    var _ :- h.Perform(disk, disk.Do(Install(t, i)));
    o := h.Perform(h.disk, h.disk.SyncDirectory(t.Dest(i).dir));
  }

  /** Destination and temporary of file `i` are its before and its after image. */
  predicate Installable(t: Target, disk: Disk, i: nat)
    requires i < t.Size() && t.plan.files[i].before.Some?
  {
    disk.Holds(t.Dest(i), t.plan.files[i].before.value) && disk.Holds(t.Temp(i), t.plan.files[i].after)
  }

  /** The rename and its fsync, where they are due. */
  method InstallModify(h: Host, i: nat, ghost before: Disk) returns (o: Outcome<()>, ghost k: nat)
    requires Promotable(h.target, before) && i < h.target.Size() && At(h, before, i + 1, i)
    requires before.Settled() ==> h.disk.Settled()
    modifies h`tick, h`disk
    ensures h.Took(old(h.tick), h.journal, 3, o)
    ensures k == i || k == i + 1
    ensures At(h, before, i + 1, k)
    ensures o.Done? ==> k == i + 1 && (before.Settled() ==> h.disk.Settled())
    ensures h.Smooth(old(h.tick)) ==> o.Done?
  {
    InstallReads(h.target, before, h.disk, i);
    InstallStands(h.target, before, h.disk, i);
    hide Stands, InstalledIn, Install, Promotable, Disk.Do, Disk.SyncDirectory, Disk.Settled, Log, Installable;
    ghost var disk := h.disk;
    o := GuardedInstall(h, i);
    k := if h.disk == disk && !o.Done? then i else i + 1;
  }

  /** What the two reads find where an installation is due. */
  lemma InstallReads(t: Target, before: Disk, disk: Disk, i: nat)
    requires Promotable(t, before) && i < t.Size() && Stands(t, before, disk, i + 1, i)
    ensures t.plan.files[i].before.Some? && Installable(t, disk, i)
  {
    InstalledEvidence(t, before, disk, i);
    assert t.DestinationSeen(disk, i) == Before && t.TemporarySeen(disk, i) == Exact;
  }

  /** The rename and its fsync, at the crash point where they are due. */
  lemma InstallStands(t: Target, before: Disk, disk: Disk, i: nat)
    requires Promotable(t, before) && i < t.Size() && Stands(t, before, disk, i + 1, i)
    requires before.Settled() ==> disk.Settled()
    ensures var renamed := disk.Do(Install(t, i));
            var synced := renamed.SyncDirectory(t.Dest(i).dir);
            && Stands(t, before, renamed, i + 1, i + 1) && Stands(t, before, synced, i + 1, i + 1)
            && (before.Settled() ==> synced.Settled())
  {
    if before.Settled() { SyncSettles(disk.Do(Install(t, i)), Install(t, i)); }
  }

  /** What an inspection finds at a crash point, in terms of the shapes the executor asks for. */
  lemma ShapesFit(t: Target, before: Disk, disk: Disk, m: nat, k: nat)
    requires Promotable(t, before) && InStep(t.Size(), m, k) && Stands(t, before, disk, m, k)
    requires 1 <= m <= 2 * t.Size() + 2
    ensures AppliedTarget.Inspectable(t, disk, SnapshotAt(t.Size(), m))
    ensures k == m - 1 || t.Size() < m ==>
      forall i :: 0 <= i < t.Size() ==> FileFits(t.Seen(disk, SnapshotAt(t.Size(), m).progress, i), InOrder, i)
    ensures k == m ==>
      forall i :: 0 <= i < t.Size() ==>
        FileFits(t.Seen(disk, SnapshotAt(t.Size(), m).progress, i), JustInstalled(k - 1), i)
    ensures k == t.Size() ==>
      forall i :: 0 <= i < t.Size() ==> FileFits(t.Seen(disk, SnapshotAt(t.Size(), m).progress, i), AllAfter, i)
  {
    CrashTriples(t, before, disk, m, k);
    InstalledEvidence(t, before, disk, k);
  }

  /** The inspection before an installation. */
  method InspectBefore(h: Host, i: nat, current: Snapshot, ghost before: Disk) returns (o: Outcome<()>)
    requires h.target.Valid() && Ready(h.target, before) && i < h.target.Size() && At(h, before, i + 1, i)
    requires current == SnapshotAt(h.target.Size(), i + 1)
    modifies h`tick
    ensures h.Took(old(h.tick), h.journal, 2, o)
    ensures o.Done? ==> h.target.Checked()
    ensures !h.journal.torn && h.target.Checked() && i + 1 < MAX_SNAPSHOTS && h.Smooth(old(h.tick)) ==> o.Done?
  {
    if h.target.Checked() { ShapesFit(h.target, before, h.disk, i + 1, i); }
    if i + 1 < MAX_SNAPSHOTS { LogLoads(h.target.Size(), i + 1); }
    o := RequireShape(h, current, InOrder);
  }

  /** And the one after it. */
  method InspectAfter(h: Host, i: nat, current: Snapshot, ghost before: Disk) returns (o: Outcome<()>)
    requires Promotable(h.target, before) && i < h.target.Size() && At(h, before, i + 1, i + 1)
    requires current == SnapshotAt(h.target.Size(), i + 1)
    modifies h`tick
    ensures h.Took(old(h.tick), h.journal, 2, o)
    ensures !h.journal.torn && i + 1 < MAX_SNAPSHOTS && h.Smooth(old(h.tick)) ==> o.Done?
  {
    ShapesFit(h.target, before, h.disk, i + 1, i + 1);
    if i + 1 < MAX_SNAPSHOTS { LogLoads(h.target.Size(), i + 1); }
    o := RequireShape(h, current, JustInstalled(i));
  }

  /** One installation: inspect, rename, inspect, append. */
  method InstallOne(h: Host, i: nat, current: Snapshot, ghost before: Disk)
    returns (o: Outcome<Snapshot>, ghost m: nat, ghost k: nat)
    requires h.target.Valid() && Ready(h.target, before) && i < h.target.Size() && At(h, before, i + 1, i)
    requires current == SnapshotAt(h.target.Size(), i + 1) && (before.Settled() ==> h.disk.Settled())
    modifies h`tick, h`disk, h`journal
    ensures h.Took(old(h.tick), old(h.journal), 9, o)
    ensures At(h, before, m, k) && 1 <= m
    ensures o.Done? ==> && m == i + 2 && k == i + 1 && o.value == SnapshotAt(h.target.Size(), m)
                        && h.target.Checked() && !h.journal.torn && (before.Settled() ==> h.disk.Settled())
    ensures !old(h.journal.torn) && h.target.Checked() && i + 3 <= MAX_SNAPSHOTS ==>
      && (h.Smooth(old(h.tick)) ==> o.Done?)
      && (DiesTorn(h.faults, old(h.tick), 8) ==> o.Dead? && m == k == i + 1 && h.journal.torn)
  {
    hide At, Stands, Ready, SnapshotAt, Log, Disk.Settled;
    m, k := i + 1, i;
    var inspected := InspectBefore(h, i, current, before);
    if !inspected.Done? { return inspected.PropagateFailure(), m, k; }
    var installed;
    installed, k := InstallModify(h, i, before);
    if !installed.Done? { return installed.PropagateFailure(), m, k; }
    o, m := ConfirmInstalled(h, i, current, before);
  }

  /** The second half of an installation. */
  method ConfirmInstalled(h: Host, i: nat, current: Snapshot, ghost before: Disk)
    returns (o: Outcome<Snapshot>, ghost m: nat)
    requires Promotable(h.target, before) && i < h.target.Size() && At(h, before, i + 1, i + 1)
    requires current == SnapshotAt(h.target.Size(), i + 1) && (before.Settled() ==> h.disk.Settled())
    modifies h`tick, h`journal
    ensures h.Took(old(h.tick), old(h.journal), 4, o)
    ensures (m == i + 1 || m == i + 2) && At(h, before, m, i + 1)
    ensures o.Done? ==> m == i + 2 && o.value == SnapshotAt(h.target.Size(), m) && !h.journal.torn
    ensures !old(h.journal.torn) && i + 3 <= MAX_SNAPSHOTS ==>
      && (h.Smooth(old(h.tick)) ==> o.Done?)
      && (DiesTorn(h.faults, old(h.tick), 3) ==> o.Dead? && m == i + 1 && h.journal.torn)
  {
    ghost var n := h.target.Size();
    m := i + 1;
    assert Snapshot(Applying, current.progress[i := Installed]) == SnapshotAt(n, m + 1);
    var inspected := InspectAfter(h, i, current, before);
    if !inspected.Done? { return inspected.PropagateFailure(), m; }
    o, m := Advance(h, current, Applying, current.progress[i := Installed], before, m, i + 1);
  }

  /** The install loop, file after file. */
  method InstallAll(h: Host, start: Snapshot, ghost before: Disk)
    returns (o: Outcome<Snapshot>, ghost m: nat, ghost k: nat)
    requires h.target.Valid() && Ready(h.target, before) && At(h, before, 1, 0)
    requires start == SnapshotAt(h.target.Size(), 1) && (before.Settled() ==> h.disk.Settled())
    modifies h`tick, h`disk, h`journal
    ensures h.Took(old(h.tick), old(h.journal), 9 * h.target.Size(), o)
    ensures At(h, before, m, k) && 1 <= m
    ensures o.Done? ==> && m == h.target.Size() + 1 && k == h.target.Size() && o.value == SnapshotAt(h.target.Size(), m)
                        && h.target.Checked() && !h.journal.torn
                        && (before.Settled() ==> h.disk.Settled())
    ensures !old(h.journal.torn) && h.target.Checked() && h.target.Size() + 2 <= MAX_SNAPSHOTS ==>
      && (h.Smooth(old(h.tick)) ==> o.Done?)
      && forall w :: 0 <= w < h.target.Size() && DiesTorn(h.faults, old(h.tick), 9 * w + 8) ==>
           o.Dead? && m == k == w + 1 && h.journal.torn
  {
    hide At, Stands, Ready, SnapshotAt, Log, Target.Checked, Disk.Settled;
    var n := h.target.Size();
    var current := start;
    m, k := 1, 0;
    for i := 0 to n
      invariant h.tick == old(h.tick) + 9 * i && h.Smooth(old(h.tick))
      invariant m == i + 1 && k == i && At(h, before, m, k) && current == SnapshotAt(n, m)
      invariant before.Settled() ==> h.disk.Settled()
      invariant 0 < i ==> h.target.Checked() && !h.journal.torn
      invariant h.journal.torn ==> old(h.journal.torn)
      invariant !old(h.journal.torn) && h.target.Checked() && n + 2 <= MAX_SNAPSHOTS ==>
        forall w :: 0 <= w < n && DiesTorn(h.faults, old(h.tick), 9 * w + 8) ==> i <= w
    {
      o, m, k := InstallOne(h, i, current, before);
      if !o.Done? { return; }
      current := o.value;
    }
    o := Done(current);
  }

  /** One verification: inspect, require every destination installed, append. */
  method VerifyThenAdvance(h: Host, current: Snapshot, state: State, progress: seq<Progress>,
                      ghost before: Disk, ghost m: nat)
    returns (o: Outcome<Snapshot>, ghost m': nat)
    requires Promotable(h.target, before) && At(h, before, m, h.target.Size())
    requires h.target.Size() + 2 <= m <= 2 * h.target.Size() + 2
    requires current == SnapshotAt(h.target.Size(), m)
    requires Snapshot(state, progress) == SnapshotAt(h.target.Size(), m + 1)
    modifies h`tick, h`journal
    ensures h.Took(old(h.tick), old(h.journal), 4, o)
    ensures m' == m || m' == m + 1
    ensures At(h, before, m', h.target.Size())
    ensures o.Done? ==> m' == m + 1 && o.value == SnapshotAt(h.target.Size(), m') && !h.journal.torn
    ensures !old(h.journal.torn) && m + 2 <= MAX_SNAPSHOTS && h.Smooth(old(h.tick)) ==> o.Done?
  {
    m' := m;
    ShapesFit(h.target, before, h.disk, m, h.target.Size());
    if m < MAX_SNAPSHOTS { LogLoads(h.target.Size(), m); }
    var inspected := RequireShape(h, current, AllAfter);
    if !inspected.Done? { return inspected.PropagateFailure(), m; }
    o, m' := Advance(h, current, state, progress, before, m, h.target.Size());
  }

  /** The verification loop, from VERIFYING to COMPLETED. That a file is still INSTALLED when its turn comes,
      and that all are VERIFIED at the end, needs no check: the snapshots are known. */
  method VerifyAll(h: Host, start: Snapshot, ghost before: Disk)
    returns (o: Outcome<Snapshot>, ghost m: nat)
    requires Promotable(h.target, before)
    requires At(h, before, h.target.Size() + 1, h.target.Size())
    requires start == SnapshotAt(h.target.Size(), h.target.Size() + 1) && (before.Settled() ==> h.disk.Settled())
    modifies h`tick, h`journal
    ensures h.Took(old(h.tick), old(h.journal), 4 * h.target.Size() + 6, o)
    ensures At(h, before, m, h.target.Size()) && 1 <= m
    ensures o.Done? ==> m == 2 * h.target.Size() + 3 && o.value == SnapshotAt(h.target.Size(), m) && !h.journal.torn
    ensures !old(h.journal.torn) && 2 * h.target.Size() + 4 <= MAX_SNAPSHOTS && h.Smooth(old(h.tick)) ==> o.Done?
  {
    var n := h.target.Size();
    m := n + 1;
    assert Snapshot(Verifying, start.progress) == SnapshotAt(n, n + 2);
    o, m := Advance(h, start, Verifying, start.progress, before, m, n);
    if !o.Done? { return; }
    var current := o.value;
    for i := 0 to n
      invariant h.tick == old(h.tick) + 4 * i + 2 && h.Smooth(old(h.tick))
      invariant m == n + 2 + i && At(h, before, m, n) && current == SnapshotAt(n, m) && !h.journal.torn
    {
      assert current.progress[i] == Installed;
      assert Snapshot(Verifying, current.progress[i := Verified]) == SnapshotAt(n, m + 1);
      o, m := VerifyThenAdvance(h, current, Verifying, current.progress[i := Verified], before, m);
      if !o.Done? { return; }
      current := o.value;
    }
    assert Snapshot(Completed, current.progress) == SnapshotAt(n, m + 1);
    o, m := VerifyThenAdvance(h, current, Completed, current.progress, before, m);
  }

  /** Everything inside the source's try block. */
  method Apply(h: Host, start: Snapshot, ghost before: Disk)
    returns (o: Outcome<Snapshot>, ghost m: nat, ghost k: nat)
    requires h.target.Valid() && Ready(h.target, before) && At(h, before, 0, 0) && start == Initial(h.target.Size())
    requires h.disk == before
    modifies h`tick, h`disk, h`journal
    ensures h.Took(old(h.tick), old(h.journal), 13 * h.target.Size() + 8, o)
    ensures At(h, before, m, k)
    ensures o.Done? ==>
      && m == 2 * h.target.Size() + 3 && k == h.target.Size() && o.value == SnapshotAt(h.target.Size(), m)
                        && !h.journal.torn
    ensures !old(h.journal.torn) && h.Smooth(old(h.tick)) ==> 1 <= m
    ensures !old(h.journal.torn) && h.target.Checked() && 2 * h.target.Size() + 4 <= MAX_SNAPSHOTS ==>
      && (h.Smooth(old(h.tick)) ==> o.Done?)
      && forall w :: 0 <= w < h.target.Size() && DiesTorn(h.faults, old(h.tick), 9 * w + 10) ==>
           o.Dead? && m == k == w + 1 && h.journal.torn
  {
    var n := h.target.Size();
    assert Snapshot(Applying, start.progress) == SnapshotAt(n, 1);
    k := 0;
    o, m := Advance(h, start, Applying, start.progress, before, 0, 0);
    if !o.Done? { return; }
    o, m, k := InstallAll(h, o.value, before);
    if !o.Done? { return; }
    o, m := VerifyAll(h, o.value, before);
  }

  lemma MarkIsLegal(j: Journal, n: nat, m: nat)
    requires 0 < n && 1 <= m <= 2 * n + 2 && j.size == n && j.records == Log(n, m)
    ensures Current(j) == SnapshotAt(n, m)
    ensures Extended(j, Marker(n, m).snapshot).records == Log(n, m) + [Marker(n, m)]
    ensures !j.torn && m + 2 <= MAX_SNAPSHOTS ==> Accepts(j, SnapshotAt(n, m), Marker(n, m).snapshot)
  {
    if m < MAX_SNAPSHOTS { LogLoads(n, m); }
    MarkIsTransition(n, m);
    assert Extended(j, Marker(n, m).snapshot).records == Log(n, m) + [Marker(n, m)];
  }

  lemma MarkIsTransition(n: nat, m: nat)
    requires 0 < n && 1 <= m <= 2 * n + 2
    ensures var s := SnapshotAt(n, m);
            Transition(s, RecoveryRequired, s.progress) == Some(Marker(n, m).snapshot) && s != Marker(n, m).snapshot
  {
    NextIsLegal(n, m);
  }

  /** Append RECOVERY_REQUIRED after `durable`. */
  method Mark(h: Host, durable: Snapshot, ghost before: Disk, ghost m: nat, ghost k: nat) returns (e: Ending)
    requires h.target.Valid() && At(h, before, m, k) && 1 <= m <= 2 * h.target.Size() + 2
    requires durable == SnapshotAt(h.target.Size(), m)
    modifies h`tick, h`journal
    ensures e.FailedClosed? || e.FailedOpen? || e.Died?
    ensures old(h.tick) <= h.tick && (e.Died? <==> h.Killed(old(h.tick)))
    ensures At(h, before, m, k) || MarkedAt(h, before, m, k)
    ensures e.FailedClosed? ==>
      MarkedAt(h, before, m, k) && !h.journal.torn && e.snapshot == Marker(h.target.Size(), m).snapshot
    ensures old(h.Calm()) && !old(h.journal.torn) && m + 2 <= MAX_SNAPSHOTS ==> e.FailedClosed?
  {
    MarkIsLegal(h.journal, h.target.Size(), m);
    var marked := h.Append(durable, RecoveryRequired, durable.progress);
    e := if marked.Dead? then Died else if marked.Error? then FailedOpen else FailedClosed(marked.value);
  }

  /** _fail_closed_state: read the durable state back, or mark it RECOVERY_REQUIRED. */
  method FailClosed(h: Host, initial: Snapshot, ghost before: Disk, ghost m: nat, ghost k: nat) returns (e: Ending)
    requires h.target.Valid() && At(h, before, m, k) && initial == Initial(h.target.Size())
    modifies h`tick, h`journal
    ensures e.FailedClosed? || e.FailedOpen? || e.Died?
    ensures old(h.tick) <= h.tick && (e.Died? <==> h.Killed(old(h.tick)))
    ensures At(h, before, m, k) || MarkedAt(h, before, m, k)
    ensures e.FailedClosed? ==>
      && !h.journal.torn
      && if 1 <= m <= 2 * h.target.Size() + 2 then
           MarkedAt(h, before, m, k) && e.snapshot == Marker(h.target.Size(), m).snapshot
         else At(h, before, m, k) && e.snapshot == SnapshotAt(h.target.Size(), m)
    ensures
      && old(h.Calm()) && !old(h.journal.torn) && m < MAX_SNAPSHOTS
      && (m <= 2 * h.target.Size() + 2 ==> m + 2 <= MAX_SNAPSHOTS)
      ==> e.FailedClosed?
  {
    hide Stands, InstalledIn, Target.Checked;
    ghost var n := h.target.Size();
    if m < MAX_SNAPSHOTS { LogLoads(n, m); }
    assert Current(h.journal) == SnapshotAt(n, m);
    var loaded := h.LoadJournal();
    if loaded.Dead? { return Died; }
    if loaded.Error? { return FailedOpen; }
    var durable := loaded.value;
    if durable.state == State.Prepared {
      e := if durable == initial then FailedClosed(durable) else FailedOpen;
    } else if durable.state == RecoveryRequired || durable.state == Completed {
      e := FailedClosed(durable);
    } else if durable.state == Applying || durable.state == Verifying {
      e := Mark(h, durable, before, m, k);
    } else {
      e := FailedOpen;
    }
  }

  /** The consumption the preparation claims is in the store. */
  predicate Approved(t: Target, store: ApprovalStore.Store, prep: TargetPreparer.Preparation, now: ApprovalStore.Time) {
    var q := ApprovalStore.Query(store, prep.approvalId, t.plan.proposalId, now);
    && q.Some? && q.value.status == "consumed" && q.value.terminal.Some?
    && q.value.approval.id == prep.approvalId && q.value.approval.proposalId == t.plan.proposalId
    && q.value.terminal.value == ApprovalStore.Terminal(prep.approvalId, t.plan.proposalId,
                                                        ApprovalStore.Consumed(t.plan.runId), prep.terminalAt)
  }

  predicate Matches(t: Target, prep: TargetPreparer.Preparation) {
    && prep.transactionId == t.plan.transactionId && prep.proposalId == t.plan.proposalId && prep.runId == t.plan.runId
    && prep.temps == seq(t.Size(), _ => Exact)
  }

  /** The checks made before anything is attempted. */
  method Preflight(h: Host, store: ApprovalStore.Store, now: ApprovalStore.Time, s: Snapshot,
                   prep: TargetPreparer.Preparation)
    returns (o: Outcome<()>)
    requires h.target.Valid()
    modifies h`tick
    ensures h.Took(old(h.tick), h.journal, 5, o)
    ensures o.Done? ==>
      && Loads(h.journal) && Current(h.journal) == s == Initial(h.target.Size())
      && Ready(h.target, h.disk) && Matches(h.target, prep) && Approved(h.target, store, prep, now)
    ensures
      && Loads(h.journal) && Current(h.journal) == s == Initial(h.target.Size()) && h.Smooth(old(h.tick))
      && Ready(h.target, h.disk) && Matches(h.target, prep) && Approved(h.target, store, prep, now)
      ==> o.Done?
  {
    hide Approved, Linked, Chain, Target.TempsVisible, PreparedTarget.Untouched;
    var t := h.target;
    if s != Initial(t.Size()) || !t.ModifyOnly() { return Error; }
    var durable :- h.LoadJournal();
    if durable != s { return Error; }
    var _ :- h.Probe();
    ReadyAsInspected(t, h.disk);
    var temps :- PreparedTarget.Inspect(h, s);
    if temps != prep.temps || !Matches(t, prep) { return Error; }
    var _ :- h.Probe();
    if !Approved(t, store, prep, now) { return Error; }
    o := h.Probe();
  }

  lemma ReadyAsInspected(t: Target, disk: Disk)
    requires t.Valid() && t.ModifyOnly()
    ensures Ready(t, disk) <==>
              PreparedTarget.Untouched(t, disk) && PreparedTarget.Temporaries(t, disk) == seq(t.Size(), _ => Exact)
  {
    var temps := PreparedTarget.Temporaries(t, disk);
    if temps == seq(t.Size(), _ => Exact) {
      forall i | 0 <= i < t.Size() ensures t.TemporarySeen(disk, i) == Exact { assert temps[i] == Exact; }
    }
  }

  lemma InitialLog(j: Journal)
    requires Loads(j) && Current(j) == Initial(j.size)
    ensures j.records == Log(j.size, 0)
  {
    if 1 < |j.records| { NeverPreparedAgain(j, |j.records| - 1); }
  }

  lemma NeverPreparedAgain(j: Journal, i: nat)
    requires Loads(j) && 0 < i < |j.records|
    ensures j.records[i].snapshot.state != State.Prepared
  {
    var from, to := j.records[i - 1].snapshot, j.records[i].snapshot;
    assert Linked(j.records, i);
  }

  /** execute_lab_promotion_transaction. `m` and `k` say how far journal and disk got. */
  method Execute(h: Host, store: ApprovalStore.Store, now: ApprovalStore.Time, s: Snapshot,
                 prep: TargetPreparer.Preparation)
    returns (e: Ending, ghost m: nat, ghost k: nat)
    requires h.target.Valid() && h.journal.size == h.target.Size()
    modifies h`tick, h`disk, h`journal
    // Refused, or dead, before the attempt: nothing changed.
    ensures || e.Refused? || (h.disk == old(h.disk) && h.journal == old(h.journal))
            || Attempted(h, old(h.disk), store, now, prep, m, k)
    ensures e.Refused? ==> h.disk == old(h.disk) && h.journal == old(h.journal)
    ensures h.disk != old(h.disk) || h.journal != old(h.journal) ==>
      && Loads(old(h.journal)) && Current(old(h.journal)) == s == Initial(h.target.Size())
      && prep.transactionId == h.target.plan.transactionId && prep.proposalId == h.target.plan.proposalId
      && prep.runId == h.target.plan.runId && |prep.temps| == h.target.Size()
    // Returned: everything is installed, verified and journaled, in exactly 2n + 3 appends.
    ensures e.Finished? ==>
      && Attempted(h, old(h.disk), store, now, prep, m, k) && At(h, old(h.disk), m, k)
      && m == 2 * h.target.Size() + 3 && k == h.target.Size() && e.snapshot == SnapshotAt(h.target.Size(), m)
      && !h.journal.torn && h.Smooth(old(h.tick)) && h.tick == old(h.tick) + 13 * h.target.Size() + 13
    // Failed, with a durable state: the untouched PREPARED, COMPLETED, or RECOVERY_REQUIRED.
    ensures e.FailedClosed? ==>
      && Attempted(h, old(h.disk), store, now, prep, m, k) && !h.journal.torn
      && if 1 <= m <= 2 * h.target.Size() + 2 then
           MarkedAt(h, old(h.disk), m, k) && e.snapshot == Marker(h.target.Size(), m).snapshot
         else At(h, old(h.disk), m, k) && e.snapshot == SnapshotAt(h.target.Size(), m)
    ensures e.Died? <==> h.Killed(old(h.tick))
    // Past the preflight, one call that raises, wherever it strikes, does not keep the failure from being marked; and a
    // plan that fails the fixed checks is marked right after APPLYING.
    ensures
      && old(h.QuietFor(5)) && Loads(old(h.journal)) && Current(old(h.journal)) == s == Initial(h.target.Size())
      && Ready(h.target, old(h.disk)) && Matches(h.target, prep) && Approved(h.target, store, prep, now)
      && 2 * h.target.Size() + 4 <= MAX_SNAPSHOTS
      ==> && (old(h.OneRaise()) && h.target.Checked() ==> e.Finished? || e.FailedClosed?)
          && (old(h.Calm()) && !h.target.Checked() ==> e.FailedClosed? && m == 1)
    // Nothing goes wrong unless something is wrong.
    ensures
      && old(h.Calm()) && Loads(old(h.journal)) && Current(old(h.journal)) == s == Initial(h.target.Size())
      && Promotable(h.target, old(h.disk)) && Matches(h.target, prep) && Approved(h.target, store, prep, now)
      && 2 * h.target.Size() + 4 <= MAX_SNAPSHOTS
      ==> e.Finished?
    // A death in the middle of the append that follows installation `w` leaves file `w` installed and the journal torn.
    ensures
      && Loads(old(h.journal)) && Current(old(h.journal)) == s == Initial(h.target.Size())
      && Promotable(h.target, old(h.disk)) && Matches(h.target, prep) && Approved(h.target, store, prep, now)
      && 2 * h.target.Size() + 4 <= MAX_SNAPSHOTS
      ==> forall w :: 0 <= w < h.target.Size() && DiesTorn(h.faults, old(h.tick), 9 * w + 15) ==>
            e.Died? && At(h, old(h.disk), w + 1, w + 1) && h.journal.torn
  {
    hide At, MarkedAt, Stands, InStep, SnapshotAt, Ready, Approved;
    m, k := 0, 0;
    ghost var before := h.disk;
    var allowed := Preflight(h, store, now, s, prep);
    if allowed.Dead? { return Died, m, k; }
    if allowed.Error? { return Refused, m, k; }
    InitialLog(h.journal);
    e, m, k := Attempt(h, s, before);
  }

  /** Past the preflight: apply, and fail closed. */
  method Attempt(h: Host, s: Snapshot, ghost before: Disk) returns (e: Ending, ghost m: nat, ghost k: nat)
    requires h.target.Valid() && Ready(h.target, before) && h.disk == before && s == Initial(h.target.Size())
    requires h.journal == Journal(h.target.Size(), Log(h.target.Size(), 0), false)
    modifies h`tick, h`disk, h`journal
    ensures old(h.tick) <= h.tick && (e.Died? <==> h.Killed(old(h.tick)))
    ensures !e.Refused? && (At(h, before, m, k) || MarkedAt(h, before, m, k))
    ensures e.Finished? ==>
      && At(h, before, m, k) && m == 2 * h.target.Size() + 3 && k == h.target.Size()
      && e.snapshot == SnapshotAt(h.target.Size(), m) && !h.journal.torn
      && h.Smooth(old(h.tick)) && h.tick == old(h.tick) + 13 * h.target.Size() + 8
    ensures e.FailedClosed? ==>
      && !h.journal.torn
      && if 1 <= m <= 2 * h.target.Size() + 2 then
           MarkedAt(h, before, m, k) && e.snapshot == Marker(h.target.Size(), m).snapshot
         else At(h, before, m, k) && e.snapshot == SnapshotAt(h.target.Size(), m)
    ensures 2 * h.target.Size() + 4 <= MAX_SNAPSHOTS ==>
      && (old(h.OneRaise()) && h.target.Checked() ==> e.Finished? || e.FailedClosed?)
      && (old(h.Calm()) && !h.target.Checked() ==> e.FailedClosed? && m == 1)
    ensures h.target.Checked() && 2 * h.target.Size() + 4 <= MAX_SNAPSHOTS ==>
      && (old(h.Calm()) ==> e.Finished?)
      && forall w :: 0 <= w < h.target.Size() && DiesTorn(h.faults, old(h.tick), 9 * w + 10) ==>
           e.Died? && At(h, before, w + 1, w + 1) && h.journal.torn
  {
    assert At(h, before, 0, 0);
    hide At, MarkedAt, Stands, InStep, Log, SnapshotAt, Ready, Target.Checked;
    var applied;
    applied, m, k := Apply(h, s, before);
    if applied.Done? { return Finished(applied.value), m, k; }
    if applied.Dead? { return Died, m, k; }
    if old(h.OneRaise()) && !h.Smooth(old(h.tick)) { OneIsSpent(h.faults, old(h.tick), h.tick); }
    e := FailClosed(h, s, before, m, k);
  }

  /** The run got past the preflight, with a consumed approval, and stands at `m` and `k`. */
  ghost predicate Attempted(h: Host, before: Disk, store: ApprovalStore.Store, now: ApprovalStore.Time,
                            prep: TargetPreparer.Preparation, m: nat, k: nat)
    reads h`disk, h`journal
  {
    && Ready(h.target, before) && Approved(h.target, store, prep, now)
    && (At(h, before, m, k) || MarkedAt(h, before, m, k))
  }
}
