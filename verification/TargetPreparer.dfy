/** Preparation: the consumption of one approval, then the creation of the temporaries. */
module TargetPreparer {
  import opened Basics
  import opened FileSystem
  import opened Transaction
  import opened TransactionJournal
  import opened Target
  import opened Host
  import ApprovalStore
  import PreparedTarget
  import PromotionProgress

  const INITIAL_CREATE_MODE: nat := 0x180

  /** The evidence that a preparation succeeded. */
  datatype Preparation = Preparation(transactionId: string, proposalId: string, runId: string,
                                     approvalId: string, terminalAt: ApprovalStore.Time, temps: seq<TemporaryStatus>)

  function Evidence(t: Target, approvalId: string, now: ApprovalStore.Time): Preparation {
    Preparation(t.plan.transactionId, t.plan.proposalId, t.plan.runId, approvalId, now, seq(t.Size(), _ => Exact))
  }

  /** Only temporaries differ. */
  ghost predicate OnlyTemps(t: Target, before: Disk, after: Disk) {
    forall p :: p !in t.Temps() ==> after.Look(p) == before.Look(p)
  }

  /** The durable journal is at exactly this PREPARED snapshot. */
  method RequireExactJournal(h: Host, s: Snapshot) returns (o: Outcome<()>)
    modifies h`tick
    ensures h.Took(old(h.tick), h.journal, 1, o)
    ensures o.Done? ==> Loads(h.journal) && Current(h.journal) == s == Initial(h.target.Size())
    ensures Loads(h.journal) && Current(h.journal) == s == Initial(h.target.Size()) && h.Smooth(old(h.tick)) ==> o.Done?
  {
    var durable :- h.LoadJournal();
    if durable != s || s != Initial(h.target.Size()) { return Error; }
    o := Done(());
  }

  /** Create the temporaries one after the other. */
  method CreateTemps(h: Host) returns (o: Outcome<()>)
    requires h.target.Valid() && h.target.TempsVisible() && h.disk.Valid()
    modifies h`tick, h`disk
    ensures h.Took(old(h.tick), h.journal, 5 * h.target.Size(), o)
    ensures h.disk.Valid() && OnlyTemps(h.target, old(h.disk), h.disk)
    ensures o.Done? ==>
      && (forall i :: 0 <= i < h.target.Size() ==> h.disk.Holds(h.target.Temp(i), h.target.plan.files[i].after))
      && (old(h.disk).Settled() ==> h.disk.Settled())
      && (old(h.disk).Synced() ==> h.disk.Synced())
    ensures (forall i :: 0 <= i < h.target.Size() ==> old(h.disk).Look(h.target.Temp(i)).None?) && h.Smooth(old(h.tick))
      ==> o.Done?
  {
    var t := h.target;
    for i := 0 to t.Size()
      invariant h.tick == old(h.tick) + 5 * i && h.Smooth(old(h.tick))
      invariant h.disk.Valid() && OnlyTemps(t, old(h.disk), h.disk)
      invariant forall j :: 0 <= j < i ==> h.disk.Holds(t.Temp(j), t.plan.files[j].after)
      invariant forall j :: i <= j < t.Size() ==> h.disk.Look(t.Temp(j)) == old(h.disk).Look(t.Temp(j))
      invariant old(h.disk).Settled() ==> h.disk.Settled()
      invariant old(h.disk).Synced() ==> h.disk.Synced()
    {
      assert t.Temp(i) in t.Temps();
      var _ :- h.CreateFile(t.Temp(i), INITIAL_CREATE_MODE, t.plan.files[i].after);
    }
    o := Done(());
  }

  /** With every temporary made and nothing else changed, the target still inspects, now with exact temporaries. */
  lemma CreatedIsUntouched(t: Target, before: Disk, after: Disk)
    requires t.Valid() && t.ModifyOnly() && PreparedTarget.Untouched(t, before) && OnlyTemps(t, before, after)
    requires forall i :: 0 <= i < t.Size() ==> before.Look(t.Temp(i)).None?
    requires forall i :: 0 <= i < t.Size() ==>
               after.Holds(t.Temp(i), t.plan.files[i].after) && |t.plan.files[i].after.data| <= MAX_TEMP_BYTES
    ensures PreparedTarget.Untouched(t, after)
    ensures PreparedTarget.Temporaries(t, after) == seq(t.Size(), _ => Exact)
  {
    forall p | p !in t.Temps() ensures p !in t.Untracked(after) && p !in t.Changed(after) {
      assert p !in t.Untracked(before) && p !in t.Changed(before);
    }
    forall p | p in t.Temps() ensures p !in t.Changed(after) { }
    forall i | 0 <= i < t.Size() ensures t.DestinationSeen(after, i) == Before {
      assert t.DestinationSeen(before, i) == Before;
      assert before.Look(t.Dest(i)).Some?;
    }
  }

  /** A target on which a preparation has nothing to object to. */
  ghost predicate Preparable(t: Target, disk: Disk) {
    && t.Valid() && t.ModifyOnly() && PreparedTarget.Untouched(t, disk)
    && PreparedTarget.Temporaries(t, disk) == seq(t.Size(), _ => Absent)
    && (forall i :: 0 <= i < t.Size() ==> |t.plan.files[i].after.data| <= MAX_TEMP_BYTES)
  }

  /** The checks before the approval is consumed, and once more behind it. */
  method Preflight(h: Host, s: Snapshot) returns (o: Outcome<()>)
    requires h.target.Valid()
    modifies h`tick
    ensures h.Took(old(h.tick), h.journal, 3, o)
    ensures o.Done? ==>
      && Loads(h.journal) && Current(h.journal) == s == Initial(h.target.Size())
      && PreparedTarget.Untouched(h.target, h.disk)
      && PreparedTarget.Temporaries(h.target, h.disk) == seq(h.target.Size(), _ => Absent)
    ensures
      && h.Smooth(old(h.tick)) && Preparable(h.target, h.disk)
      && Loads(h.journal) && Current(h.journal) == s == Initial(h.target.Size())
      ==> o.Done?
  {
    var _ :- RequireExactJournal(h, s);
    var _ :- h.Probe();
    var temps :- PreparedTarget.Inspect(h, s);
    if temps != seq(h.target.Size(), _ => Absent) { return Error; }
    o := Done(());
  }

  /** The final verification. */
  method VerifyTemps(h: Host, s: Snapshot) returns (o: Outcome<()>)
    requires h.target.Valid()
    modifies h`tick
    ensures h.Took(old(h.tick), h.journal, 2, o)
    ensures o.Done? ==>
      && Loads(h.journal) && Current(h.journal) == s == Initial(h.target.Size())
      && PreparedTarget.Untouched(h.target, h.disk)
      && PreparedTarget.Temporaries(h.target, h.disk) == seq(h.target.Size(), _ => Exact)
    ensures
      && Loads(h.journal) && Current(h.journal) == s == Initial(h.target.Size())
      && PreparedTarget.Untouched(h.target, h.disk) && h.Smooth(old(h.tick))
      && PreparedTarget.Temporaries(h.target, h.disk) == seq(h.target.Size(), _ => Exact)
      ==> o.Done?
  {
    var final :- PreparedTarget.Inspect(h, s);
    if final != seq(h.target.Size(), _ => Exact) { return Error; }
    o := RequireExactJournal(h, s);
  }

  /** The part after the consumption. */
  method PrepareConsumed(h: Host, s: Snapshot) returns (o: Outcome<()>)
    requires h.target.Valid() && h.disk.Valid()
    modifies h`tick, h`disk
    ensures h.Took(old(h.tick), h.journal, 5 * h.target.Size() + 6, o)
    ensures h.disk.Valid() && OnlyTemps(h.target, old(h.disk), h.disk)
    ensures o.Done? ==>
      && Loads(h.journal) && Current(h.journal) == s == Initial(h.target.Size())
      && PreparedTarget.Untouched(h.target, h.disk)
      && PreparedTarget.Temporaries(h.target, h.disk) == seq(h.target.Size(), _ => Exact)
      && (forall i :: 0 <= i < h.target.Size() ==> old(h.disk).Look(h.target.Temp(i)).None?)
      && (old(h.disk).Settled() ==> h.disk.Settled())
      && (old(h.disk).Synced() ==> h.disk.Synced())
    ensures
      && h.Smooth(old(h.tick)) && Preparable(h.target, old(h.disk))
      && Loads(h.journal) && Current(h.journal) == s == Initial(h.target.Size())
      ==> o.Done?
  {
    hide PreparedTarget.Untouched, Loads, Disk.Synced, Disk.Settled, Target.Valid;
    var t := h.target;
    ghost var before := h.disk;
    var _ :- Preflight(h, s);
    forall i | 0 <= i < t.Size() ensures h.disk.Look(t.Temp(i)).None? {
      assert PreparedTarget.Temporaries(t, h.disk)[i] == Absent == t.TemporarySeen(h.disk, i);
    }
    var _ :- h.Probe();
    var _ :- CreateTemps(h);
    if Preparable(t, before) { CreatedIsUntouched(t, before, h.disk); }
    o := VerifyTemps(h, s);
  }

  /** prepare_promotion_target. Nothing on the target changes before the approval is durably consumed for
      this proposal and run, and only the temporaries change at all. */
  method Prepare(h: Host, approvals: ApprovalStore.Approvals, s: Snapshot, approvalId: string, now: ApprovalStore.Time)
    returns (o: Outcome<Preparation>)
    requires h.target.Valid() && h.disk.Valid() && approvals.Safe()
    modifies h`tick, h`disk, approvals
    ensures old(h.tick) <= h.tick && (o.Done? ==> h.OnTime(old(h.tick), h.journal, 5 * h.target.Size() + 9))
    ensures h.disk.Valid() && OnlyTemps(h.target, old(h.disk), h.disk)
    ensures approvals.Safe() && ApprovalStore.Grows(old(approvals.store), approvals.store)
    // No approval is touched for a target that could not be prepared; for any other the attempt settles it.
    ensures approvals.store != old(approvals.store) || approvals.receipts != old(approvals.receipts) ==>
      && Loads(h.journal) && Current(h.journal) == s == Initial(h.target.Size())
      && PreparedTarget.Untouched(h.target, old(h.disk))
      && PreparedTarget.Temporaries(h.target, old(h.disk)) == seq(h.target.Size(), _ => Absent)
    ensures h.disk != old(h.disk) || o.Done? ==>
      && PreparedTarget.Untouched(h.target, old(h.disk))
      && Loads(h.journal) && Current(h.journal) == s == Initial(h.target.Size())
      && approvals.receipts == old(approvals.receipts) +
           [ApprovalStore.Receipt(approvalId, h.target.plan.proposalId, h.target.plan.runId)]
      && ApprovalStore.Confirms(approvals.store, approvalId, h.target.plan.proposalId, h.target.plan.runId, now)
    ensures o.Done? ==>
      && o.value == Evidence(h.target, approvalId, now)
      && Loads(h.journal) && Current(h.journal) == s == Initial(h.target.Size())
      && PreparedTarget.Untouched(h.target, h.disk)
      && PreparedTarget.Temporaries(h.target, h.disk) == seq(h.target.Size(), _ => Exact)
      && (forall i :: 0 <= i < h.target.Size() ==> old(h.disk).Look(h.target.Temp(i)).None?)
      && (old(h.disk).Settled() ==> h.disk.Settled())
      && (old(h.disk).Synced() ==> h.disk.Synced())
    ensures
      && old(h.Calm()) && old(approvals.Calm()) && Preparable(h.target, old(h.disk))
      && Loads(h.journal) && Current(h.journal) == s == Initial(h.target.Size())
      && ApprovalStore.Allows(old(approvals.store), approvalId, h.target.plan.proposalId, now)
      ==> o.Done?
  {
    var t := h.target;
    var _ :- Preflight(h, s);
    var consumption :- approvals.Consume(approvalId, t.plan.proposalId, t.plan.runId, now);
    var _ :- PrepareConsumed(h, s);
    o := Done(Evidence(t, approvalId, now));
  }
}
