/** The inspection of a target before a transaction is active. */
module PreparedTarget {
  import opened Basics
  import opened FileSystem
  import opened Transaction
  import opened Target
  import opened Host
  import opened AppliedTarget

  /** The target can be inspected before anything was applied: destinations are as the plan found them and
      the only dirt is the plan's temporaries. */
  ghost predicate Untouched(t: Target, disk: Disk) {
    && t.TempsVisible()
    && (forall i :: 0 <= i < t.Size() ==> t.DestinationSeen(disk, i) == Before)
    && t.Untracked(disk) <= t.Temps() && t.Changed(disk) == {}
  }

  /** The check of Git's answer: no tracked file differs and every untracked file is a temporary. */
  method ValidateStatus(records: seq<StatusRecord>, temps: set<Path>) returns (r: Option<set<Path>>)
    ensures r.Some? <==> Distinct(records) && forall x <- records :: Reports(x, temps, {})
    ensures r.Some? ==> r.value == Paths(records)
  {
    var observed: set<Path> := {};
    for k := 0 to |records|
      invariant observed == Paths(records[..k])
      invariant Distinct(records[..k])
      invariant forall x <- records[..k] :: Reports(x, temps, {})
    {
      var x := records[k];
      assert x in records;
      assert records[..k + 1] == records[..k] + [x];
      if x.index != '?' || x.worktree != '?' || x.path !in temps { return None; }
      if x.path in observed {
        var y :| y in records[..k] && y.path == x.path;
        return None;
      }
      observed := observed + {x.path};
    }
    assert records[..|records|] == records;
    r := Some(observed);
  }

  lemma StatusDecidesUntouched(t: Target, disk: Disk, records: seq<StatusRecord>)
    requires Lists(t, disk, records) && t.TempsVisible()
    ensures t.Untracked(disk) <= t.Temps() && t.Changed(disk) == {}
       <==> forall x <- records :: Reports(x, t.Temps(), {})
  {
    if forall x <- records :: Reports(x, t.Temps(), {}) {
      forall p | p in t.Untracked(disk) + t.Changed(disk) ensures p in t.Temps() && p !in t.Changed(disk) {
        var x :| x in records && x.path == p;
        assert Reports(x, t.Untracked(disk), t.Changed(disk));
      }
    }
  }

  /** The status of every temporary, in the order of the plan. */
  function Temporaries(t: Target, disk: Disk): seq<TemporaryStatus> {
    seq(t.Size(), i requires 0 <= i < t.Size() => t.TemporarySeen(disk, i))
  }

  method ObserveTemporaries(t: Target, disk: Disk, listed: set<Path>) returns (r: Option<seq<TemporaryStatus>>)
    requires t.Valid()
    ensures r.Some? <==> forall i :: 0 <= i < t.Size() ==>
              t.DestinationSeen(disk, i) == Before && (t.TemporarySeen(disk, i) == Absent <==> t.Temp(i) !in listed)
    ensures r.Some? ==> r.value == Temporaries(t, disk)
  {
    var temps: seq<TemporaryStatus> := [];
    for i := 0 to t.Size()
      invariant temps == Temporaries(t, disk)[..i]
      invariant forall j :: 0 <= j < i ==>
        t.DestinationSeen(disk, j) == Before && (t.TemporarySeen(disk, j) == Absent <==> t.Temp(j) !in listed)
    {
      var file := t.plan.files[i];
      if file.operation.Modify? && !disk.Holds(file.path, file.before.value) {
        assert t.DestinationSeen(disk, i) != Before;
        return None;
      }
      if file.operation.Add? && disk.Look(file.path).Some? {
        assert t.DestinationSeen(disk, i) != Before;
        return None;
      }
      var status := t.TemporarySeen(disk, i);
      if (status == Absent) == (t.Temp(i) in listed) { return None; }
      temps := temps + [status];
    }
    assert temps == Temporaries(t, disk);
    r := Some(temps);
  }

  /** inspect_promotion_prepared_target. */
  method Inspect(h: Host, s: Snapshot) returns (o: Outcome<seq<TemporaryStatus>>)
    requires h.target.Valid()
    modifies h`tick
    ensures h.Took(old(h.tick), h.journal, 1, o)
    ensures o.Done? ==>
      s == Initial(h.target.Size()) && Untouched(h.target, h.disk) && o.value == Temporaries(h.target, h.disk)
    ensures s == Initial(h.target.Size()) && Untouched(h.target, h.disk) && h.Smooth(old(h.tick)) ==> o.Done?
  {
    var t := h.target;
    if s != Initial(t.Size()) || !t.TempsVisible() { return Error; }
    var _ :- h.Probe();
    var records := GitStatus(t, h.disk);
    StatusDecidesUntouched(t, h.disk, records);
    var listed := ValidateStatus(records, t.Temps());
    if listed.None? { return Error; }
    var temps := ObserveTemporaries(t, h.disk, listed.value);
    if temps.None? { return Error; }
    o := Done(temps.value);
  }
}
