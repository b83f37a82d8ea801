/** The inspection of a target while a transaction is active: it classifies, and changes nothing. */
module AppliedTarget {
  import opened Basics
  import opened FileSystem
  import opened Transaction
  import opened TransactionJournal
  import opened Target
  import opened Host

  /** One record of `git status --porcelain=v1 -z`. */
  datatype StatusRecord = StatusRecord(index: char, worktree: char, path: Path)

  function Paths(records: seq<StatusRecord>): set<Path> { set r | r in records :: r.path }

  ghost predicate Distinct(records: seq<StatusRecord>) {
    forall i, j :: 0 <= i < j < |records| ==> records[i].path != records[j].path
  }

  /** The record reports a path of `untracked` as untracked or one of `changed` as changed in the work tree. */
  predicate Reports(r: StatusRecord, untracked: set<Path>, changed: set<Path>) {
    || (r.index == '?' && r.worktree == '?' && r.path in untracked)
    || (r.index == ' ' && r.worktree in {'M', 'D', 'T'} && r.path in changed)
  }

  /** What Git promises of its answer: each untracked and each changed path once, and nothing else. */
  ghost predicate Lists(t: Target, disk: Disk, records: seq<StatusRecord>) {
    && Distinct(records)
    && (forall r <- records :: Reports(r, t.Untracked(disk), t.Changed(disk)))
    && Paths(records) == t.Untracked(disk) + t.Changed(disk)
  }

  /** The check of Git's answer, record by record; the result is the set of listed paths. */
  method ValidateGitStatus(records: seq<StatusRecord>, modified: set<Path>, added: set<Path>, temps: set<Path>)
    returns (r: Option<set<Path>>)
    ensures r.Some? <==> Distinct(records) && forall x <- records :: Reports(x, added + temps, modified)
    ensures r.Some? ==> r.value == Paths(records)
  {
    var observed: set<Path> := {};
    for k := 0 to |records|
      invariant observed == Paths(records[..k])
      invariant Distinct(records[..k])
      invariant forall x <- records[..k] :: Reports(x, added + temps, modified)
    {
      var x := records[k];
      assert x in records;
      assert records[..k + 1] == records[..k] + [x];
      if x.path in observed {
        var y :| y in records[..k] && y.path == x.path;
        return None;
      }
      observed := observed + {x.path};
      if x.index == '?' && x.worktree == '?' {
        if x.path !in added && x.path !in temps { return None; }
      } else {
        if x.index != ' ' || x.path !in modified || x.worktree !in {'M', 'D', 'T'} { return None; }
      }
    }
    assert records[..|records|] == records;
    r := Some(observed);
  }

  /** On an exact answer from Git the check accepts precisely the targets without foreign dirt. */
  lemma StatusDecidesClean(t: Target, disk: Disk, records: seq<StatusRecord>)
    requires Lists(t, disk, records)
    ensures t.Clean(disk) <==> forall x <- records :: Reports(x, t.Dests(Add) + t.Temps(), t.Dests(Modify))
  {
    if forall x <- records :: Reports(x, t.Dests(Add) + t.Temps(), t.Dests(Modify)) {
      forall p | p in t.Untracked(disk) + t.Changed(disk)
        ensures p in t.Untracked(disk) ==> p in t.Dests(Add) + t.Temps()
        ensures p in t.Changed(disk) ==> p in t.Dests(Modify)
      {
        var x :| x in records && x.path == p;
        assert Reports(x, t.Untracked(disk), t.Changed(disk));
      }
    }
  }

  /** Git's answer, in some order. */
  method GitStatus(t: Target, disk: Disk) returns (records: seq<StatusRecord>)
    ensures Lists(t, disk, records)
  {
    records := [];
    var rest := t.Untracked(disk) + t.Changed(disk);
    while rest != {}
      invariant rest <= t.Untracked(disk) + t.Changed(disk)
      invariant Paths(records) == t.Untracked(disk) + t.Changed(disk) - rest
      invariant Distinct(records) && forall r <- records :: Reports(r, t.Untracked(disk), t.Changed(disk))
      decreases rest
    {
      var p :| p in rest;
      var r := if p in t.Untracked(disk) then StatusRecord('?', '?', p) else StatusRecord(' ', 'M', p);
      forall i | 0 <= i < |records| ensures records[i].path != p { assert records[i].path in Paths(records); }
      assert Paths(records + [r]) == Paths(records) + {p};
      records, rest := records + [r], rest - {p};
    }
  }

  /** The target can be inspected: the fixed checks hold and there is no foreign dirt. */
  ghost predicate Inspectable(t: Target, disk: Disk, s: Snapshot) {
    Active(s.state) && |s.progress| == t.Size() && t.Checked() && t.Clean(disk)
  }

  /** The checks on the plan, file by file. */
  method CheckPlan(t: Target) returns (ok: bool)
    requires t.Valid()
    ensures ok <==> t.Checked()
  {
    for i := 0 to t.Size()
      invariant forall j :: 0 <= j < i && t.plan.files[j].operation.Modify? ==>
                  t.Dest(j) in t.git.tracked && t.plan.files[j].before != Some(t.plan.files[j].after)
      invariant forall j :: 0 <= j < i && t.plan.files[j].operation.Add? ==>
                  t.Dest(j) !in t.git.tracked && !t.git.ignored(t.Dest(j))
    {
      var file := t.plan.files[i];
      if file.operation.Modify? && (file.path !in t.git.tracked || file.before.value == file.after) { return false; }
      if file.operation.Add? && (file.path in t.git.tracked || t.git.ignored(file.path)) { return false; }
    }
    ok := t.TempsVisible();
  }

  /** What Git lists fits what is there: it lists a temporary or an added file exactly if that exists. */
  predicate ListingFits(t: Target, disk: Disk, listed: set<Path>, i: nat)
    requires t.Valid() && i < t.Size()
  {
    && (t.TemporarySeen(disk, i) == Absent <==> t.Temp(i) !in listed)
    && (t.plan.files[i].operation.Add? ==> (t.DestinationSeen(disk, i) == Before <==> t.Dest(i) !in listed))
  }

  /** An exact answer from Git does. */
  lemma ExactListingFits(t: Target, disk: Disk, listed: set<Path>)
    requires t.Valid() && t.Checked() && listed == t.Untracked(disk) + t.Changed(disk)
    ensures forall i :: 0 <= i < t.Size() ==> ListingFits(t, disk, listed, i)
  {
  }

  /** The evidence of every file, if what Git lists fits what is there. */
  method ObserveFiles(t: Target, disk: Disk, progress: seq<Progress>, listed: set<Path>)
    returns (r: Option<seq<Evidence>>)
    requires t.Valid() && |progress| == t.Size()
    ensures r.Some? <==> forall i :: 0 <= i < t.Size() ==> ListingFits(t, disk, listed, i)
    ensures r.Some? ==> r.value == t.Observed(disk, progress)
  {
    var files: seq<Evidence> := [];
    for i := 0 to t.Size()
      invariant files == t.Observed(disk, progress)[..i]
      invariant forall j :: 0 <= j < i ==> ListingFits(t, disk, listed, j)
    {
      var e := t.Seen(disk, progress, i);
      assert ListingFits(t, disk, listed, i) ==> (e.temporary == Absent) == (t.Temp(i) !in listed);
      if (e.temporary == Absent) == (t.Temp(i) in listed) { return None; }
      if e.operation.Add? && (e.destination == Before) == (e.path in listed) { return None; }
      files := files + [e];
    }
    assert files == t.Observed(disk, progress);
    r := Some(files);
  }

  /** inspect_promotion_applied_target. */
  method Inspect(h: Host, s: Snapshot) returns (o: Outcome<seq<Evidence>>)
    requires h.target.Valid()
    modifies h`tick
    ensures h.Took(old(h.tick), h.journal, 2, o)
    ensures o.Done? ==> && Loads(h.journal) && Current(h.journal) == s
                        && Inspectable(h.target, h.disk, s)
                        && o.value == h.target.Observed(h.disk, s.progress)
    ensures Loads(h.journal) && Current(h.journal) == s && Inspectable(h.target, h.disk, s) && h.Smooth(old(h.tick)) ==>
      o.Done?
  {
    var t := h.target;
    if !Active(s.state) { return Error; }
    var durable :- h.LoadJournal();
    if durable != s || |s.progress| != t.Size() { return Error; }
    var sound := CheckPlan(t);
    if !sound { return Error; }
    var _ :- h.Probe();
    var records := GitStatus(t, h.disk);
    StatusDecidesClean(t, h.disk, records);
    var listed := ValidateGitStatus(records, t.Dests(Modify), t.Dests(Add), t.Temps());
    if listed.None? { return Error; }
    ExactListingFits(t, h.disk, listed.value);
    var files := ObserveFiles(t, h.disk, s.progress, listed.value);
    o := Done(files.value);
  }
}
