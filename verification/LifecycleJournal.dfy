/** The durable lifecycle journal: one directory of numbered snapshot files for every job. */
module LifecycleJournal {
  import opened Basics
  import opened JobLifecycle

  const MAX_SNAPSHOTS: nat := 100_000

  // ---- file names ----------------------------------------------------------------------------

  predicate Digit(c: char) { '0' <= c <= '9' }

  /** `n` in decimal, padded to `width` digits. */
  function Padded(n: nat, width: nat): (s: string)
    ensures |s| == width && forall c <- s :: Digit(c)
  {
    if width == 0 then "" else Padded(n / 10, width - 1) + ['0' + (n % 10) as char]
  }

  function Number(digits: string): nat
    requires forall c <- digits :: Digit(c)
  {
    if digits == "" then 0
    else
      var last := digits[|digits| - 1];
      assert Digit(last);
      Number(digits[..|digits| - 1]) * 10 + (last as nat - '0' as nat)
  }

  function Power(w: nat): nat { if w == 0 then 1 else 10 * Power(w - 1) }

  lemma {:induction false} NumberOfPadded(n: nat, width: nat)
    requires n < Power(width)
    ensures Number(Padded(n, width)) == n
  {
    if width > 0 {
      NumberOfPadded(n / 10, width - 1);
      var s := Padded(n, width);
      assert s[..|s| - 1] == Padded(n / 10, width - 1);
    }
  }

  lemma {:induction false} PaddedOfNumber(digits: string)
    requires forall c <- digits :: Digit(c)
    ensures Padded(Number(digits), |digits|) == digits
    decreases |digits|
  {
    if digits != "" {
      var front, last := digits[..|digits| - 1], digits[|digits| - 1];
      PaddedOfNumber(front);
      assert last in digits && digits == front + [last];
    }
  }

  lemma {:induction false} PowerIsLarge(w: nat)
    requires 5 <= w
    ensures MAX_SNAPSHOTS <= Power(w)
  {
    if w > 5 { PowerIsLarge(w - 1); }
  }

  function SnapshotFilename(sequence: nat): string
    requires sequence < MAX_SNAPSHOTS
  {
    Padded(sequence, 16) + ".json"
  }

  function SnapshotSequence(filename: string): Option<nat> {
    if |filename| != 21 || filename[16..] != ".json" then None
    else if exists c <- filename[..16] :: !Digit(c) then None
    else
      var sequence := Number(filename[..16]);
      if sequence >= MAX_SNAPSHOTS then None else Some(sequence)
  }

  /** Names and numbers correspond one to one. */
  lemma FilenameRoundTrip(sequence: nat)
    requires sequence < MAX_SNAPSHOTS
    ensures SnapshotSequence(SnapshotFilename(sequence)) == Some(sequence)
  {
    PowerIsLarge(16);
    NumberOfPadded(sequence, 16);
    var name := SnapshotFilename(sequence);
    assert name[..16] == Padded(sequence, 16) && name[16..] == ".json";
  }

  lemma SequenceRoundTrip(filename: string)
    requires SnapshotSequence(filename).Some?
    ensures SnapshotFilename(SnapshotSequence(filename).value) == filename
  {
    PaddedOfNumber(filename[..16]);
    assert filename == filename[..16] + filename[16..];
  }

  // ---- one job's directory -------------------------------------------------------------------

  datatype Record = Record(sequence: nat, previous: Option<Lifecycle>, lifecycle: Lifecycle)

  /** A snapshot file: complete, or begun and not finished. */
  datatype File = Whole(record: Record) | Torn

  type Files = map<string, File>

  function RecordAt(chain: seq<Lifecycle>, i: nat): Record
    requires i < |chain|
  {
    Record(i, if i == 0 then None else Some(chain[i - 1]), chain[i])
  }

  /** The directory that a chain leaves: one file for each of its snapshots, and nothing else. */
  ghost predicate IsImage(files: Files, chain: seq<Lifecycle>)
    requires |chain| <= MAX_SNAPSHOTS
  {
    && (forall i :: 0 <= i < |chain| ==>
          SnapshotFilename(i) in files && files[SnapshotFilename(i)] == Whole(RecordAt(chain, i)))
    && (forall name <- files :: exists i :: 0 <= i < |chain| && name == SnapshotFilename(i))
  }

  /** The directory loads: it is the image of some legal chain. */
  ghost predicate Loads(files: Files, job: Job, chain: seq<Lifecycle>) {
    |chain| <= 3 && Legal(job, chain) && IsImage(files, chain)
  }

  lemma NamesDiffer(i: nat, j: nat)
    requires i < MAX_SNAPSHOTS && j < MAX_SNAPSHOTS
    ensures SnapshotFilename(i) == SnapshotFilename(j) <==> i == j
  {
    FilenameRoundTrip(i);
    FilenameRoundTrip(j);
  }

  /** A directory is the image of at most one chain. */
  lemma OneChain(files: Files, job: Job, a: seq<Lifecycle>, b: seq<Lifecycle>)
    requires Loads(files, job, a) && Loads(files, job, b)
    ensures a == b
  {
    if |a| < |b| { NotOfShorter(files, a, b); }
    if |b| < |a| { NotOfShorter(files, b, a); }
    forall i | 0 <= i < |a| ensures a[i] == b[i] {
      assert files[SnapshotFilename(i)] == Whole(RecordAt(a, i)) == Whole(RecordAt(b, i));
    }
  }

  lemma NotOfShorter(files: Files, a: seq<Lifecycle>, b: seq<Lifecycle>)
    requires |a| < |b| <= MAX_SNAPSHOTS
    ensures IsImage(files, b) ==> !IsImage(files, a)
  {
    forall i | 0 <= i < |a| ensures SnapshotFilename(i) != SnapshotFilename(|a|) { NamesDiffer(i, |a|); }
    assert IsImage(files, b) ==> SnapshotFilename(|a|) in files;
  }

  /** The names are those of the sequences below `n`. */
  predicate Numbered(files: Files, n: nat) {
    && n <= MAX_SNAPSHOTS
    && (forall name <- files :: SnapshotSequence(name).Some? && SnapshotSequence(name).value < n)
    && (forall i | 0 <= i < n :: SnapshotFilename(i) in files)
  }

  lemma CountDistinct(keys: set<string>, names: seq<string>)
    requires 1 <= |names| <= 3 && forall i, j :: 0 <= i < j < |names| ==> names[i] != names[j]
    requires keys == set i | 0 <= i < |names| :: names[i]
    ensures |keys| == |names|
  {
    if |names| == 1 { assert keys == {names[0]}; }
    else if |names| == 2 { assert keys == {names[0], names[1]}; }
    else { assert keys == {names[0], names[1], names[2]}; }
  }

  lemma ImageIsNumbered(files: Files, job: Job, chain: seq<Lifecycle>)
    requires Loads(files, job, chain)
    ensures Numbered(files, |chain|)
  {
    forall name | name in files ensures SnapshotSequence(name).Some? && SnapshotSequence(name).value < |chain| {
      var i :| 0 <= i < |chain| && name == SnapshotFilename(i);
      FilenameRoundTrip(i);
    }
  }

  lemma ImageIsCounted(files: Files, job: Job, chain: seq<Lifecycle>)
    requires Loads(files, job, chain)
    ensures |files| == |chain|
  {
    var names := seq(|chain|, i requires 0 <= i < |chain| => SnapshotFilename(i));
    forall i, j | 0 <= i < j < |names| ensures names[i] != names[j] { NamesDiffer(i, j); }
    NamesOfImage(files, chain, names);
    CountDistinct(files.Keys, names);
  }

  lemma NamesOfImage(files: Files, chain: seq<Lifecycle>, names: seq<string>)
    requires |chain| <= MAX_SNAPSHOTS && IsImage(files, chain) && |names| == |chain|
    requires forall i :: 0 <= i < |chain| ==> names[i] == SnapshotFilename(i)
    ensures files.Keys == set i | 0 <= i < |names| :: names[i]
  {
    forall name | name in files ensures exists i :: 0 <= i < |names| && name == names[i] {
      var i :| 0 <= i < |chain| && name == SnapshotFilename(i);
      assert names[i] == name;
    }
    forall i | 0 <= i < |names| ensures names[i] in files { assert SnapshotFilename(i) in files; }
  }

  /** The snapshot may follow `chain`: it starts a new one or is its independently derived successor. */
  predicate Follows(job: Job, chain: seq<Lifecycle>, l: Lifecycle) {
    if chain == [] then Build(job) == Some(l)
    else Transition(chain[|chain| - 1], l.state, l.evidence) == Some(l)
  }

  lemma LegalAppended(job: Job, chain: seq<Lifecycle>, l: Lifecycle)
    requires chain == [] || Legal(job, chain)
    ensures Legal(job, chain + [l]) <==> Follows(job, chain, l)
  {
    var all := chain + [l];
    assert all[|chain|] == l && forall i :: 0 <= i < |chain| ==> all[i] == chain[i];
    if chain != [] {
      if Follows(job, chain, l) {
        forall i | 0 < i < |all| ensures Succeeds(all, i) { if i < |chain| { assert Succeeds(chain, i); } }
      }
      if Legal(job, all) { assert Succeeds(all, |chain|); }
    }
  }

  function LastOf(chain: seq<Lifecycle>): Option<Lifecycle> {
    if chain == [] then None else Some(chain[|chain| - 1])
  }

  /** File `i` read after `previous`: its snapshot, if the record is numbered and linked as it should be and the
      snapshot is the one that building or transition derives independently. */
  function ReadNext(files: Files, job: Job, previous: Option<Lifecycle>, i: nat): Option<Lifecycle>
    requires i < MAX_SNAPSHOTS
  {
    var name := SnapshotFilename(i);
    if name !in files || files[name].Torn? then None
    else if files[name].record.sequence != i || files[name].record.previous != previous then None
    else
      var l := files[name].record.lifecycle;
      var derived := if previous.None? then Build(job) else Transition(previous.value, l.state, l.evidence);
      if derived == Some(l) then derived else None
  }

  /** What the first `i` files say, if they say a legal chain. */
  function FirstSnapshots(files: Files, job: Job, i: nat): Option<seq<Lifecycle>>
    requires i <= MAX_SNAPSHOTS
  {
    if i == 0 then Some([])
    else
      var chain := FirstSnapshots(files, job, i - 1);
      if chain.None? then None
      else
        var l := ReadNext(files, job, LastOf(chain.value), i - 1);
        if l.None? then None else Some(chain.value + [l.value])
  }

  /** What it means that a file was read. */
  lemma ReadNextMeans(files: Files, job: Job, chain: seq<Lifecycle>)
    requires |chain| < MAX_SNAPSHOTS && ReadNext(files, job, LastOf(chain), |chain|).Some?
    ensures var l := ReadNext(files, job, LastOf(chain), |chain|).value;
            && SnapshotFilename(|chain|) in files
            && files[SnapshotFilename(|chain|)] == Whole(RecordAt(chain + [l], |chain|))
            && Follows(job, chain, l)
  {
  }

  lemma {:induction false} FirstSnapshotsLegal(files: Files, job: Job, i: nat)
    requires i <= MAX_SNAPSHOTS && FirstSnapshots(files, job, i).Some?
    ensures var chain := FirstSnapshots(files, job, i).value;
            && |chain| == i && (0 < i ==> Legal(job, chain))
            && forall j :: 0 <= j < i ==>
                 SnapshotFilename(j) in files && files[SnapshotFilename(j)] == Whole(RecordAt(chain, j))
  {
    if i > 0 {
      FirstSnapshotsLegal(files, job, i - 1);
      var front, chain := FirstSnapshots(files, job, i - 1).value, FirstSnapshots(files, job, i).value;
      ReadNextMeans(files, job, front);
      LegalAppended(job, front, chain[i - 1]);
      forall j | 0 <= j < i - 1 ensures RecordAt(chain, j) == RecordAt(front, j) { }
    }
  }

  /** In the image of a legal chain every file reads as its snapshot. */
  lemma ImageReads(files: Files, job: Job, chain: seq<Lifecycle>, i: nat)
    requires Loads(files, job, chain) && i < |chain|
    ensures ReadNext(files, job, LastOf(chain[..i]), i) == Some(chain[i])
  {
    assert files[SnapshotFilename(i)] == Whole(RecordAt(chain, i));
    if 0 < i { assert Succeeds(chain, i) && LastOf(chain[..i]) == Some(chain[i - 1]); }
  }

  lemma {:induction false} LoadedIsRead(files: Files, job: Job, chain: seq<Lifecycle>, i: nat)
    requires Loads(files, job, chain) && i <= |chain|
    ensures FirstSnapshots(files, job, i) == Some(chain[..i])
  {
    if i > 0 {
      LoadedIsRead(files, job, chain, i - 1);
      ImageReads(files, job, chain, i - 1);
      assert chain[..i] == chain[..i - 1] + [chain[i - 1]];
    }
  }

  lemma {:induction false} NothingAfterGap(files: Files, job: Job, i: nat, n: nat)
    requires i <= n <= MAX_SNAPSHOTS && FirstSnapshots(files, job, i).None?
    ensures FirstSnapshots(files, job, n).None?
  {
    if i < n { NothingAfterGap(files, job, i, n - 1); }
  }

  /** A directory loads exactly if its names are numbered without a gap and its files say a legal chain. */
  lemma LoadsMeans(files: Files, job: Job)
    ensures (exists chain: seq<Lifecycle> :: Loads(files, job, chain))
       <==> 0 < |files| && Numbered(files, |files|) && FirstSnapshots(files, job, |files|).Some?
    ensures 0 < |files| && Numbered(files, |files|) && FirstSnapshots(files, job, |files|).Some? ==>
              Loads(files, job, FirstSnapshots(files, job, |files|).value)
  {
    if chain: seq<Lifecycle> :| Loads(files, job, chain) {
      ImageIsNumbered(files, job, chain);
      ImageIsCounted(files, job, chain);
      LoadedIsRead(files, job, chain, |chain|);
    }
    if 0 < |files| && Numbered(files, |files|) && FirstSnapshots(files, job, |files|).Some? {
      var chain := FirstSnapshots(files, job, |files|).value;
      FirstSnapshotsLegal(files, job, |files|);
      ChainIsShort(job, chain);
      forall name | name in files ensures exists i :: 0 <= i < |chain| && name == SnapshotFilename(i) {
        var i := SnapshotSequence(name).value;
        SequenceRoundTrip(name);
      }
      assert Loads(files, job, chain);
    }
  }

  /** The loader: list the names, then read the files in order and re-derive every transition. */
  method LoadChain(files: Files, job: Job) returns (r: Option<(Lifecycle, nat)>, ghost chain: seq<Lifecycle>)
    ensures r.Some? <==> exists c: seq<Lifecycle> :: Loads(files, job, c)
    ensures r.Some? ==> Loads(files, job, chain) && r.value == (chain[|chain| - 1], |chain|)
  {
    LoadsMeans(files, job);
    if files == map[] || !Numbered(files, |files|) { return None, []; }
    r, chain := ReadFiles(files, job, |files|);
  }

  method ReadFiles(files: Files, job: Job, n: nat) returns (r: Option<(Lifecycle, nat)>, ghost chain: seq<Lifecycle>)
    requires 0 < n <= MAX_SNAPSHOTS
    ensures r.Some? <==> FirstSnapshots(files, job, n).Some?
    ensures r.Some? ==> |chain| == n && FirstSnapshots(files, job, n) == Some(chain) && r.value == (chain[n - 1], n)
  {
    chain := [];
    var previous := None;
    for i := 0 to n
      invariant FirstSnapshots(files, job, i) == Some(chain) && |chain| == i && previous == LastOf(chain)
    {
      var l := ReadNext(files, job, previous, i);
      if l.None? {
        NothingAfterGap(files, job, i + 1, n);
        return None, chain;
      }
      chain, previous := chain + [l.value], l;
    }
    r := Some((previous.value, n));
  }

  // ---- the journal root ----------------------------------------------------------------------

  /** A job's directory, before and after its directory of snapshots was made. */
  datatype Directory = Bare | Snapshots(files: Files)

  type Root = map<Job, Directory>

  /** What every operation checks of the whole root before it does anything. */
  predicate RootValid(root: Root) {
    forall job <- root :: root[job].Snapshots? && forall name <- root[job].files :: SnapshotSequence(name).Some?
  }

  ghost predicate Holds(root: Root, job: Job, chain: seq<Lifecycle>) {
    job in root && root[job].Snapshots? && Loads(root[job].files, job, chain)
  }

  /** Jobs other than `job` are as they were. */
  ghost predicate OthersKept(before: Root, after: Root, job: Job) {
    forall j :: j != job ==> (j in before <==> j in after) && (j in before ==> after[j] == before[j])
  }

  /** The directory with the next snapshot in it. */
  function WithNext(files: Files, chain: seq<Lifecycle>, l: Lifecycle): Files
    requires |chain| < MAX_SNAPSHOTS
  {
    files[SnapshotFilename(|chain|) := Whole(Record(|chain|, LastOf(chain), l))]
  }

  /** Nothing yet, or the image of a legal chain. */
  ghost predicate Extensible(files: Files, job: Job, chain: seq<Lifecycle>) {
    if chain == [] then files == map[] else Loads(files, job, chain)
  }

  lemma NextNameIsFree(files: Files, job: Job, chain: seq<Lifecycle>)
    requires Extensible(files, job, chain) && |chain| <= 3
    ensures SnapshotFilename(|chain|) !in files && SnapshotSequence(SnapshotFilename(|chain|)).Some?
  {
    FilenameRoundTrip(|chain|);
    forall i | 0 <= i < |chain| ensures SnapshotFilename(i) != SnapshotFilename(|chain|) { NamesDiffer(i, |chain|); }
  }

  /** The next file's name is free, and with the file the directory is the image of the longer chain. */
  lemma ImageExtended(files: Files, job: Job, chain: seq<Lifecycle>, l: Lifecycle)
    requires |chain| <= 3 && Extensible(files, job, chain) && Follows(job, chain, l)
    ensures SnapshotFilename(|chain|) !in files && SnapshotSequence(SnapshotFilename(|chain|)).Some?
    ensures Loads(WithNext(files, chain, l), job, chain + [l])
  {
    var all := chain + [l];
    LegalAppended(job, chain, l);
    ChainIsShort(job, all);
    NextNameIsFree(files, job, chain);
    NextIsImage(files, chain, l);
  }

  lemma NextIsImage(files: Files, chain: seq<Lifecycle>, l: Lifecycle)
    requires |chain| < 3 && (if chain == [] then files == map[] else IsImage(files, chain))
    requires SnapshotFilename(|chain|) !in files
    ensures IsImage(WithNext(files, chain, l), chain + [l])
  {
    var all, more := chain + [l], WithNext(files, chain, l);
    assert RecordAt(all, |chain|) == Record(|chain|, LastOf(chain), l);
    forall i | 0 <= i < |all|
      ensures SnapshotFilename(i) in more && more[SnapshotFilename(i)] == Whole(RecordAt(all, i))
    {
      if i < |chain| { assert RecordAt(all, i) == RecordAt(chain, i); }
    }
    forall name | name in more ensures exists i :: 0 <= i < |all| && name == SnapshotFilename(i) {
      if name in files {
        var i :| 0 <= i < |chain| && name == SnapshotFilename(i);
        assert i < |all|;
      }
    }
  }

  /** The directory that one create and the appends of the rest of the chain write. */
  function Written(chain: seq<Lifecycle>): Files
    requires |chain| <= 3
  {
    if chain == [] then map[]
    else WithNext(Written(chain[..|chain| - 1]), chain[..|chain| - 1], chain[|chain| - 1])
  }

  /** Two directories that are images of one chain are the same. */
  lemma ImageIsUnique(a: Files, b: Files, chain: seq<Lifecycle>)
    requires |chain| <= 3 && IsImage(a, chain) && IsImage(b, chain)
    ensures a == b
  {
    forall name | name in a ensures name in b && b[name] == a[name] {
      var i :| 0 <= i < |chain| && name == SnapshotFilename(i);
      assert b[SnapshotFilename(i)] == Whole(RecordAt(chain, i));
    }
    forall name | name in b ensures name in a {
      var i :| 0 <= i < |chain| && name == SnapshotFilename(i);
      assert SnapshotFilename(i) in a;
    }
  }

  /** A directory loads as a chain exactly if creating and appending wrote it. */
  lemma LoadsIffWritten(files: Files, job: Job, chain: seq<Lifecycle>)
    requires Legal(job, chain)
    ensures |chain| <= 3
    ensures Loads(files, job, chain) <==> files == Written(chain)
  {
    ChainIsShort(job, chain);
    WrittenLoads(job, chain);
    if Loads(files, job, chain) { ImageIsUnique(files, Written(chain), chain); }
  }

  lemma {:induction false} WrittenLoads(job: Job, chain: seq<Lifecycle>)
    requires (chain == [] || Legal(job, chain)) && |chain| <= 3
    ensures Extensible(Written(chain), job, chain)
    decreases |chain|
  {
    if chain != [] {
      var front, last := chain[..|chain| - 1], chain[|chain| - 1];
      assert chain == front + [last];
      FrontIsLegal(job, chain);
      WrittenLoads(job, front);
      LegalAppended(job, front, last);
      ImageExtended(Written(front), job, front, last);
    }
  }

  lemma FrontIsLegal(job: Job, chain: seq<Lifecycle>)
    requires Legal(job, chain)
    ensures var front := chain[..|chain| - 1]; front == [] || Legal(job, front)
  {
    var front := chain[..|chain| - 1];
    forall i | 0 < i < |front| ensures Succeeds(front, i) { assert Succeeds(chain, i); }
  }

  /** Of two appends naming the same predecessor at most one succeeds: when the chain has grown, its end is another. */
  lemma SamePredecessorOnce(job: Job, chain: seq<Lifecycle>, later: seq<Lifecycle>)
    requires Legal(job, chain) && Legal(job, later) && chain < later
    ensures LastOf(later) != LastOf(chain)
  {
    ChainGrows(job, later, |chain| - 1, |later| - 1);
  }

  class Journal {
    const faults: nat -> Fault
    var tick: nat
    var root: Root

    constructor (faults: nat -> Fault)
      ensures this.faults == faults && root == map[] && tick == 0
    {
      this.faults, tick, root := faults, 0, map[];
    }

    ghost predicate Calm()
      reads this`tick
    {
      forall t :: tick <= t ==> faults(t).Quiet?
    }

    /** One step of an operation under the lock: the root becomes `full`, or `half`, or stays. */
    method Perform(half: Root, full: Root) returns (o: Outcome<()>)
      modifies this`tick, this`root
      ensures tick == old(tick) + 1
      ensures root == old(root) || root == half || root == full
      ensures o.Done? ==> root == full
      ensures o.Done? <==> faults(old(tick)).Quiet?
      ensures o.Dead? <==> faults(old(tick)).Deadly()
      ensures faults(old(tick)).Effective() ==> root == full
    {
      var fault := faults(tick);
      tick := tick + 1;
      if fault.Effective() { root := full; } else if fault.Partial() { root := half; }
      o := fault.Report(());
    }

    /** load_lab_coding_job_lifecycle_journal. */
    method Load(job: Job) returns (o: Outcome<(Lifecycle, nat)>, ghost chain: seq<Lifecycle>)
      modifies this`tick, this`root
      ensures Went(faults, old(tick), tick, o) && (o.Done? ==> tick == old(tick) + 1)
      ensures root == old(root)
      ensures o.Done? ==> RootValid(root) && Holds(root, job, chain) && o.value == (chain[|chain| - 1], |chain|)
      ensures old(Calm()) && RootValid(root) && (exists c: seq<Lifecycle> :: Holds(root, job, c)) ==> o.Done?
    {
      chain := [];
      var read := Perform(root, root);
      if !read.Done? { return read.PropagateFailure(), chain; }
      if !RootValid(root) || job !in root { return Error, chain; }
      var loaded;
      loaded, chain := LoadChain(root[job].files, job);
      o := if loaded.None? then Error else Done(loaded.value);
    }

    /** create_lab_coding_job_lifecycle_journal: the job's directory, its directory of snapshots, the first file. */
    method Create(l: Lifecycle) returns (o: Outcome<Lifecycle>)
      modifies this`tick, this`root
      ensures Went(faults, old(tick), tick, o) && (o.Done? ==> tick == old(tick) + 4)
      ensures OthersKept(old(root), root, l.job)
      ensures root != old(root) || o.Done? ==> RootValid(old(root)) && l.job !in old(root)
      ensures o.Done? ==> o.value == l && Build(l.job) == Some(l) && RootValid(root) && Holds(root, l.job, [l])
      ensures old(Calm()) && RootValid(old(root)) && l.job !in old(root) && Build(l.job) == Some(l) ==> o.Done?
      // The process may die after it made the job's directory and before it made the one inside.
      ensures
        && RootValid(old(root)) && l.job !in old(root) && Build(l.job) == Some(l)
        && faults(old(tick)).Quiet? && faults(old(tick) + 1).DieLate?
        ==> o.Dead? && root == old(root)[l.job := Bare]
    {
      if Build(l.job) != Some(l) { return Error; }
      var _ :- Perform(root, root);
      if !RootValid(root) || l.job in root { return Error; }
      var _ :- MakeDirectories(l.job);
      ghost var none: seq<Lifecycle> := [];
      ImageExtended(map[], l.job, none, l);
      assert none + [l] == [l];
      o := WriteSnapshot(l.job, map[], 0, None, l);
    }

    /** The directory of a job, and the directory of its snapshots in it. */
    method MakeDirectories(job: Job) returns (o: Outcome<()>)
      modifies this`tick, this`root
      ensures Went(faults, old(tick), tick, o) && (o.Done? ==> tick == old(tick) + 2)
      ensures root == old(root) || root == old(root)[job := Bare] || root == old(root)[job := Snapshots(map[])]
      ensures o.Done? ==> root == old(root)[job := Snapshots(map[])]
      ensures old(Calm()) ==> o.Done?
      ensures faults(old(tick)).DieLate? ==> o.Dead? && root == old(root)[job := Bare]
    {
      var base := root;
      var _ :- Perform(base, base[job := Bare]);
      o := Perform(base[job := Bare], base[job := Snapshots(map[])]);
    }

    /** One snapshot file, created exclusively. */
    method WriteSnapshot(job: Job, files: Files, count: nat, previous: Option<Lifecycle>, l: Lifecycle)
      returns (o: Outcome<Lifecycle>)
      requires count < MAX_SNAPSHOTS && job in root && root[job] == Snapshots(files)
      modifies this`tick, this`root
      ensures Went(faults, old(tick), tick, o) && (o.Done? ==> tick == old(tick) + 1)
      ensures || root == old(root)
              || root == old(root)[job := Snapshots(files[SnapshotFilename(count) := Torn])]
              || root == old(root)[job :=
                           Snapshots(files[SnapshotFilename(count) := Whole(Record(count, previous, l))])]
      ensures o.Done? ==>
        && o.value == l
        && root == old(root)[job := Snapshots(files[SnapshotFilename(count) := Whole(Record(count, previous, l))])]
      ensures old(Calm()) ==> o.Done?
    {
      var name, base := SnapshotFilename(count), root;
      var _ :- Perform(base[job := Snapshots(files[name := Torn])],
                       base[job := Snapshots(files[name := Whole(Record(count, previous, l))])]);
      o := Done(l);
    }

    /** append_lab_coding_job_lifecycle_snapshot. */
    method Append(successor: Lifecycle, expected: Lifecycle)
      returns (o: Outcome<Lifecycle>, ghost chain: seq<Lifecycle>)
      modifies this`tick, this`root
      ensures Went(faults, old(tick), tick, o) && (o.Done? ==> tick == old(tick) + 2)
      ensures OthersKept(old(root), root, successor.job)
      ensures successor.job in old(root) ==> successor.job in root
      ensures RootValid(old(root)) ==> RootValid(root)
      ensures root != old(root) || o.Done? ==>
        && RootValid(old(root)) && Holds(old(root), successor.job, chain) && chain[|chain| - 1] == expected
        && Follows(successor.job, chain, successor)
      ensures root != old(root) ==>
        && root[successor.job].Snapshots?
        && forall name <- old(root)[successor.job].files ::
             && name in root[successor.job].files
             && root[successor.job].files[name] == old(root)[successor.job].files[name]
      ensures o.Done? ==> o.value == successor && Holds(root, successor.job, chain + [successor])
      ensures
        && old(Calm()) && RootValid(old(root))
        && (exists c: seq<Lifecycle> ::
              Holds(old(root), successor.job, c) && LastOf(c) == Some(expected) && Follows(successor.job, c, successor))
        ==> o.Done?
    {
      hide IsImage;
      var job := successor.job;
      var loaded;
      loaded, chain := Load(job);
      if !loaded.Done? { return loaded.PropagateFailure(), chain; }
      forall c: seq<Lifecycle> | Holds(root, job, c) ensures c == chain { OneChain(root[job].files, job, c, chain); }
      var (previous, count) := loaded.value;
      assert !Allowed(previous.state, previous.state);
      if previous != expected || successor == previous
         || Transition(previous, successor.state, successor.evidence) != Some(successor) { return Error, chain; }
      var files := root[job].files;
      ImageExtended(files, job, chain, successor);
      if SnapshotFilename(count) in files { return Error, chain; }
      o := WriteSnapshot(job, files, count, Some(previous), successor);
    }

    /** Any number of calls, under any faults. Over a root that is not valid they change nothing; and no snapshot file
        is ever changed or removed. */
    method Run(calls: seq<Call>)
      modifies this`tick, this`root
      ensures !RootValid(old(root)) ==> root == old(root)
      ensures FilesKept(old(root), root)
    {
      for k := 0 to |calls|
        invariant !RootValid(old(root)) ==> root == old(root)
        invariant FilesKept(old(root), root)
      {
        ghost var before, chain := root, [];
        match calls[k] {
          case Create(l) => var _ := Create(l);
          case Append(successor, expected) =>
            var appended;
            appended, chain := Append(successor, expected);
          case Load(job) =>
            var loaded;
            loaded, chain := Load(job);
        }
        KeptSince(old(root), before, root);
      }
    }
  }

  datatype Call = Create(l: Lifecycle) | Append(successor: Lifecycle, expected: Lifecycle) | Load(job: Job)

  /** Every job is still there, and every file of it as it was. */
  ghost predicate FilesKept(before: Root, after: Root) {
    forall job :: job in before ==> job in after && DirectoryKept(before[job], after[job])
  }

  ghost predicate DirectoryKept(before: Directory, after: Directory) {
    before.Snapshots? ==>
      after.Snapshots? && forall name <- before.files :: name in after.files && after.files[name] == before.files[name]
  }

  lemma KeptSince(start: Root, before: Root, after: Root)
    requires FilesKept(start, before) && FilesKept(before, after)
    ensures FilesKept(start, after)
  {
    forall job | job in start ensures job in after && DirectoryKept(start[job], after[job]) {
      assert DirectoryKept(start[job], before[job]) && DirectoryKept(before[job], after[job]);
    }
  }

  /** A job directory without its directory of snapshots comes about: the process that creates the first job dies
      between the two. No call on any job changes anything, or loads anything, from then on. */
  method BlockedForGood(job: Job, faults: nat -> Fault, calls: seq<Call>) returns (j: Journal)
    requires Build(job).Some? && faults(0).Quiet? && faults(1).DieLate?
    ensures fresh(j) && j.root == map[job := Bare] && !RootValid(j.root)
  {
    j := new Journal(faults);
    var died := j.Create(Build(job).value);
    assert j.root[job].Bare?;
    j.Run(calls);
  }
}
