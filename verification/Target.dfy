/** The promotion target: a Git working tree, the plan's paths in it and what an inspection sees there. */
module Target {
  import opened Basics
  import opened FileSystem
  import opened Transaction

  const MAX_TEMP_BYTES: nat := 8 * 1024 * 1024

  const PROMOTE_PREFIX := ".hands-free-auto-lab-promote-"
  const ROLLBACK_PREFIX := ".hands-free-auto-lab-rollback-"

  datatype DestinationStatus = Before | After | Other

  datatype TemporaryStatus = Absent | Exact | Unexpected

  /** What is known of one file: its journal progress and what the inspection saw. */
  datatype Evidence = Evidence(path: Path, operation: Operation, progress: Progress,
                               destination: DestinationStatus, temporary: TemporaryStatus)

  /** Of a tracked file Git compares the content and the owner's execute bit. */
  datatype Blob = Blob(data: Bytes, executable: bool)

  datatype GitView = GitView(tracked: map<Path, Blob>, ignored: Path -> bool)

  function Text(p: Path): string { if p.dir == "" then p.name else p.dir + "/" + p.name }

  predicate OwnerExecutable(mode: nat) { mode / 64 % 2 == 1 }

  /** What stays the same during a run: the plan, the digest by which names are made, and Git's index
      and ignore rules. */
  datatype Target = Target(plan: Plan, digest: string -> string, git: GitView)
  {
    /** What the validator of transactions guarantees. */
    ghost predicate Valid() {
      && plan.files != []
      && (forall i, j :: 0 <= i < j < |plan.files| ==> plan.files[i].path != plan.files[j].path)
      && (forall i :: 0 <= i < |plan.files| ==> (plan.files[i].operation.Modify? <==> plan.files[i].before.Some?))
    }

    function Size(): nat { |plan.files| }

    function Dest(i: nat): Path
      requires i < Size()
    {
      plan.files[i].path
    }

    /** The temporary that holds the after image of file `i` until it is installed. */
    function Temp(i: nat): Path
      requires i < Size()
    {
      Path(Dest(i).dir, PROMOTE_PREFIX + plan.transactionId + "-" + digest(Text(Dest(i))) + ".tmp")
    }

    /** The temporary that holds the before image of file `i` while it is restored. */
    function Spare(i: nat): Path
      requires i < Size()
    {
      Path(Dest(i).dir, ROLLBACK_PREFIX + digest(plan.transactionId + "\0" + Text(Dest(i))) + ".tmp")
    }

    function Temps(): set<Path> { set i | 0 <= i < Size() :: Temp(i) }

    function Spares(): set<Path> { set i | 0 <= i < Size() :: Spare(i) }

    function Dests(operation: Operation): set<Path> {
      set i | 0 <= i < Size() && plan.files[i].operation == operation :: Dest(i)
    }

    predicate ModifyOnly() { forall i :: 0 <= i < Size() ==> plan.files[i].operation.Modify? }

    // ---- Git's part --------------------------------------------------------------------------

    predicate Unchanged(disk: Disk, p: Path)
      requires p in git.tracked
    {
      var file := disk.Look(p);
      && file.Some? && file.value.plain
      && file.value.image.data == git.tracked[p].data
      && OwnerExecutable(file.value.image.mode) == git.tracked[p].executable
    }

    /** What `git status --untracked-files=all` lists with "??". */
    function Untracked(disk: Disk): set<Path> {
      set p | p in disk.live && disk.Look(p).Some? && p !in git.tracked && !git.ignored(p)
    }

    /** What it lists as changed in the work tree. */
    function Changed(disk: Disk): set<Path> {
      set p | p in git.tracked && !Unchanged(disk, p)
    }

    /** The checks of an inspection that do not depend on the disk. */
    ghost predicate Checked() {
      && (forall i :: 0 <= i < Size() && plan.files[i].operation.Modify? ==>
            Dest(i) in git.tracked && plan.files[i].before != Some(plan.files[i].after))
      && (forall i :: 0 <= i < Size() && plan.files[i].operation.Add? ==>
            Dest(i) !in git.tracked && !git.ignored(Dest(i)))
      && TempsVisible()
    }

    predicate TempsVisible() {
      && (forall i :: 0 <= i < Size() ==> Temp(i) !in git.tracked && !git.ignored(Temp(i)))
      && (forall i, j :: 0 <= i < j < Size() ==> Temp(i) != Temp(j))
    }

    /** No dirt beyond the plan's own. */
    predicate Clean(disk: Disk) {
      Untracked(disk) <= Temps() + Dests(Add) && Changed(disk) <= Dests(Modify)
    }

    // ---- one file ----------------------------------------------------------------------------

    function DestinationSeen(disk: Disk, i: nat): DestinationStatus
      requires i < Size()
    {
      var file := plan.files[i];
      if file.operation.Add? && disk.Look(file.path).None? then Before
      else if file.operation.Modify? && file.before.Some? && disk.Holds(file.path, file.before.value) then Before
      else if disk.Holds(file.path, file.after) then After
      else Other
    }

    function TemporarySeen(disk: Disk, i: nat): TemporaryStatus
      requires i < Size()
    {
      var file := disk.Look(Temp(i));
      if file.None? then Absent
      else if !file.value.plain || |file.value.image.data| > MAX_TEMP_BYTES then Unexpected
      else if file.value.image == plan.files[i].after then Exact else Unexpected
    }

    function Seen(disk: Disk, progress: seq<Progress>, i: nat): Evidence
      requires i < Size() && |progress| == Size()
    {
      Evidence(Dest(i), plan.files[i].operation, progress[i], DestinationSeen(disk, i), TemporarySeen(disk, i))
    }

    /** The evidence of all files, in the order of the plan. */
    function Observed(disk: Disk, progress: seq<Progress>): (r: seq<Evidence>)
      requires |progress| == Size()
    {
      seq(Size(), i requires 0 <= i < Size() => Seen(disk, progress, i))
    }

    // ---- geometry ----------------------------------------------------------------------------

    /** A promotion temporary and a rollback temporary never share a name. */
    lemma TempIsNotSpare(i: nat, j: nat)
      requires i < Size() && j < Size()
      ensures Temp(i) != Spare(j)
    {
      assert Temp(i).name[21] == PROMOTE_PREFIX[21] == 'p';
      assert Spare(j).name[21] == ROLLBACK_PREFIX[21] == 'r';
    }

    /** A destination that is modified is tracked and a temporary is not, so they never coincide. */
    lemma DestIsNotTemp(i: nat, j: nat)
      requires Checked() && i < Size() && j < Size() && plan.files[i].operation.Modify?
      ensures Dest(i) != Temp(j)
    {
    }
  }
}
