/** A file system with the part of it that a power loss cannot take away.

    Directory entries and file contents reach the disk separately: an entry when its directory is
    synchronised, a content when the file is. Until then an entry operation waits in `pending` and a
    content counts as unsynced, and a power loss may lose either one. The death of a process loses
    neither. */
module FileSystem {
  import opened Basics

  newtype Byte = b: int | 0 <= b < 256

  type Bytes = seq<Byte>

  datatype Path = Path(dir: string, name: string)

  /** The (byte count, SHA-256, mode) identity by which the source compares files. */
  datatype Image = Image(data: Bytes, mode: nat)

  /** `plain` is false for a symbolic link, a foreign owner or extra hard links. */
  datatype Inode = Inode(image: Image, plain: bool, synced: bool)

  datatype DirOp =
    | Link(path: Path, ino: nat)
    | Unlink(path: Path)
    | Rename(source: Path, target: Path)
  {
    function Dir(): string { if Rename? then target.dir else path.dir }
  }

  type Directory = map<Path, nat>

  datatype Disk = Disk(inodes: seq<Inode>, live: Directory, stable: Directory, pending: seq<DirOp>)
  {
    /** No entry dangles. */
    ghost predicate Valid() { forall p :: p in live ==> live[p] < |inodes| }

    /** Nothing is waiting: a power loss changes no directory entry. */
    predicate Settled() { pending == [] && stable == live }

    /** Every content has reached the disk. */
    ghost predicate Synced() { forall i :: 0 <= i < |inodes| ==> inodes[i].synced }

    /** A power loss would change nothing. */
    ghost predicate AtRest() { Settled() && Synced() }

    /** No entry dangles, every content has reached the disk, and at most one rename within a directory waits. */
    ghost predicate Loose() {
      && Valid() && (forall p :: p in stable ==> stable[p] < |inodes|) && Synced()
      && (Settled() || (|pending| == 1 && pending[0].Rename? && WithinDirectory(pending[0])
                        && live == Apply(stable, pending[0])))
    }

    /** What is left when everything that waits is lost. */
    function Durable(): Disk { this.(live := stable, pending := []) }

    /** The file now visible under `p`. */
    function Look(p: Path): (r: Option<Inode>) {
      if p in live && live[p] < |inodes| then Some(inodes[live[p]]) else None
    }

    /** `p` names a plain file with exactly this image. */
    predicate Holds(p: Path, image: Image) {
      Look(p).Some? && Look(p).value.plain && Look(p).value.image == image
    }

    /** open(O_CREAT | O_EXCL): a new empty file under a free name. */
    function Create(p: Path, mode: nat): Disk
      requires p !in live
    {
      Disk(inodes + [Inode(Image([], mode), true, false)],
           live[p := |inodes|], stable, pending + [Link(p, |inodes|)])
    }

    function Write(p: Path, data: Bytes): Disk
      requires Look(p).Some?
    {
      this.(inodes := inodes[live[p] := Inode(Image(data, inodes[live[p]].image.mode), inodes[live[p]].plain, false)])
    }

    function Chmod(p: Path, mode: nat): Disk
      requires Look(p).Some?
    {
      this.(inodes := inodes[live[p] := inodes[live[p]].(image := inodes[live[p]].image.(mode := mode))])
    }

    /** fsync of the file. */
    function SyncFile(p: Path): Disk
      requires Look(p).Some?
    {
      this.(inodes := inodes[live[p] := inodes[live[p]].(synced := true)])
    }

    /** os.replace, os.link or os.unlink. */
    function Do(op: DirOp): Disk {
      this.(live := Apply(live, op), pending := pending + [op])
    }

    /** fsync of a directory: every waiting operation on its entries reaches the disk. */
    function SyncDirectory(dir: string): Disk {
      this.(stable := map p | p in stable.Keys + live.Keys && (if p.dir == dir then p in live else p in stable)
                        :: if p.dir == dir then live[p] else stable[p],
            pending := Elsewhere(pending, dir))
    }
  }

  function Apply(d: Directory, op: DirOp): Directory {
    match op
    case Link(p, ino) => d[p := ino]
    case Unlink(p) => d - {p}
    case Rename(s, t) => if s in d then (d - {s})[t := d[s]] else d
  }

  /** The waiting operations on other directories. */
  function Elsewhere(ops: seq<DirOp>, dir: string): seq<DirOp> {
    if ops == [] then []
    else (if ops[0].Dir() == dir then [] else [ops[0]]) + Elsewhere(ops[1..], dir)
  }

  /** Apply those of the waiting operations that survived. */
  function Replay(d: Directory, ops: seq<DirOp>, kept: seq<bool>): Directory
    requires |kept| == |ops|
    decreases |ops|
  {
    if ops == [] then d
    else Replay(if kept[0] then Apply(d, ops[0]) else d, ops[1..], kept[1..])
  }

  /** The disks that may be found after a power loss: any of the waiting entry operations may be gone,
      and any content that was never synchronised may be anything. */
  ghost predicate AfterPowerLoss(before: Disk, after: Disk) {
    && after.Settled()
    && |after.inodes| == |before.inodes|
    && (forall i :: 0 <= i < |before.inodes| && before.inodes[i].synced ==> after.inodes[i] == before.inodes[i])
    && exists kept: seq<bool> :: |kept| == |before.pending| && after.live == Replay(before.stable, before.pending, kept)
  }

  /** The disk found after a power loss that kept the waiting operations chosen by `kept` and left `noise` where a
      content had not been synchronised. */
  function Rebooted(d: Disk, kept: nat -> bool, noise: nat -> Inode): Disk {
    var live := Replay(d.stable, d.pending, seq(|d.pending|, i requires 0 <= i => kept(i)));
    Disk(seq(|d.inodes|, i requires 0 <= i < |d.inodes| => if d.inodes[i].synced then d.inodes[i] else noise(i)),
         live, live, [])
  }

  lemma RebootedAfterPowerLoss(d: Disk, kept: nat -> bool, noise: nat -> Inode)
    ensures AfterPowerLoss(d, Rebooted(d, kept, noise))
  {
    var chosen := seq(|d.pending|, i requires 0 <= i => kept(i));
    assert |chosen| == |d.pending| && Rebooted(d, kept, noise).live == Replay(d.stable, d.pending, chosen);
  }

  /** Of one waiting operation, a power loss keeps it or loses it, and nothing in between. */
  lemma PowerLossOfOne(before: Disk, after: Disk, op: DirOp)
    requires before.pending == [op] && before.live == Apply(before.stable, op) && AfterPowerLoss(before, after)
    ensures after.live == before.live || after.live == before.stable
  {
    var kept: seq<bool> :| |kept| == |before.pending| && after.live == Replay(before.stable, before.pending, kept);
    assert before.pending[1..] == [] && kept[1..] == [];
    assert after.live == Replay(if kept[0] then Apply(before.stable, op) else before.stable, [], []);
  }

  /** A settled disk loses no entry. */
  lemma PowerLossOfNone(before: Disk, after: Disk)
    requires before.Settled() && AfterPowerLoss(before, after)
    ensures after.live == before.live
  {
    var kept: seq<bool> :| |kept| == |before.pending| && after.live == Replay(before.stable, before.pending, kept);
  }

  /** The fsync of the directory of the only waiting operation leaves a settled disk. */
  lemma SyncSettles(d: Disk, op: DirOp)
    requires d.pending == [op] && d.live == Apply(d.stable, op)
    requires op.Rename? ==> op.source.dir == op.target.dir
    ensures d.SyncDirectory(op.Dir()) == d.(stable := d.live, pending := [])
  {
    var s := d.SyncDirectory(op.Dir());
    assert s.stable == d.live;
    assert Elsewhere([op], op.Dir()) == Elsewhere([op][1..], op.Dir()) == [];
  }

  /** Every path other than `p` looks the same. */
  ghost predicate SameBut(before: Disk, after: Disk, p: Path) {
    forall q :: q != p ==> after.Look(q) == before.Look(q)
  }

  /** All paths look the same. */
  ghost predicate SameLook(before: Disk, after: Disk) { forall q :: after.Look(q) == before.Look(q) }

  lemma PowerLossAtRest(d: Disk, after: Disk)
    requires d.AtRest() && AfterPowerLoss(d, after)
    ensures SameLook(d, after)
  {
    PowerLossOfNone(d, after);
  }

  /** Of a loose disk a power loss leaves all or what is durable. */
  lemma PowerLossWhileLoose(d: Disk, after: Disk)
    requires d.Loose() && AfterPowerLoss(d, after)
    ensures SameLook(d, after) || SameLook(d.Durable(), after)
  {
    if d.Settled() { PowerLossOfNone(d, after); } else { PowerLossOfOne(d, after, d.pending[0]); }
  }

  /** With one more operation waiting, either of the two is found with it or without it. */
  lemma PowerLossOfStep(d: Disk, op: DirOp, after: Disk)
    requires d.Loose() && AfterPowerLoss(d.Do(op), after)
    ensures || SameLook(d, after) || SameLook(d.Do(op), after)
            || SameLook(d.Durable(), after) || SameLook(d.Durable().Do(op), after)
  {
    var x := d.Do(op);
    var kept: seq<bool> :| |kept| == |x.pending| && after.live == Replay(x.stable, x.pending, kept);
    assert after.inodes == d.inodes;
    if d.Settled() {
      PowerLossOfOne(x, after, op);
    } else {
      var w := d.pending[0];
      assert x.pending == [w, op] && x.pending[1..] == [op] && [op][1..] == [] && |kept[1..]| == 1;
      var base := if kept[0] then d else d.Durable();
      assert after.live == Replay(base.live, [op], kept[1..]);
      assert after.live == Replay(if kept[1] then Apply(base.live, op) else base.live, [], kept[1..][1..]);
    }
  }

  lemma ElsewhereOfTwo(w: DirOp, op: DirOp)
    ensures Elsewhere([w, op], op.Dir()) == Elsewhere([w], op.Dir()) == if w.Dir() == op.Dir() then [] else [w]
  {
    assert [w, op][1..] == [op] && [op][1..] == [] && [w][1..] == [];
  }

  predicate WithinDirectory(op: DirOp) { op.Rename? ==> op.source.dir == op.target.dir }

  /** The same entry, or none, under `p`. */
  predicate SameEntry(a: Directory, b: Directory, p: Path) { (p in a <==> p in b) && (p in a ==> a[p] == b[p]) }

  /** An operation touches no other directory, and what it does to its own depends on that directory alone. */
  lemma ApplyIsLocal(a: Directory, b: Directory, op: DirOp, p: Path)
    requires WithinDirectory(op)
    ensures p.dir != op.Dir() ==> SameEntry(Apply(a, op), a, p)
    ensures (forall q: Path :: q.dir == op.Dir() ==> SameEntry(a, b, q)) && p.dir == op.Dir() ==>
              SameEntry(Apply(a, op), Apply(b, op), p)
  {
  }

  /** Operations in different directories can be exchanged. */
  lemma ApplyCommutes(d: Directory, a: DirOp, b: DirOp)
    requires a.Dir() != b.Dir() && WithinDirectory(a) && WithinDirectory(b)
    ensures Apply(Apply(d, a), b) == Apply(Apply(d, b), a)
  {
  }

  /** Of two waiting operations the fsync of the directory of the second leaves at most the first. */
  lemma SyncOfTwo(d: Disk, w: DirOp, op: DirOp)
    requires d.pending == [w, op] && WithinDirectory(w) && WithinDirectory(op)
    requires d.live == Apply(Apply(d.stable, w), op)
    ensures var s := d.SyncDirectory(op.Dir());
            && s.pending == Elsewhere([w], op.Dir())
            && (w.Dir() == op.Dir() ==> s.pending == [] && s.stable == d.live)
            && (w.Dir() != op.Dir() ==>
                  s.pending == [w] && s.stable == Apply(d.stable, op) && s.live == Apply(s.stable, w))
  {
    var s := d.SyncDirectory(op.Dir());
    ElsewhereOfTwo(w, op);
    if w.Dir() == op.Dir() {
      forall p ensures SameEntry(s.stable, d.live, p) {
        ApplyIsLocal(d.stable, d.stable, w, p);
        ApplyIsLocal(Apply(d.stable, w), d.stable, op, p);
      }
      EntriesEqual(s.stable, d.live);
    } else {
      ApplyCommutes(d.stable, w, op);
      forall p ensures SameEntry(s.stable, Apply(d.stable, op), p) {
        ApplyIsLocal(Apply(d.stable, op), d.stable, w, p);
        ApplyIsLocal(d.stable, d.stable, op, p);
      }
      EntriesEqual(s.stable, Apply(d.stable, op));
    }
  }

  lemma EntriesEqual(a: Directory, b: Directory)
    requires forall p :: SameEntry(a, b, p)
    ensures a == b
  {
    forall p ensures (p in a <==> p in b) && (p in a ==> a[p] == b[p]) { assert SameEntry(a, b, p); }
  }

  /** The fsync of its directory makes the operation durable, and with it what waits in that directory. */
  lemma StepSynced(d: Disk, op: DirOp)
    requires d.Loose() && !op.Link? && WithinDirectory(op)
    ensures var s := d.Do(op).SyncDirectory(op.Dir());
            && s.inodes == d.inodes && s.live == Apply(d.live, op) && s.pending == Elsewhere(d.pending, op.Dir())
            && s.Loose() && (s.pending == [] ==> s.AtRest())
            && (s.pending != [] ==> s.stable == Apply(d.stable, op))
  {
    var x := d.Do(op);
    var s := x.SyncDirectory(op.Dir());
    if d.Settled() {
      SyncSettles(x, op);
    } else {
      var w := d.pending[0];
      assert d.pending == [w] && x.pending == [w, op];
      SyncOfTwo(x, w, op);
    }
  }

  /** `d` is `base` with one more file, under `p`, whatever its content. */
  ghost predicate Adds(base: Disk, d: Disk, p: Path) {
    && |d.inodes| == |base.inodes| + 1 && d.inodes[..|base.inodes|] == base.inodes
    && d.live == base.live[p := |base.inodes|]
    && (d.stable == base.stable && d.pending == base.pending + [Link(p, |base.inodes|)])
  }

  lemma AddsKeepsTheRest(base: Disk, d: Disk, p: Path)
    requires base.Valid() && p !in base.live && Adds(base, d, p)
    ensures d.Valid() && forall q :: q != p ==> d.Look(q) == base.Look(q)
  {
    forall q | q != p ensures d.Look(q) == base.Look(q) {
      if q in base.live { assert d.inodes[..|base.inodes|][base.live[q]] == d.inodes[base.live[q]]; }
    }
  }

  /** Changing the new file keeps it the only change. */
  lemma AddsThenChanges(base: Disk, d: Disk, p: Path, inode: Inode)
    requires Adds(base, d, p)
    ensures Adds(base, d.(inodes := d.inodes[d.live[p] := inode]), p)
  {
  }

  lemma CreateAdds(base: Disk, p: Path, mode: nat)
    requires p !in base.live
    ensures Adds(base, base.Create(p, mode), p)
  {
  }

  /** Either of the two disks that a power loss may leave of `base`, apart from `p`. */
  ghost predicate SameButEither(base: Disk, after: Disk, p: Path) {
    SameBut(base, after, p) || SameBut(base.Durable(), after, p)
  }

  /** A power loss while a file is being added costs at most that file and what was waiting. */
  lemma PowerLossOfAdding(base: Disk, d: Disk, p: Path, after: Disk)
    requires base.Loose() && p !in base.live && Adds(base, d, p) && AfterPowerLoss(d, after)
    ensures SameButEither(base, after, p)
  {
    var n, link := |base.inodes|, Link(p, |base.inodes|);
    var kept: seq<bool> :| |kept| == |d.pending| && after.live == Replay(d.stable, d.pending, kept);
    forall i | 0 <= i < n ensures after.inodes[i] == base.inodes[i] { assert d.inodes[..n][i] == d.inodes[i]; }
    assert [link][1..] == [];
    if base.Settled() {
      assert d.pending == [link] && kept[1..] == [];
      assert after.live == Replay(if kept[0] then Apply(base.live, link) else base.live, [], kept[1..]);
    } else {
      var w := base.pending[0];
      assert d.pending == [w, link] && d.pending[1..] == [link] && |kept[1..]| == 1;
      var found := if kept[0] then base else base.Durable();
      assert after.live == Replay(found.live, [link], kept[1..]);
      assert after.live == Replay(if kept[1] then Apply(found.live, link) else found.live, [], kept[1..][1..]);
      assert SameBut(found, after, p);
    }
  }

  /** While a file is being added no other path is affected, with or without a power loss. */
  lemma AddingIsSafe(base: Disk, d: Disk, p: Path)
    requires base.Valid() && (d == base || (p !in base.live && Adds(base, d, p)))
    ensures d.Valid() && SameBut(base, d, p)
    ensures base.Loose() ==> forall after :: AfterPowerLoss(d, after) ==> SameButEither(base, after, p)
  {
    if d != base { AddsKeepsTheRest(base, d, p); }
    if base.Loose() {
      forall after | AfterPowerLoss(d, after) ensures SameButEither(base, after, p) {
        if d == base { PowerLossWhileLoose(d, after); } else { PowerLossOfAdding(base, d, p, after); }
      }
    }
  }

  /** After the fsync of its directory the new file is there to stay, and with it what waited in that directory. */
  lemma AddedIsDurable(base: Disk, d: Disk, p: Path)
    requires base.Valid() && p !in base.live && Adds(base, d, p) && d.inodes[|base.inodes|].synced
    ensures var s := d.SyncDirectory(p.dir);
            && s.Valid() && s.inodes == d.inodes && s.live == d.live && SameBut(base, s, p)
            && (base.Settled() ==> s.Settled()) && (base.Synced() ==> s.Synced())
            && (base.Loose() ==> LooselyAdded(base, s, p)
                                 && forall after :: AfterPowerLoss(s, after) ==> SameButEither(base, after, p))
  {
    var s := d.SyncDirectory(p.dir);
    AddsKeepsTheRest(base, d, p);
    if base.Settled() {
      assert d.pending == [Link(p, |base.inodes|)];
      SyncSettles(d, Link(p, |base.inodes|));
    }
    if base.Synced() { AddsSynced(base, d, p); }
    if base.Loose() {
      AddedLoosely(base, d, p);
      forall after | AfterPowerLoss(s, after) ensures SameButEither(base, after, p) { PowerLossWhileLoose(s, after); }
    }
  }

  /** `s` has one more durable file, under `p`, and what waited in another directory waits still. */
  ghost predicate LooselyAdded(base: Disk, s: Disk, p: Path) {
    && s.Loose() && s.pending == Elsewhere(base.pending, p.dir)
    && p in s.stable && p in s.live && s.stable[p] == s.live[p] == |base.inodes|
    && SameBut(base, s, p) && (if s.pending == [] then s.AtRest() else SameBut(base.Durable(), s.Durable(), p))
  }

  lemma AddedLoosely(base: Disk, d: Disk, p: Path)
    requires base.Loose() && p !in base.live && Adds(base, d, p) && d.inodes[|base.inodes|].synced
    ensures LooselyAdded(base, d.SyncDirectory(p.dir), p)
  {
    var n, link, s := |base.inodes|, Link(p, |base.inodes|), d.SyncDirectory(p.dir);
    AddsSynced(base, d, p);
    AddsKeepsTheRest(base, d, p);
    if base.Settled() {
      assert d.pending == [link];
      SyncSettles(d, link);
    } else {
      var w := base.pending[0];
      assert base.pending == [w] && d.pending == [w, link];
      SyncOfTwo(d, w, link);
      forall q | q in base.stable ensures d.inodes[base.stable[q]] == base.inodes[base.stable[q]] {
        assert d.inodes[..n][base.stable[q]] == d.inodes[base.stable[q]];
      }
    }
  }

  lemma AddsSynced(base: Disk, d: Disk, p: Path)
    requires base.Synced() && Adds(base, d, p) && d.inodes[|base.inodes|].synced
    ensures d.Synced()
  {
    forall i | 0 <= i < |d.inodes| ensures d.inodes[i].synced {
      if i < |base.inodes| { assert d.inodes[..|base.inodes|][i] == base.inodes[i]; }
    }
  }
}
