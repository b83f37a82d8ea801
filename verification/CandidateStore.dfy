/** The store of immutable candidate records: a record is written under a temporary name, linked to its final
    name, and the temporary name is removed. */
module CandidateStore {
  import opened Basics
  import opened FileSystem
  import JobLifecycle

  type Id = JobLifecycle.Id

  const MAX_RECORD_BYTES: nat := 4 * 1024 * 1024
  const RECORD_MODE: nat := 0x180
  const CANDIDATES := "candidates"

  /** A validated candidate: its identifier, the session of its workspace, and the rest of its evidence. */
  datatype Candidate = Candidate(id: Id, session: Id, body: string)

  /** The canonical encoding: what decodes, decodes to the one candidate with that encoding. */
  datatype Codec = Codec(encode: Candidate -> Bytes, decode: Bytes -> Option<Candidate>)
  {
    ghost predicate Canonical() {
      && (forall c :: decode(encode(c)) == Some(c))
      && (forall b :: decode(b).Some? ==> encode(decode(b).value) == b)
    }
  }

  // ---- names ---------------------------------------------------------------------------------

  function RecordName(id: Id): string { id + ".json" }

  function TemporaryName(id: Id): string { "." + id + ".tmp" }

  function RecordId(name: string): Option<Id> {
    if |name| == 69 && name[64..] == ".json" && JobLifecycle.IsIdentifier(name[..64]) then Some(name[..64]) else None
  }

  function TemporaryId(name: string): Option<Id> {
    if |name| == 69 && name[0] == '.' && name[65..] == ".tmp" && JobLifecycle.IsIdentifier(name[1..65])
    then Some(name[1..65]) else None
  }

  /** Names and identifiers correspond, and no name is both a record's and a temporary's. */
  lemma NamesOfId(id: Id)
    requires JobLifecycle.IsIdentifier(id)
    ensures RecordId(RecordName(id)) == Some(id) && TemporaryId(RecordName(id)) == None
    ensures TemporaryId(TemporaryName(id)) == Some(id) && RecordId(TemporaryName(id)) == None
  {
    var r, t := RecordName(id), TemporaryName(id);
    assert r[..64] == id && r[64..] == ".json";
    assert t[1..65] == id && t[65..] == ".tmp";
    assert t[..64][0] == '.' && t[..64][0] in t[..64];
    assert r[0] == id[0] && id[0] in id;
  }

  function Final(id: Id): Path { Path(CANDIDATES, RecordName(id)) }

  function Temporary(id: Id): Path { Path(CANDIDATES, TemporaryName(id)) }

  // ---- what every state of the store satisfies -----------------------------------------------

  /** The content is the complete canonical record of `id`, and a power loss cannot take it away. */
  ghost predicate Complete(codec: Codec, inode: Inode, id: Id) {
    && inode.plain && inode.synced && inode.image.mode == RECORD_MODE
    && |inode.image.data| <= MAX_RECORD_BYTES
    && codec.decode(inode.image.data).Some? && codec.decode(inode.image.data).value.id == id
  }

  /** The entry is a temporary's, or a record's with complete content; `owners` says whose each content is. */
  ghost predicate EntryOk(codec: Codec, inodes: seq<Inode>, owners: seq<Id>, p: Path, ino: nat) {
    && ino < |inodes| == |owners| && JobLifecycle.IsIdentifier(owners[ino])
    && (p == Temporary(owners[ino]) || (p == Final(owners[ino]) && Complete(codec, inodes[ino], owners[ino])))
  }

  ghost predicate DirectoryOk(codec: Codec, inodes: seq<Inode>, owners: seq<Id>, d: Directory) {
    forall p :: p in d ==> EntryOk(codec, inodes, owners, p, d[p])
  }

  ghost predicate OpOk(codec: Codec, inodes: seq<Inode>, owners: seq<Id>, op: DirOp) {
    || (op.Link? && EntryOk(codec, inodes, owners, op.path, op.ino))
    || (op.Unlink? && TemporaryId(op.path.name).Some?)
  }

  /** All entries, visible, durable or waiting, are in order. */
  ghost predicate Ordered(codec: Codec, disk: Disk, owners: seq<Id>) {
    && |owners| == |disk.inodes|
    && DirectoryOk(codec, disk.inodes, owners, disk.live)
    && DirectoryOk(codec, disk.inodes, owners, disk.stable)
    && (forall op <- disk.pending :: OpOk(codec, disk.inodes, owners, op))
    && RecordsSettle(disk)
  }

  /** Records are never removed or replaced: a durable one is visible, and no operation on it waits. */
  ghost predicate RecordsSettle(disk: Disk) {
    && (forall id :: Final(id) in disk.stable ==>
          Final(id) in disk.live && disk.live[Final(id)] == disk.stable[Final(id)])
    && (forall op <- disk.pending :: op.Link? ==>
          forall id :: op.path == Final(id) ==> Final(id) in disk.live && Final(id) !in disk.stable)
  }

  lemma {:induction false} ReplayOk(codec: Codec, inodes: seq<Inode>, owners: seq<Id>, d: Directory,
                      ops: seq<DirOp>, kept: seq<bool>)
    requires |kept| == |ops| && DirectoryOk(codec, inodes, owners, d)
    requires forall op <- ops :: OpOk(codec, inodes, owners, op)
    ensures DirectoryOk(codec, inodes, owners, Replay(d, ops, kept))
    // A record's entry stays, unless some operation links its name anew.
    ensures forall id :: Final(id) in d && (forall op <- ops :: op.Link? ==> op.path != Final(id)) ==>
              Final(id) in Replay(d, ops, kept) && Replay(d, ops, kept)[Final(id)] == d[Final(id)]
    decreases |ops|
  {
    if ops != [] {
      var op := ops[0];
      assert op in ops && forall o <- ops[1..] :: o in ops;
      var d' := if kept[0] then Apply(d, op) else d;
      forall id | Final(id) in d && (forall o <- ops :: o.Link? ==> o.path != Final(id))
        ensures Final(id) in d' && d'[Final(id)] == d[Final(id)]
      {
        FinalIsNotTemporary(id, op);
      }
      ReplayOk(codec, inodes, owners, d', ops[1..], kept[1..]);
    }
  }

  lemma FinalIsNotTemporary(id: Id, op: DirOp)
    ensures op.Unlink? && TemporaryId(op.path.name).Some? ==> op.path != Final(id)
  {
    var name := RecordName(id);
    assert name[|name| - 1] == 'n';
  }

  /** Every durable record stays durable, with the same content. */
  ghost predicate DurableKept(before: Disk, after: Disk) {
    forall id :: Final(id) in before.stable ==>
      Final(id) in after.stable && after.Look(Final(id)) == before.Look(Final(id))
  }

  /** A power loss leaves the store in order, keeps every record that was durable, and changes no record's content. */
  lemma PowerLossKeepsOrder(codec: Codec, disk: Disk, owners: seq<Id>, after: Disk)
    requires Ordered(codec, disk, owners) && AfterPowerLoss(disk, after)
    ensures Ordered(codec, after, owners)
    ensures DurableKept(disk, after)
  {
    var kept: seq<bool> :| |kept| == |disk.pending| && after.live == Replay(disk.stable, disk.pending, kept);
    assert DirectoryOk(codec, after.inodes, owners, disk.stable);
    forall op | op in disk.pending ensures OpOk(codec, after.inodes, owners, op) {
      assert OpOk(codec, disk.inodes, owners, op);
    }
    ReplayOk(codec, after.inodes, owners, disk.stable, disk.pending, kept);
    forall id | Final(id) in disk.stable
      ensures Final(id) in after.stable && after.Look(Final(id)) == disk.Look(Final(id))
    {
      assert EntryOk(codec, disk.inodes, owners, Final(id), disk.stable[Final(id)]);
      NeverTemporary(id, owners[disk.stable[Final(id)]]);
      assert forall op <- disk.pending :: op.Link? ==> op.path != Final(id);
      assert after.live[Final(id)] == disk.stable[Final(id)];
    }
  }

  lemma NeverTemporary(x: Id, id: Id)
    ensures JobLifecycle.IsIdentifier(id) ==> Final(x) != Temporary(id)
  {
    if JobLifecycle.IsIdentifier(id) {
      NamesOfId(id);
      FinalIsNotTemporary(x, Unlink(Temporary(id)));
    }
  }

  // ---- the steps of a publication ------------------------------------------------------------

  /** Content `n` is so far known under its temporary name only. */
  ghost predicate Draft(disk: Disk, id: Id, n: nat) {
    && n < |disk.inodes|
    && Temporary(id) in disk.live && disk.live[Temporary(id)] == n
    && (forall p :: p in disk.live && disk.live[p] == n ==> p == Temporary(id))
    && (forall p :: p in disk.stable && disk.stable[p] == n ==> p == Temporary(id))
    && (forall op <- disk.pending :: op.Link? && op.ino == n ==> op.path == Temporary(id))
  }

  /** Every record visible before is visible with the same content. */
  ghost predicate RecordsKept(before: Disk, after: Disk) {
    forall id :: Final(id) in before.live ==>
      && Final(id) in after.live && after.live[Final(id)] == before.live[Final(id)]
      && after.Look(Final(id)) == before.Look(Final(id))
  }

  lemma CreateKeepsOrder(codec: Codec, disk: Disk, owners: seq<Id>, id: Id)
    requires Ordered(codec, disk, owners) && JobLifecycle.IsIdentifier(id) && Temporary(id) !in disk.live
    ensures var d := disk.Create(Temporary(id), RECORD_MODE);
            Ordered(codec, d, owners + [id]) && Draft(d, id, |disk.inodes|) && RecordsKept(disk, d)
  {
    var d, all := disk.Create(Temporary(id), RECORD_MODE), owners + [id];
    forall p, ino: nat | EntryOk(codec, disk.inodes, owners, p, ino) ensures EntryOk(codec, d.inodes, all, p, ino) {
      assert d.inodes[ino] == disk.inodes[ino] && all[ino] == owners[ino];
    }
    forall op | op in d.pending ensures OpOk(codec, d.inodes, all, op) {
      if op in disk.pending { assert OpOk(codec, disk.inodes, owners, op); }
    }
    forall x ensures Final(x) != Temporary(id) { FinalIsNotTemporary(x, Unlink(Temporary(id))); NamesOfId(id); }
  }

  /** An entry that is a temporary's stays in order whatever happens to the content. */
  lemma DraftEntry(codec: Codec, inodes: seq<Inode>, owners: seq<Id>, id: Id, n: nat, inode: Inode, p: Path, ino: nat)
    requires EntryOk(codec, inodes, owners, p, ino) && n < |inodes| && JobLifecycle.IsIdentifier(id)
    requires ino == n ==> p == Temporary(id)
    ensures EntryOk(codec, inodes[n := inode], owners, p, ino)
  {
    if ino == n { NeverTemporary(owners[n], id); }
  }

  /** A draft may be written and synchronised. */
  lemma DraftMayChange(codec: Codec, disk: Disk, owners: seq<Id>, id: Id, n: nat, inode: Inode)
    requires Ordered(codec, disk, owners) && Draft(disk, id, n) && JobLifecycle.IsIdentifier(id)
    ensures var d := disk.(inodes := disk.inodes[n := inode]);
            Ordered(codec, d, owners) && Draft(d, id, n) && RecordsKept(disk, d)
  {
    var d := disk.(inodes := disk.inodes[n := inode]);
    forall p | p in d.live ensures EntryOk(codec, d.inodes, owners, p, d.live[p]) {
      DraftEntry(codec, disk.inodes, owners, id, n, inode, p, disk.live[p]);
    }
    forall p | p in d.stable ensures EntryOk(codec, d.inodes, owners, p, d.stable[p]) {
      DraftEntry(codec, disk.inodes, owners, id, n, inode, p, disk.stable[p]);
    }
    forall op | op in d.pending ensures OpOk(codec, d.inodes, owners, op) {
      assert OpOk(codec, disk.inodes, owners, op);
      if op.Link? { DraftEntry(codec, disk.inodes, owners, id, n, inode, op.path, op.ino); }
    }
    forall x ensures Final(x) != Temporary(id) { NeverTemporary(x, id); }
  }

  lemma OwnerOfDraft(codec: Codec, disk: Disk, owners: seq<Id>, id: Id, n: nat)
    requires Ordered(codec, disk, owners) && Draft(disk, id, n) && JobLifecycle.IsIdentifier(id)
    ensures owners[n] == id
  {
    assert EntryOk(codec, disk.inodes, owners, Temporary(id), n);
    NeverTemporary(owners[n], id);
    NamesOfId(id);
    NamesOfId(owners[n]);
  }

  /** A complete draft may be linked to its final name. */
  lemma LinkKeepsOrder(codec: Codec, disk: Disk, owners: seq<Id>, id: Id, n: nat)
    requires Ordered(codec, disk, owners) && Draft(disk, id, n) && JobLifecycle.IsIdentifier(id)
    requires Complete(codec, disk.inodes[n], id) && Final(id) !in disk.live
    ensures Ordered(codec, disk.Do(Link(Final(id), n)), owners) && RecordsKept(disk, disk.Do(Link(Final(id), n)))
  {
    OwnerOfDraft(codec, disk, owners, id, n);
    var d := disk.Do(Link(Final(id), n));
    assert EntryOk(codec, d.inodes, owners, Final(id), n);
    forall op | op in d.pending ensures OpOk(codec, d.inodes, owners, op) { }
  }

  /** A temporary name may be removed, and the directory synchronised. */
  lemma UnlinkKeepsOrder(codec: Codec, disk: Disk, owners: seq<Id>, id: Id)
    requires Ordered(codec, disk, owners) && JobLifecycle.IsIdentifier(id)
    ensures Ordered(codec, disk.Do(Unlink(Temporary(id))), owners) && RecordsKept(disk, disk.Do(Unlink(Temporary(id))))
  {
    NamesOfId(id);
    forall x ensures Final(x) != Temporary(id) { NeverTemporary(x, id); }
    var d := disk.Do(Unlink(Temporary(id)));
    forall op | op in d.pending ensures OpOk(codec, d.inodes, owners, op) { }
  }

  lemma SyncKeepsOrder(codec: Codec, disk: Disk, owners: seq<Id>)
    requires Ordered(codec, disk, owners)
    ensures var d := disk.SyncDirectory(CANDIDATES); Ordered(codec, d, owners) && d.live == disk.live == d.stable
  {
    var d := disk.SyncDirectory(CANDIDATES);
    forall p | p in disk.live
      ensures p.dir == CANDIDATES
    {
      assert EntryOk(codec, disk.inodes, owners, p, disk.live[p]);
    }
    forall p | p in disk.stable
      ensures p.dir == CANDIDATES
    {
      assert EntryOk(codec, disk.inodes, owners, p, disk.stable[p]);
    }
    assert d.stable == disk.live;
    ElsewhereIsPart(disk.pending, CANDIDATES);
    forall op | op in d.pending ensures OpOk(codec, d.inodes, owners, op) && !op.Link? {
      assert OpOk(codec, disk.inodes, owners, op);
    }
  }

  lemma {:induction false} ElsewhereIsPart(ops: seq<DirOp>, dir: string)
    ensures forall op <- Elsewhere(ops, dir) :: op in ops && op.Dir() != dir
  {
    if ops != [] { ElsewhereIsPart(ops[1..], dir); }
  }

  // ---- the operations ------------------------------------------------------------------------

  predicate NoTemporaries(disk: Disk) { forall p :: p in disk.live ==> TemporaryId(p.name).None? }

  /** The number of hard links of the content under `p`. */
  function LinkCount(disk: Disk, p: Path): nat
    requires p in disk.live
  {
    |set q | q in disk.live && disk.live[q] == disk.live[p]|
  }

  /** The check made of the whole directory before every operation. */
  predicate Layout(disk: Disk) {
    forall p :: p in disk.live ==> TemporaryId(p.name).None? && RecordId(p.name).Some? && LinkCount(disk, p) == 1
  }

  /** In an orderly store the check refuses exactly while some temporary remains. */
  lemma LayoutMeansNoTemporaries(codec: Codec, disk: Disk, owners: seq<Id>)
    requires Ordered(codec, disk, owners)
    ensures Layout(disk) <==> NoTemporaries(disk)
  {
    if NoTemporaries(disk) {
      forall p | p in disk.live ensures RecordId(p.name).Some? && LinkCount(disk, p) == 1 {
        EntryIsRecord(codec, disk, owners, p);
        forall q | q in disk.live && disk.live[q] == disk.live[p]
          ensures q == p
        {
          EntryIsRecord(codec, disk, owners, q);
        }
        assert (set q | q in disk.live && disk.live[q] == disk.live[p]) == {p};
      }
    }
  }

  lemma EntryIsRecord(codec: Codec, disk: Disk, owners: seq<Id>, p: Path)
    requires Ordered(codec, disk, owners) && p in disk.live && TemporaryId(p.name).None?
    ensures p == Final(owners[disk.live[p]]) && RecordId(p.name).Some?
  {
    assert EntryOk(codec, disk.inodes, owners, p, disk.live[p]);
    NamesOfId(owners[disk.live[p]]);
  }

  lemma TwoLinks(codec: Codec, disk: Disk, owners: seq<Id>, id: Id, n: nat)
    requires Ordered(codec, disk, owners) && JobLifecycle.IsIdentifier(id) && n < |owners| && owners[n] == id
    requires Temporary(id) in disk.live && disk.live[Temporary(id)] == n
    requires Final(id) in disk.live && disk.live[Final(id)] == n
    ensures LinkCount(disk, Temporary(id)) == LinkCount(disk, Final(id)) == 2
  {
    NeverTemporary(id, id);
    forall q | q in disk.live && disk.live[q] == n ensures q == Temporary(id) || q == Final(id) {
      assert EntryOk(codec, disk.inodes, owners, q, n);
    }
    assert (set q | q in disk.live && disk.live[q] == n) == {Temporary(id), Final(id)};
  }

  /** The candidate may be published: it has an identifier, it is not too large, and it is not there yet. */
  ghost predicate Publishable(codec: Codec, disk: Disk, c: Candidate) {
    JobLifecycle.IsIdentifier(c.id) && |codec.encode(c)| <= MAX_RECORD_BYTES && Final(c.id) !in disk.live
  }

  /** The candidate's record is durable and complete. */
  ghost predicate Published(codec: Codec, disk: Disk, c: Candidate) {
    Final(c.id) in disk.stable && disk.Holds(Final(c.id), Image(codec.encode(c), RECORD_MODE))
  }

  /** In an orderly store the file under a record's name is that record, complete. */
  lemma RecordIsComplete(codec: Codec, disk: Disk, owners: seq<Id>, id: Id)
    requires Ordered(codec, disk, owners) && Final(id) in disk.live
    ensures disk.live[Final(id)] < |disk.inodes| && Complete(codec, disk.inodes[disk.live[Final(id)]], id)
  {
    assert EntryOk(codec, disk.inodes, owners, Final(id), disk.live[Final(id)]);
    var owner := owners[disk.live[Final(id)]];
    NamesOfId(owner);
    NeverTemporary(id, owner);
    RecordNameDetermines(id, owner);
  }

  class Store {
    const codec: Codec
    const faults: nat -> Fault
    var tick: nat
    var disk: Disk

    /** Whose record each content is. */
    ghost var owners: seq<Id>

    constructor (codec: Codec, faults: nat -> Fault)
      ensures Valid() && this.codec == codec && this.faults == faults && disk == Disk([], map[], map[], [])
    {
      this.codec, this.faults, tick, disk, owners := codec, faults, 0, Disk([], map[], map[], []), [];
    }

    ghost predicate Valid()
      reads this`disk, this`owners
    {
      Ordered(codec, disk, owners)
    }

    ghost predicate Calm()
      reads this`tick
    {
      forall t :: tick <= t ==> faults(t).Quiet?
    }

    method Perform(half: Disk, full: Disk) returns (o: Outcome<()>)
      modifies this`tick, this`disk
      ensures Went(faults, old(tick), tick, o) && tick == old(tick) + 1
      ensures disk == old(disk) || disk == half || disk == full
      ensures o.Done? ==> disk == full
      ensures old(Calm()) ==> o.Done?
    {
      var fault := faults(tick);
      tick := tick + 1;
      if fault.Effective() { disk := full; } else if fault.Partial() { disk := half; }
      o := fault.Report(());
    }

    /** The temporary file, complete and synchronised. */
    method WriteTemporary(id: Id, data: Bytes) returns (o: Outcome<()>, ghost n: nat)
      requires Valid() && JobLifecycle.IsIdentifier(id) && Temporary(id) !in disk.live
      modifies this`tick, this`disk, this`owners
      ensures Went(faults, old(tick), tick, o) && (o.Done? ==> tick == old(tick) + 3)
      ensures Valid() && RecordsKept(old(disk), disk) && disk.stable == old(disk).stable
      ensures o.Done? ==>
        && Draft(disk, id, n) && disk.inodes[n] == Inode(Image(data, RECORD_MODE), true, true)
        && disk.live == old(disk).live[Temporary(id) := n]
      ensures old(Calm()) ==> o.Done?
    {
      ghost var base := disk;
      n := |disk.inodes|;
      CreateKeepsOrder(codec, disk, owners, id);
      o := Perform(disk, disk.Create(Temporary(id), RECORD_MODE));
      if disk != base { owners := owners + [id]; }
      if !o.Done? { return; }
      ghost var created := disk;
      o := FillTemporary(id, data, n);
    }

    method FillTemporary(id: Id, data: Bytes, ghost n: nat) returns (o: Outcome<()>)
      requires Valid() && JobLifecycle.IsIdentifier(id) && Draft(disk, id, n)
      requires disk.inodes[n].plain && disk.inodes[n].image.mode == RECORD_MODE
      modifies this`tick, this`disk
      ensures Went(faults, old(tick), tick, o) && (o.Done? ==> tick == old(tick) + 2)
      ensures Valid() && RecordsKept(old(disk), disk)
      ensures disk.stable == old(disk).stable && disk.live == old(disk).live
      ensures o.Done? ==> Draft(disk, id, n) && disk.inodes[n] == Inode(Image(data, RECORD_MODE), true, true)
      ensures old(Calm()) ==> o.Done?
    {
      ghost var base := disk;
      var fault := faults(tick);
      tick := tick + 1;
      var written := if fault.Effective() then data
                     else if !fault.Partial() then []
                     else if fault.kept <= |data| then data[..fault.kept] else data;
      DraftMayChange(codec, disk, owners, id, n, disk.Write(Temporary(id), written).inodes[n]);
      disk := disk.Write(Temporary(id), written);
      o := fault.Report(());
      if !o.Done? { return; }
      DraftMayChange(codec, disk, owners, id, n, disk.SyncFile(Temporary(id)).inodes[n]);
      o := Perform(disk, disk.SyncFile(Temporary(id)));
    }

    /** Link the complete temporary to the final name and make both entries durable. */
    method InstallLink(id: Id, ghost n: nat) returns (o: Outcome<()>)
      requires Valid() && JobLifecycle.IsIdentifier(id) && Draft(disk, id, n) && Complete(codec, disk.inodes[n], id)
      requires Final(id) !in disk.live
      modifies this`tick, this`disk
      ensures Went(faults, old(tick), tick, o) && (o.Done? ==> tick == old(tick) + 2)
      ensures Valid() && RecordsKept(old(disk), disk) && DurableKept(old(disk), disk)
      ensures o.Done? ==>
        && disk.inodes == old(disk).inodes && disk.stable == disk.live == old(disk).live[Final(id) := n]
      ensures old(Calm()) ==> o.Done?
    {
      OwnerOfDraft(codec, disk, owners, id, n);
      LinkKeepsOrder(codec, disk, owners, id, n);
      var link := Link(Final(id), disk.live[Temporary(id)]);
      var _ :- Perform(disk, disk.Do(link));
      SyncKeepsOrder(codec, disk, owners);
      var _ :- Perform(disk, disk.SyncDirectory(CANDIDATES));
      NeverTemporary(id, id);
      TwoLinks(codec, disk, owners, id, n);
      if LinkCount(disk, Temporary(id)) != 2 || LinkCount(disk, Final(id)) != 2 { return Error; }
      o := Done(());
    }

    /** Remove the temporary name for good. */
    method RemoveTemporary(id: Id) returns (o: Outcome<()>)
      requires Valid() && JobLifecycle.IsIdentifier(id) && disk.stable == disk.live
      modifies this`tick, this`disk
      ensures Went(faults, old(tick), tick, o) && (o.Done? ==> tick == old(tick) + 2)
      ensures Valid() && RecordsKept(old(disk), disk) && DurableKept(old(disk), disk)
      ensures o.Done? ==>
        disk.inodes == old(disk).inodes && disk.stable == disk.live == old(disk).live - {Temporary(id)}
      ensures old(Calm()) ==> o.Done?
    {
      UnlinkKeepsOrder(codec, disk, owners, id);
      forall x ensures Final(x) != Temporary(id) { NeverTemporary(x, id); }
      var _ :- Perform(disk, disk.Do(Unlink(Temporary(id))));
      SyncKeepsOrder(codec, disk, owners);
      o := Perform(disk, disk.SyncDirectory(CANDIDATES));
    }

    /** The record under `id` as it is read and decoded. */
    method ReadRecord(id: Id) returns (c: Option<Candidate>)
      requires disk.Valid()
      ensures c.Some? <==> Final(id) in disk.live && LinkCount(disk, Final(id)) == 1 && Readable(id)
      ensures c.Some? ==> c == codec.decode(disk.inodes[disk.live[Final(id)]].image.data)
      ensures Valid() && codec.Canonical() && Final(id) in disk.live ==>
        Readable(id) && (c.Some? ==> disk.Holds(Final(id), Image(codec.encode(c.value), RECORD_MODE)))
    {
      if Valid() && Final(id) in disk.live { RecordIsComplete(codec, disk, owners, id); }
      if Final(id) !in disk.live || LinkCount(disk, Final(id)) != 1 { return None; }
      var data := disk.inodes[disk.live[Final(id)]].image.data;
      if |data| > MAX_RECORD_BYTES { return None; }
      c := codec.decode(data);
      if c.Some? && c.value.id != id { return None; }
    }

    /** The file under the record's name is not too large, and it decodes to a candidate that names itself so. */
    ghost predicate Readable(id: Id)
      requires disk.Valid() && Final(id) in disk.live
      reads this`disk
    {
      var data := disk.inodes[disk.live[Final(id)]].image.data;
      |data| <= MAX_RECORD_BYTES && codec.decode(data).Some? && codec.decode(data).value.id == id
    }

    /** persist_lab_coding_candidate. However it ends, every visible record is complete, and none that was visible has
        changed; when it returns, the record is durable and no temporary remains. */
    method Persist(c: Candidate) returns (o: Outcome<()>)
      requires Valid() && codec.Canonical()
      modifies this`tick, this`disk, this`owners
      ensures Went(faults, old(tick), tick, o) && (o.Done? ==> tick == old(tick) + 8)
      ensures Valid() && RecordsKept(old(disk), disk) && DurableKept(old(disk), disk)
      ensures !NoTemporaries(old(disk)) ==> !o.Done? && disk == old(disk)
      ensures o.Done? ==>
        && Publishable(codec, old(disk), c) && NoTemporaries(disk) && Published(codec, disk, c)
        && disk.live.Keys == old(disk).live.Keys + {Final(c.id)}
      ensures !Publishable(codec, old(disk), c) ==> disk == old(disk)
      ensures old(Calm()) ==> (o.Done? <==> NoTemporaries(old(disk)) && Publishable(codec, old(disk), c))
      ensures old(Calm()) ==> !o.Dead?
    {
      var id, data := c.id, codec.encode(c);
      if !JobLifecycle.IsIdentifier(id) || |data| > MAX_RECORD_BYTES { return Error; }
      var _ :- Perform(disk, disk);
      LayoutMeansNoTemporaries(codec, disk, owners);
      if !Layout(disk) || Final(id) in disk.live { return Error; }
      NamesOfId(id);
      if Temporary(id) in disk.live { return Error; }
      ghost var base := disk;
      ghost var n;
      o, n := WriteTemporary(id, data);
      if !o.Done? { return; }
      NeverTemporary(id, id);
      o := InstallLink(id, n);
      if !o.Done? { return; }
      o := RemoveTemporary(id);
      if !o.Done? { return; }
      assert disk.live == base.live[Temporary(id) := n][Final(id) := n] - {Temporary(id)};
      assert disk.live.Keys == base.live.Keys + {Final(id)};
      LayoutMeansNoTemporaries(codec, disk, owners);
      RecordIsComplete(codec, disk, owners, id);
      var reopened := ReadRecord(id);
      if reopened != Some(c) { return Error; }
    }

    /** load_lab_coding_candidate. */
    method Load(id: Id) returns (o: Outcome<Candidate>)
      requires Valid() && codec.Canonical()
      modifies this`tick, this`disk
      ensures Went(faults, old(tick), tick, o) && (o.Done? ==> tick == old(tick) + 1)
      ensures disk == old(disk)
      ensures !NoTemporaries(disk) ==> !o.Done?
      ensures o.Done? ==> o.value.id == id && disk.Holds(Final(id), Image(codec.encode(o.value), RECORD_MODE))
      ensures old(Calm()) && NoTemporaries(disk) ==> (o.Done? <==> Final(id) in disk.live)
    {
      var _ :- Perform(disk, disk);
      LayoutMeansNoTemporaries(codec, disk, owners);
      if !Layout(disk) { return Error; }
      if Final(id) in disk.live { RecordIsComplete(codec, disk, owners, id); }
      var c := ReadRecord(id);
      o := if c.None? then Error else Done(c.value);
    }

    /** Any number of calls, under any faults, with power losses among them: the store stays in order, and a record
        that is durable stays so, with the same content. */
    method Run(events: seq<Event>)
      requires Valid() && codec.Canonical()
      modifies this
      ensures Valid() && DurableKept(old(disk), disk)
    {
      for k := 0 to |events|
        invariant Valid() && DurableKept(old(disk), disk)
      {
        match events[k] {
          case Persist(c) => var _ := Persist(c);
          case Load(id) => var _ := Load(id);
          case PowerLoss(kept, noise) =>
            RebootedAfterPowerLoss(disk, kept, noise);
            PowerLossKeepsOrder(codec, disk, owners, Rebooted(disk, kept, noise));
            disk := Rebooted(disk, kept, noise);
        }
      }
    }
  }

  datatype Event = Persist(candidate: Candidate) | Load(id: Id) | PowerLoss(kept: nat -> bool, noise: nat -> Inode)

  /** So whatever a later load returns under the identifier of a persisted candidate is that candidate. */
  lemma LoadsWhatWasPersisted(codec: Codec, persisted: Disk, later: Disk, c: Candidate, loaded: Candidate)
    requires codec.Canonical() && DurableKept(persisted, later)
    requires Published(codec, persisted, c)
    requires later.Holds(Final(c.id), Image(codec.encode(loaded), RECORD_MODE))
    ensures loaded == c
  {
    assert later.Look(Final(c.id)) == persisted.Look(Final(c.id));
    assert codec.decode(codec.encode(loaded)) == codec.decode(codec.encode(c));
  }

  lemma RecordNameDetermines(a: Id, b: Id)
    requires Final(a) == Final(b)
    ensures a == b
  {
    assert RecordName(a)[..|a|] == a && RecordName(b)[..|b|] == b;
    assert |a| == |b|;
  }
}
