/** The world a promotion runs in: the disk, the transaction journal, and everything that can go wrong.

    Every call into the world takes one tick, and `faults` says what happens at that tick. A statement
    about all `faults` is therefore a statement about every exception and every crash point. */
module Host {
  import opened Basics
  import opened FileSystem
  import opened Transaction
  import opened TransactionJournal
  import opened Target

  /** How an execution ends. Every exception of the source is one of the three in the middle. */
  datatype Ending =
    | Finished(snapshot: Snapshot)      // returned
    | Refused                           // raised before anything was attempted
    | FailedClosed(snapshot: Snapshot)  // raised, and the durable state was read back or marked
    | FailedOpen                        // raised, and no such state could be established
    | Died                              // the process is gone

  /** Where at most one call fails, and one has failed already, no other will. */
  lemma OneIsSpent(faults: nat -> Fault, from: nat, now: nat)
    requires forall t, u :: from <= t < u ==> faults(t).Quiet? || faults(u).Quiet?
    requires exists t :: from <= t < now && !faults(t).Quiet?
    ensures forall u :: now <= u ==> faults(u).Quiet?
  {
    var t :| from <= t < now && !faults(t).Quiet?;
    forall u | now <= u ensures faults(u).Quiet? { assert faults(t).Quiet? || faults(u).Quiet?; }
  }

  class Host {
    const target: Target
    const faults: nat -> Fault
    var tick: nat
    var disk: Disk
    var journal: Journal

    constructor (target: Target, faults: nat -> Fault, disk: Disk, journal: Journal)
      ensures this.target == target && this.faults == faults
      ensures this.tick == 0 && this.disk == disk && this.journal == journal
    {
      this.target, this.faults, this.tick, this.disk, this.journal := target, faults, 0, disk, journal;
    }

    /** Nothing goes wrong from here on. */
    ghost predicate Calm()
      reads this`tick
    {
      forall t :: tick <= t ==> faults(t).Quiet?
    }

    /** Nothing goes wrong in the next `n` calls. */
    ghost predicate QuietFor(n: nat)
      reads this`tick
    {
      forall t :: tick <= t < tick + n ==> faults(t).Quiet?
    }

    /** Nothing has gone wrong since tick `from`. */
    ghost predicate Smooth(from: nat)
      reads this`tick
    {
      forall t :: from <= t < tick ==> faults(t).Quiet?
    }

    /** From here on at most one call fails, and it raises: no process dies and no file is cut short. */
    ghost predicate OneRaise()
      reads this`tick
    {
      && (forall t :: tick <= t ==> faults(t).Quiet? || faults(t).Raise? || faults(t).RaiseLate?)
      && (forall t, u :: tick <= t < u ==> faults(t).Quiet? || faults(u).Quiet?)
    }

    /** A call made since tick `from` has killed the process. */
    ghost predicate Killed(from: nat)
      reads this`tick
    {
      exists t :: from <= t < tick && faults(t).Deadly()
    }

    /** Since tick `from`, at journal `was`, an operation that returned has had no call fail; it died exactly if a call
        killed the process; and if it tore the journal, a call was cut short. */
    ghost predicate Went<T>(from: nat, was: Journal, o: Outcome<T>)
      reads this`tick, this`journal
    {
      && from <= tick && (o.Done? ==> Smooth(from)) && (o.Dead? <==> Killed(from))
      && (journal.torn && !was.torn ==> exists t :: from <= t < tick && faults(t).Partial())
    }

    /** Since tick `from`, at journal `was`, exactly `n` calls were made, none of which failed or tore the journal. */
    ghost predicate OnTime(from: nat, was: Journal, n: nat)
      reads this`tick, this`journal
    {
      tick == from + n && Smooth(from) && (journal.torn ==> was.torn)
    }

    /** And it made at most `n` calls: exactly `n` if it returned. */
    ghost predicate Took<T>(from: nat, was: Journal, n: nat, o: Outcome<T>)
      reads this`tick, this`journal
    {
      Went(from, was, o) && tick <= from + n && (o.Done? ==> tick == from + n)
    }

    /** A call that only reads. */
    method Probe() returns (o: Outcome<()>)
      modifies this`tick
      ensures tick == old(tick) + 1
      ensures o.Done? <==> faults(old(tick)).Quiet?
      ensures o.Dead? <==> faults(old(tick)).Deadly()
    {
      var fault := faults(tick);
      tick := tick + 1;
      o := fault.Report(());
    }

    /** A call that changes the disk: to `full` if it takes effect, to `half` if it is cut short. */
    method Perform(half: Disk, full: Disk) returns (o: Outcome<()>)
      modifies this`tick, this`disk
      ensures tick == old(tick) + 1
      ensures disk == old(disk) || disk == half || disk == full
      ensures o.Done? ==> disk == full
      ensures o.Done? <==> faults(old(tick)).Quiet?
      ensures o.Dead? <==> faults(old(tick)).Deadly()
    {
      var fault := faults(tick);
      tick := tick + 1;
      if fault.Effective() { disk := full; } else if fault.Partial() { disk := half; }
      o := fault.Report(());
    }

    /** load_promotion_transaction_journal. */
    method LoadJournal() returns (o: Outcome<Snapshot>)
      modifies this`tick
      ensures tick == old(tick) + 1
      ensures o.Done? <==> Loads(journal) && faults(old(tick)).Quiet?
      ensures o.Dead? <==> faults(old(tick)).Deadly()
      ensures o.Done? ==> o.value == Current(journal)
    {
      var _ :- Probe();
      var loaded := TransactionJournal.Load(journal);
      if loaded.None? { return Error; }
      o := Done(loaded.value);
    }

    /** append_promotion_transaction_snapshot, of the validated successor of `current`. An append that
        fails has left the journal alone, torn, or extended all the same. */
    method Append(current: Snapshot, state: State, progress: seq<Progress>) returns (o: Outcome<Snapshot>)
      modifies this`tick, this`journal
      ensures Took(old(tick), old(journal), 2, o)
      ensures var next := Snapshot(state, progress);
              && (journal == old(journal)
                  || (Accepts(old(journal), current, next)
                      && (journal == Extended(old(journal), next) || journal == old(journal).(torn := true))))
              && (o.Done? ==>
                    Accepts(old(journal), current, next) && o.value == next && journal == Extended(old(journal), next))
              && (Accepts(old(journal), current, next) && Smooth(old(tick)) ==> o.Done?)
              && (Accepts(old(journal), current, next) && old(QuietFor(1)) ==>
                    && tick == old(tick) + 2
                    && (faults(old(tick) + 1).DieTorn? ==> o.Dead? && journal == old(journal).(torn := true)))
    {
      var successor := Transition(current, state, progress);
      if successor.None? { return Error; }
      var durable :- LoadJournal();
      if durable != current || successor.value == durable || |journal.records| >= MAX_SNAPSHOTS { return Error; }
      var fault := faults(tick);
      tick := tick + 1;
      if fault.Effective() {
        journal := Extended(journal, successor.value);
      } else if fault.Partial() {
        journal := journal.(torn := true);
      }
      o := fault.Report(successor.value);
    }

    /** A new file, the way both executors make one: open with O_CREAT | O_EXCL, fchmod, write, fsync of the
        file, fsync of its directory. Whatever happens, no other path is affected. */
    method CreateFile(p: Path, mode: nat, image: Image) returns (o: Outcome<()>)
      requires disk.Valid()
      modifies this`tick, this`disk
      ensures Took(old(tick), journal, 5, o)
      ensures disk.Valid() && SameBut(old(disk), disk, p)
      ensures p in old(disk).live ==> disk == old(disk)
      ensures old(disk).Loose() ==> forall after :: AfterPowerLoss(disk, after) ==> SameButEither(old(disk), after, p)
      ensures o.Done? ==>
        && p !in old(disk).live && disk.Holds(p, image)
        && (old(disk).Loose() ==> LooselyAdded(old(disk), disk, p))
        && (old(disk).Settled() ==> disk.Settled())
        && (old(disk).Synced() ==> disk.Synced())
      ensures p !in old(disk).live && Smooth(old(tick)) ==> o.Done?
    {
      if p in disk.live {
        AddingIsSafe(disk, disk, p);
        return Error;
      }
      ghost var base := disk;
      CreateAdds(base, p, mode);
      AddingIsSafe(base, base, p);
      AddingIsSafe(base, base.Create(p, mode), p);
      var _ :- Perform(disk, disk.Create(p, mode));
      var filled := FillFile(base, p, image);
      AddingIsSafe(base, disk, p);
      var _ :- filled;
      AddedIsDurable(base, disk, p);
      o := Perform(disk, disk.SyncDirectory(p.dir));
    }

    /** fchmod, write and fsync of a file just created. */
    method FillFile(ghost base: Disk, p: Path, image: Image) returns (o: Outcome<()>)
      requires base.Valid() && p !in base.live && Adds(base, disk, p)
      requires disk.inodes[|base.inodes|].plain
      modifies this`tick, this`disk
      ensures Took(old(tick), journal, 3, o)
      ensures Adds(base, disk, p)
      ensures o.Done? ==> disk.inodes[|base.inodes|] == Inode(image, true, true)
      ensures Smooth(old(tick)) ==> o.Done?
    {
      AddsThenChanges(base, disk, p, disk.Chmod(p, image.mode).inodes[disk.live[p]]);
      var _ :- Perform(disk, disk.Chmod(p, image.mode));
      ghost var open := disk;
      var written := Write(p, image.data);
      AddsThenChanges(base, open, p, disk.inodes[|base.inodes|]);
      var _ :- written;
      AddsThenChanges(base, disk, p, disk.SyncFile(p).inodes[disk.live[p]]);
      o := Perform(disk, disk.SyncFile(p));
    }

    method Write(p: Path, data: Bytes) returns (o: Outcome<()>)
      requires disk.Look(p).Some?
      modifies this`tick, this`disk
      ensures tick == old(tick) + 1
      ensures disk == old(disk) || exists written :: written <= data && disk == old(disk).Write(p, written)
      ensures o.Done? ==> disk == old(disk).Write(p, data)
      ensures o.Done? <==> faults(old(tick)).Quiet?
      ensures o.Dead? <==> faults(old(tick)).Deadly()
    {
      var fault := faults(tick);
      tick := tick + 1;
      if fault.Effective() {
        disk := disk.Write(p, data);
      } else if fault.Partial() {
        disk := disk.Write(p, if fault.kept <= |data| then data[..fault.kept] else data);
      }
      o := fault.Report(());
    }
  }
}
