/**
 Saving a project workflow (src/workflows/project-save-helper.py): write a temporary file, sync it,
 publish it under its final name, sync the directory. Any call may fail, any write may be short, and the
 process may be killed or the power may fail between any two calls.
 */
module Save {
  import opened Common
  import Bytes
  import Snapshot

  type Data = Bytes.Bytes

  // ---------- reading ----------

  const MAX_SOURCE_BYTES: nat := 256 * 1024
  const CHUNK: nat := 65536

  /**
   The bounded read: exactly the content is returned that the reads deliver, in pieces of any size, if it
   keeps within the bound; otherwise nothing. It reads at most one byte beyond the bound.
   */
  method ReadSource(regular: bool, size: nat, input: Snapshot.Reads) returns (r: Option<Data>)
    ensures forall payload: Data ::
              r == Some(payload) <==>
              regular && size <= 256 * 1024 && |payload| <= 256 * 1024 && Snapshot.Delivers(input, 0, CHUNK, payload)
  {
    if !regular || size > MAX_SOURCE_BYTES { return None; }
    forall payload: Data
      ensures Snapshot.Drain(input, 0, CHUNK, MAX_SOURCE_BYTES) == Some(payload)
              <==> Snapshot.Delivers(input, 0, CHUNK, payload) && |payload| <= MAX_SOURCE_BYTES
    {
      Snapshot.DrainIffDelivers(input, 0, CHUNK, MAX_SOURCE_BYTES, payload);
    }
    r := ReadAll(input);
  }

  // The loop over what remains to be read.
  method ReadAll(input: Snapshot.Reads) returns (r: Option<Data>)
    ensures r == Snapshot.Drain(input, 0, CHUNK, MAX_SOURCE_BYTES)
  {
    hide Snapshot.Delivers;
    var remaining, i := MAX_SOURCE_BYTES + 1, 0;
    var payload: Data := [];
    ghost var all := Snapshot.Drain(input, 0, CHUNK, MAX_SOURCE_BYTES);
    assert all.Some? ==> [] + all.value == all.value;
    while remaining > 0
      invariant 0 <= remaining && |payload| + remaining == MAX_SOURCE_BYTES + 1
      invariant remaining == 0 ==> all == None
      invariant remaining > 0 ==>
                  match Snapshot.Drain(input, i, CHUNK, remaining - 1)
                  case None => all == None
                  case Some(rest) => all == Some(payload + rest)
    {
      var chunk := Snapshot.Chunk(input, i, if CHUNK < remaining then CHUNK else remaining);
      if chunk.None? { return None; }
      if chunk.value == [] {
        assert payload + [] == payload;
        break;
      }
      ghost var left := remaining - 1 - |chunk.value|;
      if left >= 0 {
        var rest := Snapshot.Drain(input, i + 1, CHUNK, left);
        if rest.Some? { assert payload + (chunk.value + rest.value) == (payload + chunk.value) + rest.value; }
      }
      payload, remaining, i := payload + chunk.value, remaining - |chunk.value|, i + 1;
    }
    r := if |payload| > MAX_SOURCE_BYTES then None else Some(payload);
  }

  // ---------- the directory ----------

  type Inode = nat

  // `synced`: everything written so far has reached the disk.
  datatype File = File(content: Data, synced: bool)

  /**
   The workflow directory and its files. Inodes from `next` on are unused. `settled` holds every value the
   destination entry may have on the disk: all it has had since the directory was last synced.
   */
  datatype Disk = Disk(files: map<Inode, File>, next: Inode, temporary: Option<Inode>,
                       destination: Option<Inode>, settled: set<Option<Inode>>)

  predicate Names(d: Disk, entry: Option<Inode>) { entry.Some? ==> entry.value in d.files }

  predicate WellFormed(d: Disk)
  {
    && (forall i :: i in d.files ==> i < d.next)
    && Names(d, d.temporary) && Names(d, d.destination) && d.destination in d.settled
    && (forall e :: e in d.settled ==> Names(d, e))
  }

  // What a reader finds at the destination: None if there is no such file.
  function Now(d: Disk): Option<Data>
  {
    if d.destination.Some? && d.destination.value in d.files
    then Some(d.files[d.destination.value].content) else None
  }

  // Entry `e` reads as `v` after a power failure; a file that was not synced may hold anything.
  predicate Reads(d: Disk, e: Option<Inode>, v: Option<Data>)
  {
    match e
    case None => v == None
    case Some(i) => v.Some? && i in d.files && (d.files[i].synced ==> v.value == d.files[i].content)
  }

  // The destination may read as `v` after a power failure at this moment.
  ghost predicate Survives(d: Disk, v: Option<Data>)
  {
    exists e :: e in d.settled && Reads(d, e, v)
  }

  // What may be found at any moment of a save of `source` that began at `before`.
  ghost predicate Safe(d: Disk, before: Disk, source: Data, overwrite: bool)
  {
    && (Now(d) == Now(before) || Now(d) == Some(source))
    && (forall v :: Survives(d, v) ==> Survives(before, v) || v == Some(source))
    && (!overwrite && before.destination.Some? ==> Now(d) == Now(before) && forall v :: Survives(d, v) ==> Survives(before, v))
  }

  predicate OldFilesKept(d: Disk, before: Disk)
  {
    forall i :: i in before.files ==> i in d.files && d.files[i] == before.files[i]
  }

  // Nothing was published yet.
  predicate Unpublished(d: Disk, before: Disk)
  {
    d.destination == before.destination && d.settled == before.settled && OldFilesKept(d, before)
  }

  // The new inode was published.
  predicate Published(d: Disk, before: Disk, source: Data)
  {
    && OldFilesKept(d, before) && d.destination == Some(before.next)
    && before.next in d.files && d.files[before.next] == File(source, true)
    && d.settled <= before.settled + {Some(before.next)}
  }

  lemma StagesAreSafe(d: Disk, before: Disk, source: Data, overwrite: bool)
    requires WellFormed(before)
    requires Unpublished(d, before) || (Published(d, before, source) && (overwrite || before.destination.None?))
    ensures Safe(d, before, source, overwrite)
  {
    forall v | Survives(d, v) ensures Survives(before, v) || (Published(d, before, source) && v == Some(source)) {
      var e :| e in d.settled && Reads(d, e, v);
      if e in before.settled { assert Names(before, e) && Reads(before, e, v); }
    }
  }

  lemma StartIsSafe(d: Disk, source: Data, overwrite: bool)
    requires WellFormed(d)
    ensures Safe(d, d, source, overwrite)
  {
    StagesAreSafe(d, d, source, overwrite);
  }

  // The temporary name does not matter to a reader.
  lemma SameView(d: Disk, e: Disk)
    requires d == e || d == e.(temporary := None)
    ensures Now(d) == Now(e) && forall v :: Survives(d, v) <==> Survives(e, v)
  {
    forall v ensures Survives(d, v) <==> Survives(e, v) {
      assert forall x :: Reads(d, x, v) <==> Reads(e, x, v);
    }
  }

  // After publication and the sync of the directory nothing but the new source can be found.
  lemma PublishedForGood(d: Disk, before: Disk, source: Data)
    requires Published(d, before, source) && d.settled == {d.destination}
    ensures Now(d) == Some(source) && forall v :: Survives(d, v) <==> v == Some(source)
  {
    assert Reads(d, d.destination, Some(source));
  }

  /**
   Why the file is synced before it is published: with the directory settled and its file on the disk
   beforehand, publishing a file that was not synced is never safe, whatever was written to it.
   */
  lemma UnsyncedIsUnsafe(d: Disk, before: Disk, source: Data, overwrite: bool)
    requires WellFormed(before) && before.settled == {before.destination}
    requires before.destination.Some? ==> before.files[before.destination.value].synced
    requires d.destination == Some(before.next) && d.destination in d.settled
    requires before.next in d.files && !d.files[before.next].synced
    ensures !Safe(d, before, source, overwrite)
  {
    var kept := if Now(before).Some? then Now(before).value else [];
    var junk := source + kept + [0];
    assert |junk| > |source| && |junk| > |kept|;
    assert Reads(d, d.destination, Some(junk));
    assert Survives(d, Some(junk)) && !Survives(before, Some(junk));
  }

  class Folder {
    var disk: Disk
    var history: seq<Disk> // the states after every call
    var calls: nat
    const faults: nat -> bool // which calls fail
    const grants: nat -> nat  // how many bytes a write accepts at most

    constructor (disk: Disk, faults: nat -> bool, grants: nat -> nat)
      ensures this.disk == disk && history == [disk] && calls == 0 && this.faults == faults && this.grants == grants
    {
      this.disk, history, calls, this.faults, this.grants := disk, [disk], 0, faults, grants;
    }

    ghost predicate Clean(from: nat)
      reads this
    {
      forall k :: from <= k < calls ==> !faults(k) && grants(k) > 0
    }

    ghost predicate Kept(from: nat, before: Disk, source: Data, overwrite: bool)
      reads this
    {
      from <= |history| && forall i :: from <= i < |history| ==> Safe(history[i], before, source, overwrite)
    }

    method Step(after: Disk)
      modifies this
      ensures disk == after && history == old(history) + [after] && calls == old(calls) + 1
    {
      disk, history, calls := after, history + [after], calls + 1;
    }

    // open with O_CREAT | O_EXCL.
    method OpenTemporary() returns (ok: bool, fd: Inode)
      modifies this
      ensures history == old(history) + [disk] && calls == old(calls) + 1
      ensures ok == (!faults(old(calls)) && old(disk).temporary.None?)
      ensures disk == if ok
                      then old(disk).(files := old(disk).files[fd := File([], false)], next := fd + 1, temporary := Some(fd))
                      else old(disk)
      ensures fd == old(disk).next
    {
      ok, fd := !faults(calls) && disk.temporary.None?, disk.next;
      Step(if ok then disk.(files := disk.files[fd := File([], false)], next := fd + 1, temporary := Some(fd)) else disk);
    }

    method Write(fd: Inode, data: Data) returns (ok: bool, written: nat)
      requires fd in disk.files
      modifies this
      ensures history == old(history) + [disk] && calls == old(calls) + 1
      ensures ok == !faults(old(calls)) && written <= |data| && (|data| > 0 && grants(old(calls)) > 0 ==> written > 0)
      ensures disk == if ok && written > 0
                      then old(disk).(files := old(disk).files[fd := File(old(disk).files[fd].content + data[..written], false)])
                      else old(disk)
    {
      ok, written := !faults(calls), if grants(calls) < |data| then grants(calls) else |data|;
      Step(if ok && written > 0
           then disk.(files := disk.files[fd := File(disk.files[fd].content + data[..written], false)]) else disk);
    }

    method SyncFile(fd: Inode) returns (ok: bool)
      requires fd in disk.files
      modifies this
      ensures history == old(history) + [disk] && calls == old(calls) + 1 && ok == !faults(old(calls))
      ensures disk == if ok then old(disk).(files := old(disk).files[fd := old(disk).files[fd].(synced := true)]) else old(disk)
    {
      ok := !faults(calls);
      Step(if ok then disk.(files := disk.files[fd := disk.files[fd].(synced := true)]) else disk);
    }

    // rename over the destination.
    method Replace() returns (ok: bool)
      modifies this
      ensures history == old(history) + [disk] && calls == old(calls) + 1
      ensures ok == (!faults(old(calls)) && old(disk).temporary.Some?)
      ensures disk == if ok
                      then old(disk).(temporary := None, destination := old(disk).temporary, settled := old(disk).settled + {old(disk).temporary})
                      else old(disk)
    {
      ok := !faults(calls) && disk.temporary.Some?;
      Step(if ok then disk.(temporary := None, destination := disk.temporary, settled := disk.settled + {disk.temporary}) else disk);
    }

    // A second name for the temporary file; it fails when the destination exists.
    method Link() returns (ok: bool)
      modifies this
      ensures history == old(history) + [disk] && calls == old(calls) + 1
      ensures ok == (!faults(old(calls)) && old(disk).temporary.Some? && old(disk).destination.None?)
      ensures disk == if ok
                      then old(disk).(destination := old(disk).temporary, settled := old(disk).settled + {old(disk).temporary})
                      else old(disk)
    {
      ok := !faults(calls) && disk.temporary.Some? && disk.destination.None?;
      Step(if ok then disk.(destination := disk.temporary, settled := disk.settled + {disk.temporary}) else disk);
    }

    method Unlink() returns (ok: bool)
      modifies this
      ensures history == old(history) + [disk] && calls == old(calls) + 1
      ensures ok == (!faults(old(calls)) && old(disk).temporary.Some?)
      ensures disk == if ok then old(disk).(temporary := None) else old(disk)
    {
      ok := !faults(calls) && disk.temporary.Some?;
      Step(if ok then disk.(temporary := None) else disk);
    }

    method SyncDirectory() returns (ok: bool)
      modifies this
      ensures history == old(history) + [disk] && calls == old(calls) + 1 && ok == !faults(old(calls))
      ensures disk == if ok then old(disk).(settled := {old(disk).destination}) else old(disk)
    {
      ok := !faults(calls);
      Step(if ok then disk.(settled := {disk.destination}) else disk);
    }

    // Calls that do not touch the directory: close and print.
    method Other() returns (ok: bool)
      modifies this
      ensures history == old(history) + [disk] && calls == old(calls) + 1 && ok == !faults(old(calls))
      ensures disk == old(disk)
    {
      ok := !faults(calls);
      Step(disk);
    }

    /**
     Writing everything through short writes: on success exactly `data` was appended to this one file; on
     failure a prefix of it. Only a failed call or a write without progress makes it fail.
     */
    method WriteAll(fd: Inode, data: Data) returns (ok: bool)
      requires fd in disk.files
      modifies this
      ensures old(history) <= history && old(calls) <= calls
      ensures fd in disk.files && disk == old(disk).(files := old(disk).files[fd := disk.files[fd]])
      ensures forall i :: |old(history)| <= i < |history| ==>
                fd in history[i].files && history[i] == old(disk).(files := old(disk).files[fd := history[i].files[fd]])
      ensures ok ==> disk.files[fd].content == old(disk).files[fd].content + data
      ensures old(disk).files[fd].content <= disk.files[fd].content <= old(disk).files[fd].content + data
      ensures Clean(old(calls)) ==> ok
    {
      var view := data;
      ghost var before, n := disk, |history|;
      while view != []
        invariant old(history) <= history && old(calls) <= calls
        invariant fd in disk.files && disk == before.(files := before.files[fd := disk.files[fd]])
        invariant forall i :: n <= i < |history| ==>
                    fd in history[i].files && history[i] == before.(files := before.files[fd := history[i].files[fd]])
        invariant disk.files[fd].content + view == before.files[fd].content + data
        invariant before.files[fd].content <= disk.files[fd].content
        decreases |view|
      {
        var written: nat;
        ghost var call := calls;
        ok, written := Write(fd, view);
        assert !ok || written == 0 ==> faults(call) || grants(call) == 0;
        if !ok { return; }
        if written == 0 { return false; }
        assert view == view[..written] + view[written..];
        view := view[written..];
      }
      ok := true;
    }

    /**
     The save. At every moment, whether the process is killed or the power fails, the destination reads as
     it did before the save (absent included) or as the complete new source; without `overwrite` an existing
     destination stays as it is. A success leaves the new source, on the disk, under the one final name.
     If every call works, the save succeeds exactly when it may write, and leaves no temporary file. Whatever fails
     before call number `cleanup`, the temporary name goes if the last calls, at most three, work.
     */
    method SaveSource(source: Data, overwrite: bool) returns (ok: bool, ghost cleanup: nat)
      requires WellFormed(disk)
      modifies this
      ensures old(history) <= history
      ensures forall i :: |old(history)| <= i < |history| ==> Safe(history[i], old(disk), source, overwrite)
      ensures Safe(disk, old(disk), source, overwrite)
      ensures ok ==> Now(disk) == Some(source) && disk.temporary.None?
      ensures ok ==> forall v :: Survives(disk, v) <==> v == Some(source)
      ensures ok ==> overwrite || old(disk).destination.None?
      ensures Clean(old(calls)) && old(disk).temporary.None? ==>
                disk.temporary.None? && (ok <==> |source| <= 256 * 1024 && (overwrite || old(disk).destination.None?))
      ensures |source| > 256 * 1024 ==> !ok && disk == old(disk) && calls == old(calls)
      ensures |source| <= 256 * 1024 ==>
                old(calls) < cleanup < calls <= cleanup + 3
                && ((forall k :: cleanup <= k < calls ==> !faults(k)) ==> disk.temporary.None?)
    {
      hide Safe, Published, Unpublished, Survives, Now, Reads, WellFormed, Names, OldFilesKept;
      StartIsSafe(disk, source, overwrite);
      cleanup := calls;
      if |source| > MAX_SOURCE_BYTES { return false, cleanup; }
      ghost var before, h := disk, |history|;
      var fd: Inode, open: bool;
      ok, open, fd := Prepare(source, overwrite);
      if ok {
        ok := Publish(fd, overwrite, before, h, source);
        if ok {
          ok := SyncAndReport(before, h, source, overwrite);
          if ok { PublishedForGood(disk, before, source); }
        }
      }
      ghost var published := disk;
      cleanup := calls;
      ok := Finish(ok, open, before, h, source, overwrite);
      if ok { SameView(disk, published); }
    }

    // Making the publication last, and reporting it.
    method SyncAndReport(ghost before: Disk, ghost h: nat, ghost source: Data, ghost overwrite: bool) returns (ok: bool)
      requires WellFormed(before) && Kept(h, before, source, overwrite) && (overwrite || before.destination.None?)
      requires Published(disk, before, source)
      modifies this
      ensures old(history) <= history && old(calls) <= calls && Kept(h, before, source, overwrite)
      ensures Published(disk, before, source) && disk.temporary == old(disk).temporary
      ensures ok ==> disk.settled == {disk.destination}
      ensures Clean(old(calls)) ==> ok
    {
      ok := SyncDirectory();
      StagesAreSafe(disk, before, source, overwrite);
      if ok { ok := Other(); }
    }

    // Creating, writing, syncing and closing the temporary file.
    method Prepare(source: Data, overwrite: bool) returns (ok: bool, open: bool, fd: Inode)
      requires WellFormed(disk)
      modifies this
      ensures old(history) <= history && old(calls) < calls
      ensures Kept(|old(history)|, old(disk), source, overwrite)
      ensures Unpublished(disk, old(disk)) && fd == old(disk).next
      ensures ok ==> !open && disk.temporary == Some(fd) && fd in disk.files && disk.files[fd] == File(source, true)
      ensures Clean(old(calls)) && old(disk).temporary.None? ==> ok
    {
      ghost var before, h := disk, |history|;
      ok, fd := OpenTemporary();
      StagesAreSafe(disk, before, source, overwrite);
      open := ok;
      if !ok { return; }
      ok := WriteAll(fd, source);
      forall i | h < i < |history| ensures Safe(history[i], before, source, overwrite) {
        StagesAreSafe(history[i], before, source, overwrite);
      }
      if !ok { return; }
      ok := SyncFile(fd);
      StagesAreSafe(disk, before, source, overwrite);
      if !ok { return; }
      ok := Other();
      open := !ok;
    }

    // Putting the finished file under its final name.
    method Publish(fd: Inode, overwrite: bool, ghost before: Disk, ghost h: nat, ghost source: Data) returns (ok: bool)
      requires WellFormed(before) && Kept(h, before, source, overwrite) && Unpublished(disk, before) && fd == before.next
      requires disk.temporary == Some(fd) && fd in disk.files && disk.files[fd] == File(source, true)
      modifies this
      ensures old(history) <= history && old(calls) <= calls && Kept(h, before, source, overwrite)
      ensures Unpublished(disk, before) || (Published(disk, before, source) && (overwrite || before.destination.None?))
      ensures ok ==> Published(disk, before, source) && disk.temporary.None? && (overwrite || before.destination.None?)
      ensures Clean(old(calls)) ==> (ok <==> overwrite || before.destination.None?)
    {
      if overwrite {
        ok := Replace();
        StagesAreSafe(disk, before, source, overwrite);
      } else {
        ok := Link();
        StagesAreSafe(disk, before, source, overwrite);
        if ok {
          ok := Unlink();
          StagesAreSafe(disk, before, source, overwrite);
        }
      }
    }

    // The finally block. When closing the file fails, the temporary name is left behind.
    method Finish(saved: bool, open: bool, ghost before: Disk, ghost h: nat, ghost source: Data, ghost overwrite: bool)
      returns (ok: bool)
      requires WellFormed(before) && Kept(h, before, source, overwrite)
      requires Unpublished(disk, before) || (Published(disk, before, source) && (overwrite || before.destination.None?))
      modifies this
      ensures old(history) <= history && old(calls) <= calls && Kept(h, before, source, overwrite)
      ensures disk == old(disk) || disk == old(disk).(temporary := None)
      ensures Safe(disk, before, source, overwrite)
      ensures ok ==> saved && disk.temporary.None?
      ensures Clean(old(calls)) ==> disk.temporary.None? && ok == saved
      ensures old(calls) < calls <= old(calls) + 3
      ensures (forall k :: old(calls) <= k < calls ==> !faults(k)) ==> disk.temporary.None?
    {
      ok := saved;
      if open {
        var closed := Other();
        StagesAreSafe(disk, before, source, overwrite);
        if !closed { return false; }
      }
      var present := disk.temporary.Some?;
      var removed := Unlink();
      StagesAreSafe(disk, before, source, overwrite);
      if !removed && present { return false; }
      var closed := Other();
      StagesAreSafe(disk, before, source, overwrite);
      ok := ok && closed;
    }
  }
}
