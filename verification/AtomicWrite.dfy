/**
 Replacing a file through a temporary one: what a crash at any instant can leave behind.  This is why
 the session model may treat a patch or metadata write as old, new with an error, or new.
 */
module AtomicWrite {

  type Bytes = string
  type Name = string
  type Id = nat

  const MAX_PATCH_BYTES: nat := 16 * 1024 * 1024

  /** A file's data, and whether it has reached the disk. */
  datatype File = File(data: Bytes, synced: bool)

  /** A directory as programs see it (`names`) and as last forced to disk (`synced`). */
  datatype Disk = Disk(names: map<Name, Id>, synced: map<Name, Id>, files: map<Id, File>)

  /**
   After a crash the directory is as seen or as last synced, and a file that was not synced may hold
   anything.
   */
  ghost predicate MayShowIn(d: Disk, dir: map<Name, Id>, name: Name, content: Bytes) {
    name in dir && dir[name] in d.files && (d.files[dir[name]].synced ==> content == d.files[dir[name]].data)
  }

  ghost predicate MayShow(d: Disk, name: Name, content: Bytes) {
    MayShowIn(d, d.names, name, content) || MayShowIn(d, d.synced, name, content)
  }

  ghost predicate MayBeMissing(d: Disk, name: Name) {
    name !in d.names || name !in d.synced
  }

  /** The name has been on disk with this content for good, or has never been there. */
  ghost predicate Settled(d: Disk, name: Name) {
    && (name in d.names <==> name in d.synced)
    && (name in d.names ==> d.names[name] == d.synced[name] && d.names[name] in d.files
                            && d.files[d.names[name]].synced)
  }

  /** Whatever a crash may show of the name was possible before, or is the new content in full. */
  ghost predicate OldOrNew(before: Disk, d: Disk, name: Name, content: Bytes) {
    && (forall c :: MayShow(d, name, c) ==> MayShow(before, name, c) || c == content)
    && (MayBeMissing(d, name) ==> MayBeMissing(before, name))
  }

  ghost predicate Unchanged(before: Disk, d: Disk, name: Name) {
    && (name in d.names <==> name in before.names)
    && (name in before.names ==> d.names[name] == before.names[name])
    && (name in d.synced <==> name in before.synced)
    && (name in before.synced ==> d.synced[name] == before.synced[name])
    && (name in before.names ==> before.names[name] in d.files && before.names[name] in before.files
                                 && d.files[before.names[name]] == before.files[before.names[name]])
  }

  /** Programs read this content under the name. */
  predicate Reads(d: Disk, name: Name, content: Bytes) {
    name in d.names && d.names[name] in d.files && d.files[d.names[name]].data == content
  }

  /** Once settled, a crash can only show what programs read. */
  lemma SettledShows(d: Disk, name: Name, content: Bytes, c: Bytes)
    requires Settled(d, name) && Reads(d, name, content)
    ensures MayShow(d, name, c) <==> c == content
    ensures !MayBeMissing(d, name)
  {
  }

  class Directory {
    var disk: Disk
    /** How many system calls have failed so far. */
    var failures: nat
    /** Every state of the disk so far; a crash can happen in each of them. */
    ghost var log: seq<Disk>

    constructor (disk: Disk)
      ensures this.disk == disk && log == [disk] && failures == 0
    {
      this.disk, log, failures := disk, [disk], 0;
    }

    /** A system call works or fails. */
    method Call() returns (ok: bool)
      modifies this`failures
      ensures failures == old(failures) + if ok then 0 else 1
    {
      ok := *;
      if !ok {
        failures := failures + 1;
      }
    }

    /** The disk as a system call leaves it, whether it succeeds or not. */
    method Apply(d: Disk)
      modifies this`disk, this`log
      ensures disk == d && log == old(log) + [d]
    {
      disk, log := d, log + [d];
    }

    /** Write some or all of the data into an open file. */
    method WriteData(id: Id, data: Bytes) returns (ok: bool)
      requires id in disk.files
      modifies this
      ensures id in disk.files
      ensures disk == old(disk).(files := old(disk).files[id := File(disk.files[id].data, false)])
      ensures ok ==> disk.files[id].data == data
      ensures log == old(log) + [disk] && failures == old(failures) + if ok then 0 else 1
    {
      ok := Call();
      var n: nat :| n <= |data|;
      Apply(disk.(files := disk.files[id := File(if ok then data else data[..n], false)]));
    }

    method Fsync(id: Id) returns (ok: bool)
      requires id in disk.files
      modifies this
      ensures disk == if ok then old(disk).(files := old(disk).files[id := old(disk.files[id]).(synced := true)])
                      else old(disk)
      ensures log == old(log) + [disk] && failures == old(failures) + if ok then 0 else 1
    {
      ok := Call();
      Apply(if ok then disk.(files := disk.files[id := disk.files[id].(synced := true)]) else disk);
    }

    method Unlink(tmp: Name)
      modifies this
      ensures disk == old(disk).(names := old(disk).names - {tmp}) || (disk == old(disk) && failures > old(failures))
      ensures log == old(log) + [disk] && old(failures) <= failures
    {
      var ok := Call();
      Apply(if ok then disk.(names := disk.names - {tmp}) else disk);
    }

    method Rename(tmp: Name, name: Name) returns (ok: bool)
      requires tmp in disk.names && tmp != name
      modifies this
      ensures disk == if ok then old(disk).(names := (old(disk).names - {tmp})[name := old(disk.names[tmp])])
                      else old(disk)
      ensures log == old(log) + [disk] && failures == old(failures) + if ok then 0 else 1
    {
      ok := Call();
      Apply(if ok then disk.(names := (disk.names - {tmp})[name := disk.names[tmp]]) else disk);
    }

    method FsyncDir() returns (ok: bool)
      modifies this
      ensures disk == old(disk) || disk == old(disk).(synced := old(disk).names)
      ensures ok ==> disk == old(disk).(synced := old(disk).names)
      ensures log == old(log) + [disk] && failures == old(failures) + if ok then 0 else 1
    {
      ok := Call();
      var landed: bool := *;
      Apply(if ok || landed then disk.(synced := disk.names) else disk);
    }

    /**
     Owner, mode, sync and close must succeed before the rename; the directory is synced after it.  It
     succeeds exactly when no call fails, and unless a second one fails the temporary name is gone.
     */
    method Commit(tmp: Name, id: Id, name: Name, content: Bytes) returns (ok: bool)
      requires tmp != name && tmp in disk.names && disk.names[tmp] == id && id in disk.files
      requires disk.files[id].data == content && Settled(disk, name)
      requires name in disk.names ==> disk.names[name] != id
      modifies this
      ensures old(log) <= log
      ensures forall i :: |old(log)| <= i < |log| ==> OldOrNew(old(disk), log[i], name, content)
      ensures ok ==> Settled(disk, name) && Reads(disk, name, content)
      ensures !ok ==> Unchanged(old(disk), disk, name) || Reads(disk, name, content)
      ensures old(failures) <= failures && (ok <==> failures == old(failures))
      ensures tmp in disk.names ==> failures > old(failures) + 1
    {
      var prepared := Call();
      if !prepared {
        Unlink(tmp);
        return false;
      }
      var synced := Fsync(id);
      if !synced {
        Unlink(tmp);
        return false;
      }
      var closed := Call();
      if !closed {
        Unlink(tmp);
        return false;
      }
      var renamed := Rename(tmp, name);
      if !renamed {
        Unlink(tmp);
        return false;
      }
      ok := FsyncDir();
    }

    /** Create the temporary file, as inode `id`, copy the content up to the limit, and put it in place. */
    method WriteFileAt(name: Name, tmp: Name, id: Id, content: Bytes) returns (ok: bool)
      requires tmp != name && tmp !in disk.names && Settled(disk, name)
      requires id !in disk.files && id !in disk.names.Values && id !in disk.synced.Values
      modifies this
      ensures old(log) <= log
      ensures forall i :: |old(log)| <= i < |log| ==> OldOrNew(old(disk), log[i], name, content)
      ensures ok ==> Settled(disk, name) && Reads(disk, name, content)
      ensures !ok ==> Unchanged(old(disk), disk, name) || Reads(disk, name, content)
      ensures |content| > 16 * 1024 * 1024 ==> !ok && Unchanged(old(disk), disk, name)
      ensures ok <==> failures == old(failures) && |content| <= 16 * 1024 * 1024
      ensures tmp in disk.names ==> failures > old(failures) + if |content| <= 16 * 1024 * 1024 then 1 else 0
    {
      var created := Call();
      if !created {
        return false;
      }
      Apply(disk.(names := disk.names[tmp := id], files := disk.files[id := File("", false)]));
      var limited := if |content| > MAX_PATCH_BYTES then content[..MAX_PATCH_BYTES + 1] else content;
      var written := WriteData(id, limited);
      if !written || |limited| > MAX_PATCH_BYTES {
        Unlink(tmp);
        return false;
      }
      ok := Commit(tmp, id, name, content);
    }
  }
}
