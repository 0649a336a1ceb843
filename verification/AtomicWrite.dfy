/**
 `atomic_write_beneath` of src/service/path_bounds.rs: a temporary file is created, filled, synced and
 renamed over the target, all in one parent directory.
 */
module AtomicWrite {
  import opened Wrappers

  type Bytes = seq<int>

  /** Owner, group and permission bits. */
  datatype Meta = Meta(uid: int, gid: int, mode: int)

  /** A new temporary file: the panel's own user and group, and mode 0600. */
  const TEMP_META := Meta(0, 0, 0x180)

  datatype Inode = Inode(data: Bytes, synced: bool, meta: Meta)

  /** What a name in the directory stands for; `Other` is anything but a regular file. */
  datatype Entry = Regular(inode: nat) | Other

  datatype Fs = Fs(names: map<string, Entry>, inodes: map<nat, Inode>, next: nat)

  datatype WriteError =
    | NotRegular
    | StatFailed
    | CreateFailed
    | TempWriteFailed
    | MetadataFailed
    | TempSyncFailed
    | RenameFailed
    | ParentSyncFailed

  /** Names stand for inodes there are; inode numbers from `next` on are free. */
  ghost predicate WellFormed(fs: Fs) {
    && (forall n :: n in fs.names && fs.names[n].Regular? ==> fs.names[n].inode in fs.inodes)
    && (forall i :: i in fs.inodes ==> i < fs.next)
  }

  /// The calls

  /** `fstatat` of the target without following links: nothing, a regular file, or not writable. */
  function Stat(fs: Fs, name: string): Result<Option<Meta>, WriteError> {
    if name !in fs.names then Ok(None)
    else if fs.names[name].Regular? && fs.names[name].inode in fs.inodes then Ok(Some(fs.inodes[fs.names[name].inode].meta))
    else Err(NotRegular)
  }

  /** `O_CREAT | O_EXCL`: only if there is no such name. */
  function Created(fs: Fs, name: string): Option<Fs> {
    if name in fs.names then None
    else Some(Fs(fs.names[name := Regular(fs.next)], fs.inodes[fs.next := Inode([], false, TEMP_META)], fs.next + 1))
  }

  function Set(fs: Fs, inode: nat, i: Inode): Fs {
    fs.(inodes := fs.inodes[inode := i])
  }

  function Appended(fs: Fs, inode: nat, chunk: Bytes): Fs
    requires inode in fs.inodes
  {
    Set(fs, inode, fs.inodes[inode].(data := fs.inodes[inode].data + chunk, synced := false))
  }

  /** `fchown`. */
  function WithOwner(fs: Fs, inode: nat, meta: Meta): Fs
    requires inode in fs.inodes
  {
    Set(fs, inode, fs.inodes[inode].(meta := Meta(meta.uid, meta.gid, fs.inodes[inode].meta.mode)))
  }

  /** `fchmod`. */
  function WithMode(fs: Fs, inode: nat, meta: Meta): Fs
    requires inode in fs.inodes
  {
    Set(fs, inode, fs.inodes[inode].(meta := fs.inodes[inode].meta.(mode := meta.mode)))
  }

  function Synced(fs: Fs, inode: nat): Fs
    requires inode in fs.inodes
  {
    Set(fs, inode, fs.inodes[inode].(synced := true))
  }

  /** `renameat` within the directory: the new name stands for what the old one did, at once. */
  function Renamed(fs: Fs, from: string, target: string): Option<Fs> {
    if from !in fs.names then None else Some(fs.(names := (fs.names - {from})[target := fs.names[from]]))
  }

  function Unlinked(fs: Fs, name: string): Fs {
    fs.(names := fs.names - {name})
  }

  /** The bytes a reader of the name gets. */
  function Shown(fs: Fs, name: string): Option<Bytes> {
    if name in fs.names && fs.names[name].Regular? && fs.names[name].inode in fs.inodes
    then Some(fs.inodes[fs.names[name].inode].data) else None
  }

  /// One writer, call by call

  /** A directory whose n-th call fails for reasons outside this model. */
  class Directory {
    const fails: nat -> bool
    /** How much the n-th write takes at most. */
    const takes: nat -> nat
    var calls: nat
    var fs: Fs

    constructor (fails: nat -> bool, takes: nat -> nat, fs: Fs)
      ensures this.fails == fails && this.takes == takes && this.fs == fs
    {
      this.fails, this.takes, calls, this.fs := fails, takes, 0, fs;
    }

    ghost predicate Sound() {
      forall n :: !fails(n)
    }

    method Attempt() returns (ok: bool)
      modifies `calls
      ensures Sound() ==> ok
    {
      ok := !fails(calls);
      calls := calls + 1;
    }

    /** `write_all`: as many writes as it takes; a failing one may leave a part of the bytes. */
    method WriteAll(inode: nat, bytes: Bytes) returns (ok: bool)
      requires inode in fs.inodes && fs.inodes[inode].data == []
      modifies `calls, `fs
      ensures ok ==> fs == Set(old(fs), inode, old(fs).inodes[inode].(data := bytes, synced := bytes == [] && old(fs).inodes[inode].synced))
      ensures inode in fs.inodes && fs == Set(old(fs), inode, fs.inodes[inode]) && fs.inodes[inode].data <= bytes
      ensures Sound() ==> ok
    {
      var done := 0;
      assert fs == Set(fs, inode, fs.inodes[inode]);
      while done < |bytes|
        invariant done <= |bytes| && inode in fs.inodes
        invariant fs == Set(old(fs), inode, old(fs).inodes[inode].(data := bytes[..done], synced := done == 0 && old(fs).inodes[inode].synced))
      {
        ok := Attempt();
        if !ok {
          return;
        }
        var n := if 0 < takes(calls) <= |bytes| - done then takes(calls) else |bytes| - done;
        assert bytes[..done] + bytes[done..done + n] == bytes[..done + n];
        fs := Appended(fs, inode, bytes[done..done + n]);
        done := done + n;
      }
      assert bytes[..done] == bytes;
      ok := true;
    }

    /** `preserve_metadata`: the owner, when it is another one, and then the mode, which changing the owner may have cleared. */
    method PreserveMetadata(inode: nat, meta: Meta) returns (ok: bool)
      requires inode in fs.inodes
      modifies `calls, `fs
      ensures inode in fs.inodes && fs == Set(old(fs), inode, old(fs).inodes[inode].(meta := fs.inodes[inode].meta))
      ensures ok ==> fs.inodes[inode].meta == meta
      ensures Sound() ==> ok
    {
      assert fs == Set(fs, inode, fs.inodes[inode]);
      ok := Attempt();
      if !ok {
        return;
      }
      var current := fs.inodes[inode].meta;
      if current.uid != meta.uid || current.gid != meta.gid {
        ok := Attempt();
        if !ok {
          return;
        }
        fs := WithOwner(fs, inode, meta);
      }
      ok := Attempt();
      if ok {
        fs := WithMode(fs, inode, meta);
      }
    }

    /** The temporary file, up to its sync. */
    method FillTemp(tmp: string, bytes: Bytes, existing: Option<Meta>) returns (r: Result<(), WriteError>)
      requires WellFormed(fs)
      modifies `calls, `fs
      ensures WellFormed(fs)
      ensures r.Ok? ==> tmp !in old(fs).names && Filled(old(fs), fs, tmp, Inode(bytes, true, Or(existing, TEMP_META)))
      ensures r.Err? ==> fs == old(fs) || (tmp !in old(fs).names && exists i :: Filled(old(fs), fs, tmp, i))
      ensures r.Err? ==> r.error != ParentSyncFailed && r.error != NotRegular
      ensures Sound() ==> (r.Ok? <==> tmp !in old(fs).names)
    {
      var ok := Attempt();
      var created := Created(fs, tmp);
      if !ok || created.None? {
        return Err(CreateFailed);
      }
      var inode := fs.next;
      fs := created.value;
      ok := WriteAll(inode, bytes);
      assert Filled(old(fs), fs, tmp, fs.inodes[inode]);
      if !ok {
        return Err(TempWriteFailed);
      }
      if existing.Some? {
        ok := PreserveMetadata(inode, existing.value);
        assert Filled(old(fs), fs, tmp, fs.inodes[inode]);
        if !ok {
          return Err(MetadataFailed);
        }
      }
      ok := Attempt();
      assert Filled(old(fs), fs, tmp, fs.inodes[inode]);
      if !ok {
        return Err(TempSyncFailed);
      }
      fs := Synced(fs, inode);
      r := Ok(());
    }

    /** The closure of the function, up to and including the sync of the parent. */
    method Publish(target: string, tmp: string, bytes: Bytes, existing: Option<Meta>) returns (r: Result<(), WriteError>)
      requires tmp != target && WellFormed(fs)
      modifies `calls, `fs
      ensures WellFormed(fs)
      ensures r.Ok? || r == Err(ParentSyncFailed) ==> Published(old(fs), fs, target, tmp, bytes, existing)
      ensures Untouched(old(fs), fs, target, tmp)
      ensures r.Err? && r.error != ParentSyncFailed ==> Shown(fs, target) == Shown(old(fs), target)
      ensures Sound() ==> (r.Ok? <==> tmp !in old(fs).names)
    {
      r := FillTemp(tmp, bytes, existing);
      if r.Err? {
        return;
      }
      var ok := Attempt();
      var renamed := Renamed(fs, tmp, target);
      if !ok || renamed.None? {
        return Err(RenameFailed);
      }
      fs := renamed.value;
      ok := Attempt();
      if !ok {
        return Err(ParentSyncFailed);
      }
      r := Ok(());
    }

    /**
     `atomic_write_beneath` below an open parent. Success means the target holds the bytes, synced, with
     the metadata of the file it replaces; so does the one error after the rename. Any other error
     leaves what the target shows as it was.
     */
    method AtomicWriteBeneath(target: string, tmp: string, bytes: Bytes) returns (r: Result<(), WriteError>)
      requires tmp != target && WellFormed(fs)
      modifies `calls, `fs
      ensures WellFormed(fs)
      ensures Answered(old(fs), fs, target, tmp, bytes, r)
      ensures Untouched(old(fs), fs, target, tmp)
      ensures r.Ok? ==>
                && target in fs.names && fs.names[target].Regular? && fs.names[target].inode !in old(fs).inodes
                && fs.inodes[fs.names[target].inode].data == bytes && fs.inodes[fs.names[target].inode].synced
                && fs.inodes[fs.names[target].inode].meta
                   == if target in old(fs).names then old(fs).inodes[old(fs).names[target].inode].meta else Meta(0, 0, 0x180)
      ensures target in old(fs).names && old(fs).names[target].Other? ==> r.Err? && fs == old(fs)
      ensures Sound() ==> Smooth(old(fs), fs, target, tmp, r)
    {
      var ok := Attempt();
      if !ok {
        return Err(StatFailed);
      }
      var existing := Stat(fs, target);
      if existing.Err? {
        return Err(existing.error);
      }
      r := Publish(target, tmp, bytes, existing.value);
      if r.Err? {
        ok := Attempt();
        if ok {
          fs := Unlinked(fs, tmp);
        }
      }
    }
  }

  /** The target stands for a new inode with all the bytes, synced, and the temporary name is gone. */
  ghost predicate Published(fs: Fs, fs': Fs, target: string, tmp: string, bytes: Bytes, existing: Option<Meta>) {
    && fs'.names == (fs.names - {tmp})[target := Regular(fs.next)]
    && fs'.inodes == fs.inodes[fs.next := Inode(bytes, true, Or(existing, TEMP_META))]
  }

  /** No other name and no file that was there is any different. */
  ghost predicate Untouched(fs: Fs, fs': Fs, target: string, tmp: string) {
    && fs'.names - {target, tmp} == fs.names - {target, tmp}
    && forall i :: i in fs.inodes ==> i in fs'.inodes && fs'.inodes[i] == fs.inodes[i]
  }

  /** What an answer says of the target: published in full, or as it was. */
  ghost predicate Answered(fs: Fs, fs': Fs, target: string, tmp: string, bytes: Bytes, r: Result<(), WriteError>) {
    && (r.Ok? || r == Err(ParentSyncFailed) ==>
          && Stat(fs, target).Ok? && Shown(fs', target) == Some(bytes) && tmp !in fs'.names
          && var i := fs'.inodes[fs'.names[target].inode];
             i.synced && i.meta == Or(Stat(fs, target).value, TEMP_META))
    && (r.Err? && r.error != ParentSyncFailed ==> Shown(fs', target) == Shown(fs, target))
  }

  /** And when no call fails: the write succeeds unless a name is in its way, and cleans up after itself. */
  ghost predicate Smooth(fs: Fs, fs': Fs, target: string, tmp: string, r: Result<(), WriteError>) {
    && (r.Ok? <==> Stat(fs, target).Ok? && tmp !in fs.names)
    && (r.Err? && r.error != NotRegular ==> tmp !in fs'.names)
  }

  /** The temporary name stands for a new inode, and nothing else has changed. */
  ghost predicate Filled(fs: Fs, fs': Fs, tmp: string, i: Inode) {
    fs'.names == fs.names[tmp := Regular(fs.next)] && fs'.inodes == fs.inodes[fs.next := i] && fs'.next == fs.next + 1
  }
}
