/**
 Any number of atomic writes in one directory at once, each call of each writer a step that may also
 fail, and any writer stopping for good between two of them. Temporary names are distinct.
 */
module AtomicWriteRuns {
  import opened AtomicWrite
  import opened Runs
  import opened Wrappers

  /** The next call of a writer; `Cleaning` is the unlink after an error, and `Done` the answer. */
  datatype Stage =
    | Start
    | Creating
    | Writing(done: nat)
    | Owning
    | Permitting
    | Syncing
    | Renaming
    | SyncingParent
    | Cleaning(error: WriteError)
    | Done(r: Result<(), WriteError>)

  /** `inode` is the temporary file while there is one; `left` says that cleaning up failed. */
  datatype Writer = Writer(
    target: string, tmp: string, bytes: Bytes,
    stage: Stage, existing: Option<Meta>, inode: Option<nat>, published: Option<nat>, left: bool)

  datatype World = World(fs: Fs, writers: map<nat, Writer>)

  /** One call of a writer; `takes` is how much a write takes. */
  datatype Event = Call(writer: nat, takes: nat) | Fail(writer: nat)

  function Advance(fs: Fs, w: Writer, takes: nat): Option<(Fs, Writer)> {
    match w.stage
    case Start =>
      (match Stat(fs, w.target)
       case Ok(existing) => Some((fs, w.(stage := Creating, existing := existing)))
       case Err(e) => Some((fs, w.(stage := Done(Err(e))))))
    case Creating =>
      (match Created(fs, w.tmp)
       case Some(fs') => Some((fs', w.(stage := Writing(0), inode := Some(fs.next))))
       case None => Some((fs, w.(stage := Cleaning(CreateFailed)))))
    case Writing(done) =>
      if w.inode.None? || w.inode.value !in fs.inodes then None
      else if done < |w.bytes| then
        if 0 < takes <= |w.bytes| - done
        then Some((Appended(fs, w.inode.value, w.bytes[done..done + takes]), w.(stage := Writing(done + takes))))
        else None
      else Some((fs, w.(stage := if w.existing.Some? then Owning else Syncing)))
    case Owning =>
      if w.inode.None? || w.inode.value !in fs.inodes || w.existing.None? then None
      else Some((WithOwner(fs, w.inode.value, w.existing.value), w.(stage := Permitting)))
    case Permitting =>
      if w.inode.None? || w.inode.value !in fs.inodes || w.existing.None? then None
      else Some((WithMode(fs, w.inode.value, w.existing.value), w.(stage := Syncing)))
    case Syncing =>
      if w.inode.None? || w.inode.value !in fs.inodes then None
      else Some((Synced(fs, w.inode.value), w.(stage := Renaming)))
    case Renaming =>
      (match Renamed(fs, w.tmp, w.target)
       case Some(fs') => Some((fs', w.(stage := SyncingParent, inode := None, published := w.inode)))
       case None => Some((fs, w.(stage := Cleaning(RenameFailed)))))
    case SyncingParent => Some((fs, w.(stage := Done(Ok(())))))
    case Cleaning(e) => Some((Unlinked(fs, w.tmp), w.(stage := Done(Err(e)), inode := None)))
    case Done(_) => None
  }

  /** The error a failing call makes. */
  function Failed(w: Writer): Option<Writer> {
    match w.stage
    case Start => Some(w.(stage := Done(Err(StatFailed))))
    case Creating => Some(w.(stage := Cleaning(CreateFailed)))
    case Writing(_) => Some(w.(stage := Cleaning(TempWriteFailed)))
    case Owning => Some(w.(stage := Cleaning(MetadataFailed)))
    case Permitting => Some(w.(stage := Cleaning(MetadataFailed)))
    case Syncing => Some(w.(stage := Cleaning(TempSyncFailed)))
    case Renaming => Some(w.(stage := Cleaning(RenameFailed)))
    case SyncingParent => Some(w.(stage := Cleaning(ParentSyncFailed)))
    case Cleaning(e) => Some(w.(stage := Done(Err(e)), left := true))
    case Done(_) => None
  }

  function Step(w: World, e: Event): Option<World> {
    if e.writer !in w.writers then None
    else
      match e
      case Call(id, takes) =>
        (match Advance(w.fs, w.writers[id], takes)
         case None => None
         case Some(r) => Some(World(r.0, w.writers[id := r.1])))
      case Fail(id) =>
        (match Failed(w.writers[id])
         case None => None
         case Some(writer) => Some(w.(writers := w.writers[id := writer])))
  }

  /// What every step keeps

  predicate IsFresh(w: Writer) {
    w.stage == Start && w.inode.None? && w.published.None? && !w.left
  }

  /** No temporary name is another writer's, or a target. */
  ghost predicate Apart(writers: map<nat, Writer>) {
    && (forall a, b :: a in writers && b in writers && a != b ==> writers[a].tmp != writers[b].tmp)
    && (forall a, b :: a in writers && b in writers ==> writers[a].tmp != writers[b].target)
  }

  ghost predicate Begins(w: World) {
    && WellFormed(w.fs) && Apart(w.writers)
    && (forall a :: a in w.writers ==> IsFresh(w.writers[a]))
  }

  predicate HasTemp(s: Stage) {
    s.Writing? || s.Owning? || s.Permitting? || s.Syncing? || s.Renaming?
  }

  predicate IsLate(s: Stage) {
    s == SyncingParent || s == Cleaning(ParentSyncFailed) || s == Done(Ok(())) || s == Done(Err(ParentSyncFailed))
  }

  /** A writer's temporary file is its own, and holds what it has written so far. */
  ghost predicate TempFits(fs0: Fs, fs: Fs, w: Writer) {
    && (HasTemp(w.stage) ==> w.inode.Some?)
    && (w.inode.Some? ==> HasTemp(w.stage) || w.stage.Cleaning? || w.left)
    && (w.inode.Some? ==>
          && w.tmp in fs.names && fs.names[w.tmp] == Regular(w.inode.value)
          && w.inode.value in fs.inodes && w.inode.value >= fs0.next
          && (forall n :: n in fs.names && fs.names[n] == Regular(w.inode.value) ==> n == w.tmp)
          && var i := fs.inodes[w.inode.value];
             && (w.stage.Writing? ==> w.stage.done <= |w.bytes| && i.data == w.bytes[..w.stage.done])
             && (w.stage.Writing? ==> i.meta == TEMP_META)
             && (w.stage.Owning? ==> i.data == w.bytes && w.existing.Some?)
             && (w.stage.Permitting? ==>
                   i.data == w.bytes && w.existing.Some? && i.meta == Meta(w.existing.value.uid, w.existing.value.gid, i.meta.mode))
             && (w.stage.Syncing? ==> i.data == w.bytes && i.meta == Or(w.existing, TEMP_META))
             && (w.stage.Renaming? ==> i == Inode(w.bytes, true, Or(w.existing, TEMP_META))))
  }

  /** A published file is whole, synced, has its metadata, and stays so. */
  ghost predicate PublishedFits(fs0: Fs, fs: Fs, w: Writer) {
    && (w.published.Some? <==> IsLate(w.stage))
    && (w.published.Some? ==>
          && w.inode.None? && w.published.value in fs.inodes && w.published.value >= fs0.next
          && fs.inodes[w.published.value] == Inode(w.bytes, true, Or(w.existing, TEMP_META)))
  }

  /** The answers, and what they say of the temporary name. */
  ghost predicate DoneFits(fs: Fs, w: Writer) {
    && (w.left ==> w.stage.Done?)
    && (w.stage.Done? && w.inode.None? && w.stage != Done(Err(StatFailed)) && w.stage != Done(Err(NotRegular)) && !w.left ==>
          w.tmp !in fs.names)
    && (w.stage == SyncingParent || w.stage == Cleaning(ParentSyncFailed) ==> w.tmp !in fs.names)
  }

  /** A target is what it was, or what some writer for it has published. */
  ghost predicate TargetFits(fs0: Fs, w: World, t: string) {
    || Names(fs0, t) == Names(w.fs, t)
    || (exists a :: a in w.writers && PublishedAt(w, a, t))
  }

  predicate PublishedAt(w: World, a: nat, t: string)
    requires a in w.writers
  {
    w.writers[a].target == t && w.writers[a].published.Some? && Names(w.fs, t) == Some(Regular(w.writers[a].published.value))
  }

  function Names(fs: Fs, n: string): Option<Entry> {
    if n in fs.names then Some(fs.names[n]) else None
  }

  predicate IsTemp(writers: map<nat, Writer>, n: string) {
    exists a | a in writers :: writers[a].tmp == n
  }

  /** No writer's temporary file is another's published one. */
  ghost predicate InodesApart(writers: map<nat, Writer>) {
    forall a, b :: a in writers && b in writers && a != b && writers[a].inode.Some? ==> writers[a].inode != writers[b].published
  }

  ghost predicate WriterFits(fs0: Fs, fs: Fs, w: Writer) {
    TempFits(fs0, fs, w) && PublishedFits(fs0, fs, w) && DoneFits(fs, w)
  }

  ghost predicate Good(fs0: Fs, w: World) {
    && WellFormed(w.fs) && Apart(w.writers) && InodesApart(w.writers)
    && fs0.next <= w.fs.next
    && (forall i :: i in fs0.inodes ==> i < fs0.next && i in w.fs.inodes && w.fs.inodes[i] == fs0.inodes[i])
    && (forall a :: a in w.writers ==> WriterFits(fs0, w.fs, w.writers[a]))
    && (forall t :: !IsTemp(w.writers, t) ==> TargetFits(fs0, w, t))
  }

  /// One call at a time

  /** All a call may change: this inode, and these names. */
  ghost predicate Touches(fs: Fs, fs': Fs, inode: nat, names: set<string>) {
    && (forall n :: n !in names ==> Names(fs', n) == Names(fs, n))
    && (forall i :: i in fs.inodes && i != inode ==> i in fs'.inodes && fs'.inodes[i] == fs.inodes[i])
  }

  /** A writer that the call does not touch. */
  lemma OtherFits(fs0: Fs, fs: Fs, fs': Fs, inode: nat, names: set<string>, w: Writer)
    requires WriterFits(fs0, fs, w) && Touches(fs, fs', inode, names)
    requires w.tmp !in names && w.inode != Some(inode) && w.published != Some(inode)
    requires w.inode.Some? ==> forall n :: n in names && n in fs'.names ==> fs'.names[n] != Regular(w.inode.value)
    ensures WriterFits(fs0, fs', w)
  {
    assert Names(fs', w.tmp) == Names(fs, w.tmp);
    if w.inode.Some? {
      forall n | n in fs'.names && fs'.names[n] == Regular(w.inode.value)
        ensures n == w.tmp
      {
        assert n !in names;
        assert Names(fs', n) == Names(fs, n);
      }
    }
  }

  /** The writer's own part of a step: it keeps what it is, and what it has published. */
  predicate SameWriter(w: Writer, w': Writer) {
    && w'.target == w.target && w'.tmp == w.tmp && w'.bytes == w.bytes
    && (w.published.Some? ==> w'.published == w.published)
  }

  /** A step of one writer that leaves its target alone. */
  lemma QuietStep(fs0: Fs, w: World, id: nat, fs': Fs, me: Writer, inode: nat)
    requires Good(fs0, w) && id in w.writers && SameWriter(w.writers[id], me)
    requires WellFormed(fs') && w.fs.next <= fs'.next && WriterFits(fs0, fs', me)
    requires Touches(w.fs, fs', inode, {me.tmp})
    requires inode >= fs0.next && forall b :: b in w.writers && b != id ==> w.writers[b].inode != Some(inode) && w.writers[b].published != Some(inode)
    requires me.tmp in fs'.names ==> Names(fs', me.tmp) == Names(w.fs, me.tmp) || fs'.names[me.tmp] == Regular(inode)
    requires me.inode.Some? ==> forall b :: b in w.writers && b != id ==> w.writers[b].published != me.inode
    requires me.published == w.writers[id].published
    ensures Good(fs0, World(fs', w.writers[id := me]))
  {
    var w' := World(fs', w.writers[id := me]);
    forall a | a in w'.writers
      ensures WriterFits(fs0, fs', w'.writers[a])
    {
      if a != id {
        assert w.writers[a].tmp != me.tmp;
        OtherFits(fs0, w.fs, fs', inode, {me.tmp}, w.writers[a]);
      }
    }
    forall t | !IsTemp(w'.writers, t)
      ensures TargetFits(fs0, w', t)
    {
      TempsSame(w.writers, id, me, t);
      if Names(fs0, t) != Names(w.fs, t) {
        var a :| a in w.writers && PublishedAt(w, a, t);
        assert PublishedAt(w', a, t);
      }
    }
    QuietApart(w.writers, id, me);
  }

  lemma QuietApart(writers: map<nat, Writer>, id: nat, me: Writer)
    requires id in writers && SameWriter(writers[id], me) && Apart(writers) && InodesApart(writers)
    requires me.published == writers[id].published
    requires me.inode.Some? ==> forall b :: b in writers && b != id ==> writers[b].published != me.inode
    ensures Apart(writers[id := me]) && InodesApart(writers[id := me])
  {
  }

  lemma TempsSame(writers: map<nat, Writer>, id: nat, me: Writer, n: string)
    requires id in writers && me.tmp == writers[id].tmp
    ensures IsTemp(writers[id := me], n) <==> IsTemp(writers, n)
    ensures n == me.tmp ==> IsTemp(writers, n)
  {
    var w' := writers[id := me];
    if IsTemp(writers, n) {
      var a :| a in writers && writers[a].tmp == n;
      assert w'[a].tmp == n;
    }
    if IsTemp(w', n) {
      var a :| a in w' && w'[a].tmp == n;
      assert writers[a].tmp == n;
    }
  }

  /** Inode numbers from `next` on are no writer's. */
  lemma NextIsFree(fs0: Fs, w: World, b: nat)
    requires Good(fs0, w) && b in w.writers
    ensures w.writers[b].inode != Some(w.fs.next) && w.writers[b].published != Some(w.fs.next)
  {
    assert WriterFits(fs0, w.fs, w.writers[b]);
  }

  /** The writer's temporary file is no other writer's file. */
  lemma InodeIsOwn(fs0: Fs, w: World, id: nat, b: nat)
    requires Good(fs0, w) && id in w.writers && b in w.writers && b != id && w.writers[id].inode.Some?
    ensures w.writers[b].inode != w.writers[id].inode && w.writers[b].published != w.writers[id].inode
  {
    assert WriterFits(fs0, w.fs, w.writers[id]) && WriterFits(fs0, w.fs, w.writers[b]);
  }

  /** A step that changes nothing but the writer. */
  lemma StillStep(fs0: Fs, w: World, id: nat, me: Writer)
    requires Good(fs0, w) && id in w.writers && SameWriter(w.writers[id], me) && WriterFits(fs0, w.fs, me)
    requires me.published == w.writers[id].published && me.inode == w.writers[id].inode
    ensures Good(fs0, World(w.fs, w.writers[id := me]))
  {
    forall b | b in w.writers {
      NextIsFree(fs0, w, b);
    }
    if me.inode.Some? {
      forall b | b in w.writers && b != id {
        InodeIsOwn(fs0, w, id, b);
      }
    }
    QuietStep(fs0, w, id, w.fs, me, w.fs.next);
  }

  /** A step that changes the writer's temporary file. */
  lemma FileStep(fs0: Fs, w: World, id: nat, fs': Fs, me: Writer)
    requires Good(fs0, w) && id in w.writers && SameWriter(w.writers[id], me) && w.writers[id].inode.Some?
    requires var i := w.writers[id].inode.value;
             i in w.fs.inodes && i in fs'.inodes && fs' == Set(w.fs, i, fs'.inodes[i])
    requires WriterFits(fs0, fs', me) && me.published == w.writers[id].published && me.inode == w.writers[id].inode
    ensures Good(fs0, World(fs', w.writers[id := me]))
  {
    var i := me.inode.value;
    assert WriterFits(fs0, w.fs, w.writers[id]);
    forall b | b in w.writers && b != id {
      InodeIsOwn(fs0, w, id, b);
    }
    QuietStep(fs0, w, id, fs', me, i);
  }

  lemma CreateStep(fs0: Fs, w: World, id: nat, takes: nat)
    requires Good(fs0, w) && id in w.writers && w.writers[id].stage == Creating
    ensures Step(w, Call(id, takes)).Some? && Good(fs0, Step(w, Call(id, takes)).value)
  {
    var me := w.writers[id];
    assert WriterFits(fs0, w.fs, me);
    if me.tmp in w.fs.names {
      StillStep(fs0, w, id, me.(stage := Cleaning(CreateFailed)));
    } else {
      var fs' := Created(w.fs, me.tmp).value;
      forall b | b in w.writers {
        NextIsFree(fs0, w, b);
      }
      QuietStep(fs0, w, id, fs', me.(stage := Writing(0), inode := Some(w.fs.next)), w.fs.next);
    }
  }

  lemma NextChunk(bytes: Bytes, done: nat, takes: nat)
    requires done + takes <= |bytes|
    ensures bytes[..done] + bytes[done..done + takes] == bytes[..done + takes]
  {
  }

  lemma AppendFits(fs0: Fs, fs: Fs, me: Writer, takes: nat)
    requires WriterFits(fs0, fs, me) && me.stage.Writing? && me.stage.done + takes <= |me.bytes|
    ensures var done := me.stage.done;
            WriterFits(fs0, Appended(fs, me.inode.value, me.bytes[done..done + takes]), me.(stage := Writing(done + takes)))
  {
    NextChunk(me.bytes, me.stage.done, takes);
  }

  lemma WrittenFits(fs0: Fs, fs: Fs, me: Writer)
    requires WriterFits(fs0, fs, me) && me.stage == Writing(|me.bytes|)
    ensures WriterFits(fs0, fs, me.(stage := if me.existing.Some? then Owning else Syncing))
  {
    assert me.bytes[..|me.bytes|] == me.bytes;
  }

  lemma WriteStep(fs0: Fs, w: World, id: nat, takes: nat, w': World)
    requires Good(fs0, w) && id in w.writers && w.writers[id].stage.Writing? && Step(w, Call(id, takes)) == Some(w')
    ensures Good(fs0, w')
  {
    hide WellFormed, Apart, InodesApart, TargetFits;
    var me := w.writers[id];
    var done := me.stage.done;
    assert WriterFits(fs0, w.fs, me);
    if done < |me.bytes| {
      AppendFits(fs0, w.fs, me, takes);
      FileStep(fs0, w, id, Appended(w.fs, me.inode.value, me.bytes[done..done + takes]), me.(stage := Writing(done + takes)));
    } else {
      WrittenFits(fs0, w.fs, me);
      StillStep(fs0, w, id, me.(stage := if me.existing.Some? then Owning else Syncing));
    }
  }

  lemma SettleStep(fs0: Fs, w: World, id: nat, takes: nat, w': World)
    requires Good(fs0, w) && id in w.writers && (w.writers[id].stage.Owning? || w.writers[id].stage.Permitting? || w.writers[id].stage.Syncing?)
    requires Step(w, Call(id, takes)) == Some(w')
    ensures Good(fs0, w')
  {
    var me := w.writers[id];
    assert WriterFits(fs0, w.fs, me);
    SettleFits(fs0, w.fs, me, takes);
    var r := Advance(w.fs, me, takes).value;
    FileStep(fs0, w, id, r.0, r.1);
  }

  lemma SettleFits(fs0: Fs, fs: Fs, me: Writer, takes: nat)
    requires WriterFits(fs0, fs, me) && (me.stage.Owning? || me.stage.Permitting? || me.stage.Syncing?) && Advance(fs, me, takes).Some?
    ensures var r := Advance(fs, me, takes).value;
            && WriterFits(fs0, r.0, r.1) && r.1 == me.(stage := r.1.stage)
            && me.inode.Some? && me.inode.value in fs.inodes && me.inode.value in r.0.inodes
            && r.0 == Set(fs, me.inode.value, r.0.inodes[me.inode.value])
  {
  }

  lemma EdgeStep(fs0: Fs, w: World, id: nat, takes: nat, w': World)
    requires Good(fs0, w) && id in w.writers && (w.writers[id].stage.Start? || w.writers[id].stage.SyncingParent?)
    requires Step(w, Call(id, takes)) == Some(w')
    ensures Good(fs0, w')
  {
    assert WriterFits(fs0, w.fs, w.writers[id]);
    StillStep(fs0, w, id, w'.writers[id]);
  }

  lemma FailedFits(fs0: Fs, fs: Fs, me: Writer)
    requires WriterFits(fs0, fs, me) && Failed(me).Some?
    ensures WriterFits(fs0, fs, Failed(me).value)
  {
  }

  lemma FailStep(fs0: Fs, w: World, id: nat, w': World)
    requires Good(fs0, w) && id in w.writers && Step(w, Fail(id)) == Some(w')
    ensures Good(fs0, w')
  {
    assert WriterFits(fs0, w.fs, w.writers[id]);
    FailedFits(fs0, w.fs, w.writers[id]);
    StillStep(fs0, w, id, w'.writers[id]);
  }

  lemma RenameOthers(fs0: Fs, w: World, id: nat, a: nat)
    requires Good(fs0, w) && id in w.writers && a in w.writers && a != id && w.writers[id].stage == Renaming
    requires w.writers[id].inode.Some?
    ensures var me := w.writers[id];
            me.tmp in w.fs.names && WriterFits(fs0, Renamed(w.fs, me.tmp, me.target).value, w.writers[a])
  {
    var me := w.writers[id];
    assert WriterFits(fs0, w.fs, me);
    InodeIsOwn(fs0, w, id, a);
    NextIsFree(fs0, w, a);
    OtherFits(fs0, w.fs, Renamed(w.fs, me.tmp, me.target).value, w.fs.next, {me.tmp, me.target}, w.writers[a]);
  }

  lemma RenameStep(fs0: Fs, w: World, id: nat, takes: nat, w': World)
    requires Good(fs0, w) && id in w.writers && w.writers[id].stage == Renaming && Step(w, Call(id, takes)) == Some(w')
    ensures Good(fs0, w')
  {
    var me := w.writers[id];
    assert WriterFits(fs0, w.fs, me);
    var me' := w'.writers[id];
    assert w' == World(Renamed(w.fs, me.tmp, me.target).value, w.writers[id := me']);
    assert me' == me.(stage := SyncingParent, inode := None, published := me.inode);
    assert WriterFits(fs0, w'.fs, me');
    forall a | a in w'.writers && a != id
      ensures WriterFits(fs0, w'.fs, w'.writers[a]) && w'.writers[a].inode != me.inode
    {
      RenameOthers(fs0, w, id, a);
      InodeIsOwn(fs0, w, id, a);
    }
    forall t | !IsTemp(w'.writers, t)
      ensures TargetFits(fs0, w', t)
    {
      TempsSame(w.writers, id, me', t);
      RenamedTarget(fs0, w, id, w', t);
    }
  }

  lemma RenamedTarget(fs0: Fs, w: World, id: nat, w': World, t: string)
    requires id in w.writers && t != w.writers[id].tmp && w.writers[id].tmp in w.fs.names && TargetFits(fs0, w, t)
    requires var me := w.writers[id];
             && me.inode.Some? && me.published.None? && w.fs.names[me.tmp] == Regular(me.inode.value)
             && w'.fs == Renamed(w.fs, me.tmp, me.target).value
             && w'.writers == w.writers[id := me.(stage := SyncingParent, inode := None, published := me.inode)]
    ensures TargetFits(fs0, w', t)
  {
    if t == w.writers[id].target {
      assert PublishedAt(w', id, t);
    } else {
      assert Names(w'.fs, t) == Names(w.fs, t);
      if Names(fs0, t) != Names(w.fs, t) {
        var a :| a in w.writers && PublishedAt(w, a, t);
        assert PublishedAt(w', a, t);
      }
    }
  }

  lemma GoodStep(fs0: Fs, w: World, e: Event, w': World)
    requires Good(fs0, w) && Step(w, e) == Some(w')
    ensures Good(fs0, w')
  {
    match e
    case Fail(id) => FailStep(fs0, w, id, w');
    case Call(id, takes) =>
      match w.writers[id].stage
      case Start => EdgeStep(fs0, w, id, takes, w');
      case Creating => CreateStep(fs0, w, id, takes);
      case Writing(_) => WriteStep(fs0, w, id, takes, w');
      case Owning => SettleStep(fs0, w, id, takes, w');
      case Permitting => SettleStep(fs0, w, id, takes, w');
      case Syncing => SettleStep(fs0, w, id, takes, w');
      case Renaming => RenameStep(fs0, w, id, takes, w');
      case SyncingParent => EdgeStep(fs0, w, id, takes, w');
      case Cleaning(_) =>
        assert var me := w.writers[id];
            Good(fs0, World(Unlinked(w.fs, me.tmp), w.writers[id := me.(stage := Done(Err(me.stage.error)), inode := None)])) by {
          var me := w.writers[id];
          assert WriterFits(fs0, w.fs, me);
          forall b | b in w.writers {
            NextIsFree(fs0, w, b);
          }
          QuietStep(fs0, w, id, Unlinked(w.fs, me.tmp), me.(stage := Done(Err(me.stage.error)), inode := None), w.fs.next);
        }
  }

  lemma {:induction false} GoodAlways(start: World, es: seq<Event>, w: World)
    requires Begins(start) && After(start, Step, es) == Some(w)
    ensures Good(start.fs, w)
  {
    if es != [] {
      var w0, e := Before(start, Step, es, w);
      GoodAlways(start, es[..|es| - 1], w0);
      GoodStep(start.fs, w0, e, w);
    }
  }

  /// What that means

  /**
   At every step, with any of the writers failed or stopped anywhere, a target shows what it showed at
   first or all the bytes of one writer for it. What it stands for is synced, or is the file it stood
   for at first, untouched. A temporary name is no target.
   */
  lemma TargetIsWhole(start: World, es: seq<Event>, w: World, t: string)
    requires Begins(start) && After(start, Step, es) == Some(w) && !IsTemp(w.writers, t)
    ensures || Shown(w.fs, t) == Shown(start.fs, t)
            || exists a :: a in w.writers && w.writers[a].target == t && w.writers[a].published.Some?
                           && Shown(w.fs, t) == Some(w.writers[a].bytes)
    ensures t in w.fs.names && w.fs.names[t].Regular? ==>
              && var i := w.fs.names[t].inode;
              && i in w.fs.inodes
              && (w.fs.inodes[i].synced
                  || (Names(start.fs, t) == Names(w.fs, t) && i in start.fs.inodes && w.fs.inodes[i] == start.fs.inodes[i]))
  {
    GoodAlways(start, es, w);
    assert TargetFits(start.fs, w, t);
    if Names(start.fs, t) != Names(w.fs, t) {
      var a :| a in w.writers && PublishedAt(w, a, t);
      assert WriterFits(start.fs, w.fs, w.writers[a]);
      assert Shown(w.fs, t) == Some(w.writers[a].bytes);
    }
  }

  /**
   A writer's answer: success, and only the failed sync of the parent among the errors, comes after its
   file was published; any other error leaves its bytes unpublished, and no temporary file of its own
   unless the unlink failed too.
   */
  lemma AnswersTellPublication(start: World, es: seq<Event>, w: World, id: nat)
    requires Begins(start) && After(start, Step, es) == Some(w) && id in w.writers && w.writers[id].stage.Done?
    ensures var r := w.writers[id].stage.r;
            && (w.writers[id].published.Some? <==> r == Ok(()) || r == Err(ParentSyncFailed))
            && (w.writers[id].inode.Some? ==> w.writers[id].left && w.writers[id].published.None?)
            && (r.Err? && r != Err(StatFailed) && r != Err(NotRegular) && !w.writers[id].left ==> w.writers[id].tmp !in w.fs.names)
  {
    GoodAlways(start, es, w);
    assert WriterFits(start.fs, w.fs, w.writers[id]);
  }

  /**
   What was once published stays whole and synced, named or not, with the metadata its writer read at
   its start; another writer may have replaced that file since.
   */
  lemma PublishedStaysWhole(start: World, es: seq<Event>, w: World, id: nat)
    requires Begins(start) && After(start, Step, es) == Some(w) && id in w.writers && w.writers[id].published.Some?
    ensures var i := w.writers[id].published.value;
            i in w.fs.inodes && w.fs.inodes[i] == Inode(w.writers[id].bytes, true, Or(w.writers[id].existing, TEMP_META))
  {
    GoodAlways(start, es, w);
    assert WriterFits(start.fs, w.fs, w.writers[id]);
  }

  /// One writer alone

  /** A writer before its first call. */
  function NewWriter(target: string, tmp: string, bytes: Bytes): Writer {
    Writer(target, tmp, bytes, Start, None, None, None, false)
  }

  /** The temporary file stands for this, and nothing else has changed. */
  ghost predicate Holds(fs0: Fs, fs: Fs, me: Writer, i: Inode) {
    me.tmp !in fs0.names && me.inode == Some(fs0.next) && Filled(fs0, fs, me.tmp, i)
  }

  /** The directory at each of the writer's calls, when it began as `fs0`; `smooth` says that none has failed. */
  ghost predicate AloneFits(fs0: Fs, fs: Fs, me: Writer, smooth: bool) {
    && WellFormed(fs)
    && (!me.stage.Start? && !me.stage.Done? ==> Stat(fs0, me.target) == Ok(me.existing))
    && match me.stage
       case Start => fs == fs0
       case Creating => fs == fs0
       case Writing(done) => done <= |me.bytes| && Holds(fs0, fs, me, Inode(me.bytes[..done], false, TEMP_META))
       case Owning => me.existing.Some? && Holds(fs0, fs, me, Inode(me.bytes, false, TEMP_META))
       case Permitting =>
         me.existing.Some?
         && Holds(fs0, fs, me, Inode(me.bytes, false, Meta(me.existing.value.uid, me.existing.value.gid, TEMP_META.mode)))
       case Syncing => Holds(fs0, fs, me, Inode(me.bytes, false, Or(me.existing, TEMP_META)))
       case Renaming => Holds(fs0, fs, me, Inode(me.bytes, true, Or(me.existing, TEMP_META)))
       case SyncingParent => me.tmp !in fs0.names && Published(fs0, fs, me.target, me.tmp, me.bytes, me.existing)
       case Cleaning(e) => CleaningFits(fs0, fs, me, e) && (smooth ==> me.tmp in fs0.names)
       case Done(r) => Answered(fs0, fs, me.target, me.tmp, me.bytes, r) && (smooth ==> Smooth(fs0, fs, me.target, me.tmp, r))
  }

  /** An error on its way to the answer. */
  ghost predicate CleaningFits(fs0: Fs, fs: Fs, me: Writer, e: WriteError) {
    if e == ParentSyncFailed then me.tmp !in fs0.names && Published(fs0, fs, me.target, me.tmp, me.bytes, me.existing)
    else e != NotRegular && Shown(fs, me.target) == Shown(fs0, me.target)
  }

  lemma AloneEdge(fs0: Fs, fs: Fs, me: Writer, takes: nat, smooth: bool)
    requires AloneFits(fs0, fs, me, smooth) && me.tmp != me.target && WellFormed(fs0)
    requires (me.stage.Start? || me.stage.Creating? || me.stage.Renaming?) && Advance(fs, me, takes).Some?
    ensures var r := Advance(fs, me, takes).value; AloneFits(fs0, r.0, r.1, smooth)
  {
  }

  lemma AloneFill(fs0: Fs, fs: Fs, me: Writer, takes: nat, smooth: bool)
    requires AloneFits(fs0, fs, me, smooth) && me.tmp != me.target && WellFormed(fs0)
    requires (me.stage.Writing? || me.stage.Owning? || me.stage.Permitting? || me.stage.Syncing?) && Advance(fs, me, takes).Some?
    ensures var r := Advance(fs, me, takes).value; AloneFits(fs0, r.0, r.1, smooth)
  {
    if me.stage.Writing? {
      var done := me.stage.done;
      if done < |me.bytes| {
        NextChunk(me.bytes, done, takes);
      } else {
        assert me.bytes[..done] == me.bytes;
      }
    }
  }

  lemma AloneEnd(fs0: Fs, fs: Fs, me: Writer, takes: nat, smooth: bool)
    requires AloneFits(fs0, fs, me, smooth) && me.tmp != me.target && WellFormed(fs0)
    requires (me.stage.SyncingParent? || me.stage.Cleaning?) && Advance(fs, me, takes).Some?
    ensures var r := Advance(fs, me, takes).value; AloneFits(fs0, r.0, r.1, smooth)
  {
  }

  lemma AloneFails(fs0: Fs, fs: Fs, me: Writer)
    requires AloneFits(fs0, fs, me, false) && me.tmp != me.target && WellFormed(fs0) && Failed(me).Some?
    ensures AloneFits(fs0, fs, Failed(me).value, false)
  {
  }

  lemma AloneAdvances(fs0: Fs, fs: Fs, me: Writer, takes: nat, smooth: bool)
    requires AloneFits(fs0, fs, me, smooth) && me.tmp != me.target && WellFormed(fs0) && Advance(fs, me, takes).Some?
    ensures var r := Advance(fs, me, takes).value; AloneFits(fs0, r.0, r.1, smooth)
  {
    match me.stage
    case Start => AloneEdge(fs0, fs, me, takes, smooth);
    case Creating => AloneEdge(fs0, fs, me, takes, smooth);
    case Renaming => AloneEdge(fs0, fs, me, takes, smooth);
    case SyncingParent => AloneEnd(fs0, fs, me, takes, smooth);
    case Cleaning(_) => AloneEnd(fs0, fs, me, takes, smooth);
    case _ => AloneFill(fs0, fs, me, takes, smooth);
  }

  /** The world is this one writer. */
  ghost predicate IsAlone(w: World, id: nat, target: string, tmp: string, bytes: Bytes) {
    && w.writers.Keys == {id}
    && var me := w.writers[id];
    && me.target == target && me.tmp == tmp && me.bytes == bytes
  }

  lemma {:induction false} AloneRun(fs: Fs, id: nat, target: string, tmp: string, bytes: Bytes, es: seq<Event>, w: World, smooth: bool)
    requires WellFormed(fs) && tmp != target && After(World(fs, map[id := NewWriter(target, tmp, bytes)]), Step, es) == Some(w)
    requires smooth ==> forall e :: e in es ==> e.Call?
    ensures IsAlone(w, id, target, tmp, bytes) && AloneFits(fs, w.fs, w.writers[id], smooth)
  {
    if es != [] {
      var w0, e := Before(World(fs, map[id := NewWriter(target, tmp, bytes)]), Step, es, w);
      AloneRun(fs, id, target, tmp, bytes, es[..|es| - 1], w0, smooth);
      var me := w0.writers[id];
      match e
      case Call(_, takes) => AloneAdvances(fs, w0.fs, me, takes, smooth);
      case Fail(_) => AloneFails(fs, w0.fs, me);
    }
  }

  /** The steps are those of the method: one writer alone, run to its end, has what the method promises. */
  lemma AloneAsTheMethod(fs: Fs, id: nat, target: string, tmp: string, bytes: Bytes, es: seq<Event>, w: World)
    requires WellFormed(fs) && tmp != target && After(World(fs, map[id := NewWriter(target, tmp, bytes)]), Step, es) == Some(w)
    requires id in w.writers && w.writers[id].stage.Done?
    ensures WellFormed(w.fs) && Answered(fs, w.fs, target, tmp, bytes, w.writers[id].stage.r)
    ensures (forall e :: e in es ==> e.Call?) ==> Smooth(fs, w.fs, target, tmp, w.writers[id].stage.r)
  {
    AloneRun(fs, id, target, tmp, bytes, es, w, false);
    if forall e :: e in es ==> e.Call? {
      AloneRun(fs, id, target, tmp, bytes, es, w, true);
    }
  }
}
