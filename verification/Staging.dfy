/** The mounted file system: writable files are edited in local staging, published on Sync,
    Close or a path lookup, and preserved for recovery when publishing fails. */
module Staging {
  import opened Wrappers
  import opened Paths
  import opened Errors
  import opened RecoveryStore
  import opened QuotaRuns
  import opened Uploads
  import opened CachedBackend

  const UPLOAD_FAILED := "upload_failed"
  const FORCE_DISCONNECT := "force_disconnect"

  /** The server's name for the file that a cleaned mount path denotes. */
  function Key(name: string): string {
    if name == "." then "/" else "/" + name
  }

  lemma Extends(local: Bytes, offset: nat, buffer: Bytes, written: nat)
    requires offset + |buffer| <= |local| && buffer == local[offset..offset + |buffer|] && written <= |buffer|
    ensures local[..offset] + buffer[..written] == local[..offset + written]
    ensures Overwrite(local[..offset], buffer[..written], offset) == local[..offset + written]
  {
    var piece := local[offset..offset + written];
    assert |buffer[..written]| == |piece| && forall k :: 0 <= k < written ==> buffer[..written][k] == piece[k];
    assert buffer[..written] == piece;
    assert local[..offset + written] == local[..offset] + piece;
  }

  /** The copy loop of upload: chunk by chunk until the end or the first failure. */
  method Fill(writer: MetadataWrite, local: Bytes) returns (ok: bool)
    requires writer.backend.Valid() && writer.Belongs()
    requires !writer.handle.closed && writer.handle.dirty && writer.handle.content == [] && !writer.handle.append
    modifies writer.backend.cache, writer.handle`content, writer.handle`dirty
    ensures writer.backend.Valid() && writer.handle.dirty
    ensures ok ==> writer.handle.content == local
    ensures writer.handle.content <= local
  {
    var size, offset, failed := |local|, 0, false;
    while offset < size && !failed
      invariant 0 <= offset <= size && writer.backend.Valid() && writer.handle.dirty
      invariant !failed ==> writer.handle.content == local[..offset]
      invariant writer.handle.content <= local
      decreases size - offset, !failed
    {
      var want := if size - offset < CHUNK then size - offset else CHUNK;
      var buffer, error := ReadAt(local, want, offset);
      if error == OtherError {
        failed := true;
      } else {
        var written, wrote := writer.WriteAt(buffer, offset);
        Extends(local, offset, buffer, written);
        if wrote {
          offset := offset + written;
        } else {
          failed := true;
        }
      }
    }
    ok := !failed;
    assert local[..size] == local;
  }

  /** upload: on success the server holds exactly the local bytes; a failure leaves what
      `trail` says, some beginning of them at most. */
  method Upload(backend: Backend, name: string, local: Bytes) returns (ok: bool, ghost trail: Trail)
    requires backend.Valid() && IsMountName(name)
    modifies backend.cache, backend.server
    ensures backend.Valid()
    ensures AgreeExcept(old(backend.server.View()), backend.server.View(), Key(name))
    ensures ok ==> trail == Opened(local, true, true)
    ensures ok ==> backend.server.files == old(backend.server.files)[Key(name) := local]
    ensures trail.Opened? ==> trail.sent <= local
    ensures Followed(old(backend.server.files), backend.server.files, Key(name), trail)
    ensures Torn(old(backend.server.files), backend.server.files, Key(name), local)
  {
    var writer := backend.OpenWrite(name, true, true, false);
    if writer == null {
      return false, NotOpened;
    }
    ok := Fill(writer, local);
    ghost var sent := writer.handle.content;
    if ok {
      ok := writer.Sync();
    }
    ghost var mid, synced := backend.server.files, ok;
    var closed;
    ghost var flushed;
    closed, flushed := writer.Close();
    trail := Opened(sent, synced, flushed);
    EndsFollowed(old(backend.server.files), mid, backend.server.files, Key(name), trail);
    FailureLeavesExactly(old(backend.server.files), backend.server.files, Key(name), local);
    ok := ok && closed;
  }

  /** Two sends of the same bytes, the second when the first did not go through. */
  lemma EndsFollowed(before: map<string, Bytes>, mid: map<string, Bytes>, after: map<string, Bytes>, name: string,
                     trail: Trail)
    requires trail.Opened?
    requires trail.synced ==> mid == before[name := trail.sent] && after == mid
    requires !trail.synced ==>
               && Torn(before, mid, name, trail.sent)
               && (if trail.flushed then after == mid[name := trail.sent] else Torn(mid, after, name, trail.sent))
    ensures Followed(before, after, name, trail)
  {
    var sent := trail.sent;
    if !trail.synced {
      assert sent[..|sent|] == sent;
      if trail.flushed {
        assert mid[name := sent] == before[name := sent];
      } else {
        TornTwice(before, mid, after, name, sent, |sent|);
      }
    }
  }

  // ------------------------------------------------------------ one open file

  /** The bytes of a staging file. */
  predicate IsStagingFile(dir: Directory, name: string) {
    name in dir && dir[name].Regular? && dir[name].body.Blob?
  }

  function BytesAt(dir: Directory, name: string): Bytes {
    if IsStagingFile(dir, name) then dir[name].body.bytes else []
  }

  /** The staging file and every other entry that is not recovery metadata is as before. */
  ghost predicate OnlyRecorded(before: Directory, after: Directory, staging: string) {
    forall name :: name != staging + METADATA_SUFFIX && !IsTemporary(name) ==>
      ((name in after <==> name in before) && (name in after ==> after[name] == before[name]))
  }

  /** Nothing but one staging file and recovery metadata changed. */
  ghost predicate OnlyOwn(before: Directory, after: Directory, staging: string) {
    forall name :: name != staging && IsStaging(name) ==>
      ((name in after <==> name in before) && (name in after ==> after[name] == before[name]))
  }

  /** The next scan offers the staging file for recovery, with its bytes and its target. */
  ghost predicate Recoverable(dir: Directory, staging: string, bytes: Bytes, profileID: string, remotePath: string,
                              reason: string)
  {
    && IsStagingFile(dir, staging) && BytesAt(dir, staging) == bytes
    && ItemFor(dir, staging).Some?
    && var record := ItemFor(dir, staging).value.metadata;
       && record.state == Preserved
       && record.size == |bytes|
       && record.profileID == profileID
       && record.remotePath == remotePath
       && record.reason == reason
  }

  lemma GrantedIsNatural(dir: Directory, limits: Limits, name: string, size: int)
    ensures Quota(dir, limits, InDirectory(name), size) == Granted ==> size >= 0
  {
  }

  /** The size a write asks the quota for: the larger of the file's and the end of the write,
      or, when appending, the end alone; the sum may wrap. */
  function Asked(size: nat, at: nat, length: nat, append: bool): int {
    if append then Wrap64(size + length) else Max(size, Wrap64(at + length))
  }

  /** The requested size fits in 64 bits, and without a wrap it covers the whole write. */
  lemma SizeFits(dir: Directory, name: string, at: nat, length: nat, append: bool)
    requires TotalBytes(dir) <= INT64_MAX && at <= INT64_MAX && name in dir
    requires append ==> at == |BytesAt(dir, name)|
    ensures var asked := Asked(|BytesAt(dir, name)|, at, length, append);
            asked <= INT64_MAX && (at + length <= INT64_MAX ==> asked == Max(|BytesAt(dir, name)|, at + length))
  {
    TotalRemove(dir, name);
    if at + length > INT64_MAX {
      WrapExact(at + length);
    }
  }

  /** An append asks for the file's size and its own, wherever the position is; one that would
      not fit in 64 bits asks for a negative size and is refused. */
  lemma AskedAppending(dir: Directory, limits: Limits, name: string, size: nat, position: nat, length: nat)
    requires size <= INT64_MAX && length <= INT64_MAX
    ensures Asked(size, size, length, true) == Asked(size, position, length, true)
    ensures size + length > INT64_MAX ==>
              !Quota(dir, limits, InDirectory(name), Asked(size, position, length, true)).Granted?
  {
    WrapExact(size + length);
  }

  class StagedFile {
    const backend: Backend
    const store: Store
    const profileID: string
    const recoveryRoot: string
    const name: string             // the mount path, cleaned
    const temporary: string        // the staging file
    const writePermitted: bool
    const appendMode: bool
    const createdAt: int
    var position: nat
    var dirty: bool
    var closed: bool
    var requestedTime: int
    var modTime: int
    ghost var published: Bytes     // what this handle last published in full, or downloaded at open

    ghost predicate Valid()
      reads this, store
    {
      && store.Valid() && !store.locked
      && IsMountName(name) && IsStaging(temporary)
      && (!closed ==> IsStagingFile(store.dir, temporary))
      && (!closed && writePermitted && !dirty ==> Content() == published)
    }

    ghost function Content(): Bytes
      reads this, store
    {
      BytesAt(store.dir, temporary)
    }

    constructor (backend: Backend, store: Store, profileID: string, recoveryRoot: string, name: string,
                 temporary: string, writePermitted: bool, appendMode: bool, dirty: bool, modTime: int, createdAt: int)
      requires store.Valid() && !store.locked && IsMountName(name) && IsStaging(temporary)
      requires IsStagingFile(store.dir, temporary)
      ensures Valid() && published == Content() && !closed && this.dirty == dirty && requestedTime == ZERO_TIME
      ensures this.backend == backend && this.store == store && this.profileID == profileID
      ensures this.recoveryRoot == recoveryRoot && this.name == name && this.temporary == temporary
      ensures this.writePermitted == writePermitted && this.appendMode == appendMode && position == 0
      ensures this.modTime == modTime
    {
      this.backend, this.store, this.profileID, this.recoveryRoot := backend, store, profileID, recoveryRoot;
      this.name, this.temporary, this.writePermitted, this.appendMode := name, temporary, writePermitted, appendMode;
      this.createdAt, position, this.dirty, closed := createdAt, 0, dirty, false;
      requestedTime, this.modTime, published := ZERO_TIME, modTime, BytesAt(store.dir, temporary);
    }

    // ------------------------------------------------------------------ editing

    /** Everything an edit may do: a refused one changes nothing at all, an accepted one
        leaves exactly `content` and marks a write-permitted handle dirty. */
    twostate predicate Edited(accepted: bool, new content: Bytes)
      reads this, store
    {
      && Valid() && closed == old(closed) && modTime == old(modTime) && published == old(published)
      && store.dir - {temporary} == old(store.dir) - {temporary}
      && QuotaRun(old(store.dir), store.limits, store.dir)
      && (if accepted then
            && Content() == content
            && dirty == (old(dirty) || writePermitted)
            && requestedTime == (if writePermitted then ZERO_TIME else old(requestedTime))
          else store.dir == old(store.dir) && dirty == old(dirty) && requestedTime == old(requestedTime))
    }

    /** What every edit keeps, accepted or not: only this staging file changes, a handle never
        turns clean, and a write-permitted one that is clean holds the bytes it held. */
    twostate predicate Kept()
      reads this, store
    {
      && Valid() && closed == old(closed)
      && store.dir - {temporary} == old(store.dir) - {temporary}
      && (old(dirty) ==> dirty) && (dirty && !old(dirty) ==> writePermitted)
      && (writePermitted && !dirty ==> Content() == old(Content()))
    }

    /** A write through a handle that was not opened for writing is accepted but never
        published: a clean handle still has every byte published exactly when writing was
        permitted or the write changed nothing. */
    twostate lemma CleanMeansPublished(content: Bytes)
      requires old(!closed && !dirty && Content() == published) && Edited(true, content)
      ensures (!dirty ==> Content() == published) <==> writePermitted || content == old(Content())
    {
    }

    method MarkDirty()
      modifies this`dirty, this`requestedTime
      ensures dirty == (old(dirty) || writePermitted)
      ensures requestedTime == if writePermitted then ZERO_TIME else old(requestedTime)
    {
      if writePermitted {
        dirty := true;
        requestedTime := ZERO_TIME;
      }
    }

    /** The part of Write and WriteAt between the quota check and the return: the write may
        stop after any number of bytes. */
    method Splice(buffer: Bytes, at: nat, newSize: int, writable: bool) returns (written: nat, refused: Resize)
      requires Valid() && !closed && TotalBytes(store.dir) <= INT64_MAX
      requires newSize <= INT64_MAX
      requires at + |buffer| <= INT64_MAX ==> newSize == Max(|Content()|, at + |buffer|)
      modifies this`dirty, this`requestedTime, store`dir, store`locked, store`journal
      ensures refused.Unreadable? || refused == Quota(old(store.dir), store.limits, InDirectory(temporary), newSize)
      ensures written <= |buffer| && (at + |buffer| > INT64_MAX || !writable ==> written == 0)
      ensures Edited(refused.Granted?,
                     if written == 0 then old(Content()) else Overwrite(old(Content()), buffer[..written], at))
      ensures !refused.Granted? ==> written == 0
    {
      hide QuotaRun, TotalBytes, Quota, Overwrite, IsMountName, IsStaging;
      ghost var before := store.dir;
      refused := store.LockResize(InDirectory(temporary), newSize);
      written := 0;
      if !refused.Granted? {
        NoChange(before, store.limits);
        return;
      }
      MarkDirty();
      written := *;
      if written > |buffer| || at + |buffer| > INT64_MAX || !writable {
        written := 0;
      }
      if written > 0 {
        Place(buffer[..written], at, newSize);
      } else {
        NoChange(before, store.limits);
      }
      store.Unlock();
    }

    /** The bytes that a write puts into the file while the quota's mutex is held. */
    method Place(data: Bytes, at: nat, newSize: int)
      requires store.Valid() && IsStagingFile(store.dir, temporary)
      requires newSize >= Max(|Content()|, at + |data|)
      requires Quota(store.dir, store.limits, InDirectory(temporary), newSize) == Granted
      modifies store`dir, store`journal
      ensures store.Valid() && IsStagingFile(store.dir, temporary)
      ensures Content() == Overwrite(old(Content()), data, at)
      ensures store.dir - {temporary} == old(store.dir) - {temporary}
      ensures QuotaRun(old(store.dir), store.limits, store.dir)
    {
      var now: int := *;
      var node := Regular(Blob(Overwrite(store.dir[temporary].body.bytes, data, at)), now);
      OneResize(store.dir, store.limits, temporary, newSize, node);
      store.Put(temporary, node);
    }

    method Write(buffer: Bytes) returns (written: nat, ok: bool)
      requires Valid() && TotalBytes(store.dir) <= INT64_MAX && position <= INT64_MAX
      requires |buffer| <= INT64_MAX
      modifies this, store`dir, store`locked, store`journal
      ensures closed ==> !ok && written == 0 && Edited(false, [])
      ensures written <= |buffer| && (ok ==> written == |buffer|)
      ensures ok || written > 0 ==>
                Edited(true, if written == 0 then old(Content())
                             else Overwrite(old(Content()), buffer[..written],
                                            if appendMode then |old(Content())| else old(position)))
      ensures !ok && written == 0 ==> Edited(false, []) || Edited(true, old(Content()))
      ensures !closed ==>
                var asked := Asked(|old(Content())|, old(position), |buffer|, appendMode);
                !Quota(old(store.dir), store.limits, InDirectory(temporary), asked).Granted? ==>
                  written == 0 && Edited(false, [])
      ensures !closed && appendMode && |old(Content())| + |buffer| > INT64_MAX ==> Edited(false, [])
      ensures Kept()
      ensures written == 0 ==> Content() == old(Content()) && position == old(position)
      ensures written > 0 ==> position == written + if appendMode then |old(Content())| else old(position)
      ensures Valid() && store.dir - {temporary} == old(store.dir) - {temporary}
      ensures QuotaRun(old(store.dir), store.limits, store.dir) && closed == old(closed) && published == old(published)
    {
      hide QuotaRun, TotalBytes, Quota, Overwrite, Asked, Wrap64, IsMountName, IsStaging;
      written, ok := 0, false;
      if closed {
        NoChange(store.dir, store.limits);
        return;
      }
      var size := SizeOf(store.dir[temporary]);
      var at := if appendMode then size else position;
      TotalRemove(store.dir, temporary);
      SizeFits(store.dir, temporary, at, |buffer|, appendMode);
      if appendMode {
        AskedAppending(store.dir, store.limits, temporary, size, position, |buffer|);
      }
      var refused;
      written, refused := Splice(buffer, at, Asked(size, at, |buffer|, appendMode), true);
      if written > 0 {
        position := at + written;
      }
      ok := *;
      ok := ok && written == |buffer| && refused.Granted?;
    }

    /** A handle opened for appending refuses WriteAt, after it was marked dirty. */
    method WriteAt(buffer: Bytes, offset: int) returns (written: nat, ok: bool)
      requires Valid() && TotalBytes(store.dir) <= INT64_MAX
      requires |buffer| <= INT64_MAX && offset <= INT64_MAX
      modifies this`dirty, this`requestedTime, store`dir, store`locked, store`journal
      ensures closed || offset < 0 ==> !ok && written == 0 && Edited(false, [])
      ensures written <= |buffer| && (ok ==> written == |buffer|)
      ensures ok || written > 0 ==>
                !appendMode && offset >= 0
                && Edited(true,
                          if written == 0 then old(Content()) else Overwrite(old(Content()), buffer[..written], offset))
      ensures !ok && written == 0 ==> Edited(false, []) || Edited(true, old(Content()))
      ensures !closed && offset >= 0 ==>
                var asked := Asked(|old(Content())|, offset, |buffer|, false);
                !Quota(old(store.dir), store.limits, InDirectory(temporary), asked).Granted? ==>
                  written == 0 && Edited(false, [])
      ensures Kept()
      ensures written == 0 ==> Content() == old(Content())
      ensures Valid() && store.dir - {temporary} == old(store.dir) - {temporary}
      ensures QuotaRun(old(store.dir), store.limits, store.dir)
    {
      written, ok := 0, false;
      if closed || offset < 0 {
        NoChange(store.dir, store.limits);
        return;
      }
      var size := SizeOf(store.dir[temporary]);
      SizeFits(store.dir, temporary, offset, |buffer|, false);
      var refused;
      written, refused := Splice(buffer, offset, Asked(size, offset, |buffer|, false), !appendMode);
      ok := *;
      ok := ok && written == |buffer| && refused.Granted? && !appendMode;
    }

    /** The call that changes the file, made while the quota's mutex is held. */
    method Cut(size: nat)
      requires store.Valid() && IsStagingFile(store.dir, temporary)
      requires Quota(store.dir, store.limits, InDirectory(temporary), size) == Granted
      modifies store`dir, store`journal
      ensures store.Valid() && IsStagingFile(store.dir, temporary)
      ensures Content() == CutTo(old(Content()), size)
      ensures store.dir - {temporary} == old(store.dir) - {temporary}
      ensures QuotaRun(old(store.dir), store.limits, store.dir)
    {
      var now: int := *;
      var node := Regular(Blob(CutTo(store.dir[temporary].body.bytes, size)), now);
      OneResize(store.dir, store.limits, temporary, size, node);
      store.Put(temporary, node);
    }

    method Truncate(size: int) returns (ok: bool, refused: Resize)
      requires Valid() && TotalBytes(store.dir) <= INT64_MAX && size <= INT64_MAX
      modifies this`dirty, this`requestedTime, store`dir, store`locked, store`journal
      ensures refused.Unreadable? || refused == Quota(old(store.dir), store.limits, InDirectory(temporary), size)
      ensures ok ==> size >= 0 && !closed && refused.Granted?
      ensures Edited(refused.Granted?, if ok && size >= 0 then CutTo(old(Content()), size) else old(Content()))
      ensures ok ==> |Content()| == size && forall i :: 0 <= i < size ==>
                       Content()[i] == if i < |old(Content())| then old(Content())[i] else 0
      ensures Kept()
    {
      hide QuotaRun, TotalBytes, Quota, CutTo, IsMountName, IsStaging;
      GrantedIsNatural(store.dir, store.limits, temporary, size);
      NoChange(store.dir, store.limits);
      refused := store.LockResize(InDirectory(temporary), size);
      if !refused.Granted? {
        return false, refused;
      }
      MarkDirty();
      ok := *;
      ok := ok && !closed;
      if ok {
        Cut(size);
      }
      store.Unlock();
    }

    /** os.Chtimes on the staging file, remembered for the next upload. */
    method SetModTime(time: int) returns (ok: bool)
      requires Valid()
      modifies this`modTime, this`requestedTime, store`dir, store`journal
      ensures Valid() && Content() == old(Content()) && store.dir - {temporary} == old(store.dir) - {temporary}
      ensures ok ==> !closed && modTime == time && requestedTime == time
      ensures ok ==> temporary in old(store.dir) && old(store.dir)[temporary].Regular?
                     && store.dir == old(store.dir)[temporary := old(store.dir)[temporary].(modTime := time)]
      ensures Kept() && dirty == old(dirty)
      ensures !ok ==> modTime == old(modTime) && requestedTime == old(requestedTime) && store.dir == old(store.dir)
      ensures QuotaRun(old(store.dir), store.limits, store.dir)
    {
      NoChange(store.dir, store.limits);
      ok := *;
      if closed || !ok {
        return false;
      }
      OneChange(store.dir, store.limits, Touched(temporary, store.dir[temporary].(modTime := time)));
      store.Put(temporary, store.dir[temporary].(modTime := time));
      modTime, requestedTime := time, time;
    }

    // --------------------------------------------------------------- publishing

    /** The upload and, if a time was asked for, setting it; the data may be on the server
        although the whole failed. */
    method Send() returns (ok: bool)
      requires IsMountName(name) && backend.Valid() && IsStagingFile(store.dir, temporary)
      modifies backend.cache, backend.server
      ensures backend.Valid()
      ensures ok ==>
                && backend.server.files == old(backend.server.files)[Key(name) := Content()]
                && (requestedTime != ZERO_TIME ==>
                      Key(name) in backend.server.times && backend.server.times[Key(name)] == requestedTime)
      ensures !ok ==> Torn(old(backend.server.files), backend.server.files, Key(name), Content())
      ensures AgreeExcept(old(backend.server.View()), backend.server.View(), Key(name))
    {
      ghost var trail;
      ok, trail := Upload(backend, name, store.dir[temporary].body.bytes);
      ghost var uploaded := backend.server.View();
      if ok && requestedTime != ZERO_TIME {
        ok := backend.SetModTime(name, requestedTime);
      }
      assert Content()[..|Content()|] == Content();
    }

    /** syncLocked: nothing is marked clean until the server holds every staged byte. */
    method Sync() returns (ok: bool, error: Error)
      requires Valid() && backend.Valid()
      modifies this`dirty, this`modTime, this`published, backend.cache, backend.server
      ensures Valid() && backend.Valid()
      ensures closed ==> !ok && error == Sentinel(Closed)
      ensures closed || !old(dirty) ==>
                backend.server.View() == old(backend.server.View()) && dirty == old(dirty)
                  && published == old(published)
      ensures ok && old(dirty) ==>
                && backend.server.files == old(backend.server.files)[Key(name) := Content()]
                && published == Content()
                && (requestedTime != ZERO_TIME ==>
                      modTime == requestedTime
                      && Key(name) in backend.server.times && backend.server.times[Key(name)] == requestedTime)
      ensures ok ==> !dirty
      ensures !ok ==> dirty == old(dirty) && published == old(published)
      ensures !ok ==> Torn(old(backend.server.files), backend.server.files, Key(name), Content())
      ensures AgreeExcept(old(backend.server.View()), backend.server.View(), Key(name))
    {
      error := *;
      if closed {
        return false, Sentinel(Closed);
      }
      ok := *;
      if !ok || !dirty {
        return;
      }
      ok := Send();
      if !ok {
        return;
      }
      var now: int := *;
      dirty := false;
      modTime := if requestedTime == ZERO_TIME then now else requestedTime;
      published := Content();
    }

    // ------------------------------------------------------------------ closing

    /** Removes the staging file only once everything it holds is published; otherwise the
        file stays as it is and is filed for recovery. */
    method Close(now: int) returns (ok: bool, synced: bool)
      requires Valid() && backend.Valid()
      modifies this`dirty, this`closed, this`modTime, this`published, backend.cache, backend.server, store`dir,
               store`journal, store`asked
      ensures Valid() && backend.Valid() && closed
      ensures old(closed) ==>
                !ok && !synced && store.dir == old(store.dir) && backend.server.View() == old(backend.server.View())
      ensures synced ==>
                && !old(closed) && (writePermitted || old(dirty) ==> published == old(Content()))
                && (old(dirty) ==> backend.server.files == old(backend.server.files)[Key(name) := published])
                && (!old(dirty) ==> backend.server.View() == old(backend.server.View()))
                && (store.dir == old(store.dir) - {temporary} || (!ok && store.dir == old(store.dir)))
      ensures ok ==> synced && temporary !in store.dir
      ensures store.asked == old(store.asked) + if synced || old(closed) then [] else [InDirectory(temporary)]
      ensures !synced ==> Content() == old(Content()) && OnlyRecorded(old(store.dir), store.dir, temporary)
      ensures !synced && !old(closed) ==>
                && Torn(old(backend.server.files), backend.server.files, Key(name), Content())
                && (|| Recoverable(store.dir, temporary, Content(), profileID, RecoveryRemotePath(recoveryRoot, name),
                                   UPLOAD_FAILED)
                    || store.dir == old(store.dir)
                    || exists t :: IsTemporary(t) && t !in old(store.dir) && store.dir - {t} == old(store.dir))
      ensures !synced ==> (temporary in store.dir <==> temporary in old(store.dir))
      ensures OnlyOwn(old(store.dir), store.dir, temporary)
      ensures AgreeExcept(old(backend.server.View()), backend.server.View(), Key(name))
      ensures !old(dirty) ==> backend.server.files == old(backend.server.files)
      ensures QuotaRun(old(store.dir), store.limits, store.dir)
    {
      ghost var before := store.dir;
      NoChange(before, store.limits);
      if closed {
        return false, false;
      }
      var error;
      synced, error := Sync();
      closed := true;
      var handleClosed: bool := *;
      if synced {
        var removed: bool := *;
        if removed {
          store.Erase(temporary);
          OneChange(before, store.limits, Removed(temporary));
        }
        ok := handleClosed && removed;
      } else {
        ok := false;
        var preserved := Preserve(UPLOAD_FAILED, now);
      }
    }

    method Preserve(reason: string, now: int) returns (ok: bool)
      requires Valid() && IsStagingFile(store.dir, temporary)
      modifies store`dir, store`journal, store`asked
      ensures store.Valid() && Content() == old(Content()) && IsStagingFile(store.dir, temporary)
      ensures OnlyRecorded(old(store.dir), store.dir, temporary) && OnlyOwn(old(store.dir), store.dir, temporary)
      ensures store.asked == old(store.asked) + [InDirectory(temporary)]
      ensures ok ==>
                Recoverable(store.dir, temporary, Content(), profileID, RecoveryRemotePath(recoveryRoot, name), reason)
      ensures !ok ==>
                || store.dir == old(store.dir)
                || exists t :: IsTemporary(t) && t !in old(store.dir) && store.dir - {t} == old(store.dir)
      ensures QuotaRun(old(store.dir), store.limits, store.dir)
    {
      ghost var before := store.dir;
      var r := store.Preserve(InDirectory(temporary), profileID, RecoveryRemotePath(recoveryRoot, name), createdAt,
                              reason, "", now);
      PreserveRecords(before, store.dir, store.limits, temporary, r.Success?);
      ok := r.Success?;
    }

    /** closePreserving: seals the handle, sends nothing and keeps the staging file. */
    method ClosePreserving(now: int) returns (ok: bool)
      requires Valid()
      modifies this`closed, store`dir, store`journal, store`asked
      ensures Valid() && closed
      ensures old(closed) ==> ok && store.dir == old(store.dir)
      ensures Content() == old(Content()) && OnlyRecorded(old(store.dir), store.dir, temporary)
      ensures OnlyOwn(old(store.dir), store.dir, temporary)
      ensures temporary in store.dir <==> temporary in old(store.dir)
      ensures !old(closed) && ok ==>
                Recoverable(store.dir, temporary, Content(), profileID, RecoveryRemotePath(recoveryRoot, name),
                            FORCE_DISCONNECT)
      ensures store.asked == old(store.asked) + if old(closed) then [] else [InDirectory(temporary)]
      ensures QuotaRun(old(store.dir), store.limits, store.dir)
    {
      NoChange(store.dir, store.limits);
      if closed {
        return true;
      }
      var flushed: bool, handleClosed: bool := *, *;
      closed := true;
      ok := Preserve(FORCE_DISCONNECT, now);
      ok := ok && flushed && handleClosed;
    }
  }

  /** A preserve writes recovery metadata and nothing else. */
  lemma PreserveRecords(before: Directory, after: Directory, limits: Limits, staging: string, ok: bool)
    requires IsStaging(staging) && staging in before
    requires ok ==> forall other :: other != staging + METADATA_SUFFIX ==>
                      ((other in after <==> other in before) && (other in after ==> after[other] == before[other]))
    requires ok ==> staging + METADATA_SUFFIX in after
    requires !ok ==> after == before || exists t :: IsTemporary(t) && t !in before && after - {t} == before
    ensures OnlyRecorded(before, after, staging) && OnlyOwn(before, after, staging)
    ensures QuotaRun(before, limits, after)
    ensures staging in after && after[staging] == before[staging]
  {
    var metadata := staging + METADATA_SUFFIX;
    assert HasSuffix(metadata, METADATA_SUFFIX);
    if ok {
      assert after == before[metadata := after[metadata]];
      OneChange(before, limits, Recorded(metadata, after[metadata]));
    } else if after == before {
      NoChange(before, limits);
    } else {
      var t :| IsTemporary(t) && t !in before && after - {t} == before;
      TemporaryIsNoItem(t, staging);
      assert t in after;
      assert after == before[t := after[t]];
      OneChange(before, limits, Recorded(t, after[t]));
      assert forall other :: other != t ==> (other in after <==> other in after - {t});
    }
  }

  /** The bytes of a file that was cut or extended to this size: it keeps its beginning, and
      what is new reads as zero. */
  function CutTo(content: Bytes, size: nat): (r: Bytes)
    ensures |r| == size
    ensures forall i :: 0 <= i < size ==> r[i] == if i < |content| then content[i] else 0
  {
    if size <= |content| then content[..size] else content + Zeros(size - |content|)
  }
}
