/** The mount layer's table of open files: lookups publish pending writes first, and a
    fresh open downloads what the server then holds. */
module Mount {
  import opened Wrappers
  import opened Paths
  import opened Errors
  import opened RecoveryStore
  import opened QuotaRuns
  import opened Uploads
  import opened CachedBackend
  import opened Staging
  import C = MetadataCache
  import P = CacheProtocol

  datatype Flags = Flags(write: bool, create: bool, exclusive: bool, truncate: bool, append: bool)

  datatype OpenError =
    | ReadOnly
    | IsDirectory
    | AlreadyExists
    | DoesNotExist
    | LookupFailed(error: Error)
    | CacheFailed
    | OverQuota(reason: Resize)
    | DownloadFailed

  predicate IsStagingError(error: OpenError) {
    error.CacheFailed? || error.OverQuota? || error.DownloadFailed?
  }

  datatype Handle = DirectoryHandle(name: string) | FileHandle(file: StagedFile)

  /** What OpenFile does with the answer of its lookup. */
  datatype Plan = OpenDirectory | KeepContent(entry: C.Entry) | StartEmpty(modTime: int) | Refuse(error: OpenError)

  function PlanFor(flags: Flags, outcome: C.Outcome): Plan
    requires !outcome.Listed?
  {
    if outcome.Found? && outcome.entry.directory then
      if flags.write || flags.truncate || flags.append then Refuse(IsDirectory) else OpenDirectory
    else if outcome.Failed? && !Is(outcome.error, NotExist) then Refuse(LookupFailed(outcome.error))
    else if outcome.Found? && flags.create && flags.exclusive then Refuse(AlreadyExists)
    else if outcome.Failed? && !flags.create then Refuse(DoesNotExist)
    else if outcome.Found? && !flags.truncate then KeepContent(outcome.entry)
    else StartEmpty(if outcome.Found? then outcome.entry.modTime else ZERO_TIME)
  }

  /** A plan to keep the content is made only for a file that the server has. */
  lemma PlanFacts(flags: Flags, outcome: C.Outcome, w: World, n: string)
    requires !outcome.Listed? && (outcome.Found? ==> P.Reports(outcome, StatTruth(w, n)))
    ensures var plan := PlanFor(flags, outcome);
            && (plan.KeepContent? ==>
                  && HasFile(w, n, plan.entry.size)
                  && !flags.truncate && !(flags.create && flags.exclusive))
            && (plan.KeepContent? ==> outcome.Found?)
            && (plan.StartEmpty? ==> flags.create || flags.truncate)
            && (plan.OpenDirectory? ==> !flags.write && !flags.truncate && !flags.append)
            && (plan.Refuse? ==> !IsStagingError(plan.error) && plan.error != ReadOnly)
            && (plan == Refuse(AlreadyExists) ==> flags.create && flags.exclusive)
            && (plan == Refuse(DoesNotExist) ==> !flags.create)
  {
  }

  /** What must come of an open whose lookup had this answer. A file that is there is kept
      unless the open truncates, and only a file that was not found, or is truncated, is
      opened empty and due for upload. */
  ghost predicate Answers(r: Result<Handle, OpenError>, flags: Flags, answer: C.Outcome)
    reads if r.Success? && r.value.FileHandle? then {r.value.file} else {}
  {
    match answer
    case Found(entry) =>
      if entry.directory then
        if flags.write || flags.truncate || flags.append then r == Failure(IsDirectory)
        else r.Success? && r.value.DirectoryHandle?
      else if flags.create && flags.exclusive then r == Failure(AlreadyExists)
      else OpensFile(r, flags.truncate, entry.modTime)
    case Failed(error) =>
      if !Is(error, NotExist) then r == Failure(LookupFailed(error))
      else if !flags.create then r == Failure(DoesNotExist)
      else OpensFile(r, true, ZERO_TIME)
    case Listed(_) => false
  }

  ghost predicate OpensFile(r: Result<Handle, OpenError>, dirty: bool, modTime: int)
    reads if r.Success? && r.value.FileHandle? then {r.value.file} else {}
  {
    match r
    case Success(DirectoryHandle(_)) => false
    case Success(FileHandle(f)) => f.dirty == dirty && f.modTime == modTime
    case Failure(error) => IsStagingError(error)
  }

  /** The plan leads to what must come. */
  lemma PlanAnswers(flags: Flags, answer: C.Outcome, r: Result<Handle, OpenError>)
    requires !answer.Listed?
    requires match PlanFor(flags, answer)
             case Refuse(error) => r == Failure(error)
             case OpenDirectory => r.Success? && r.value.DirectoryHandle?
             case KeepContent(entry) => OpensFile(r, false, entry.modTime)
             case StartEmpty(modTime) => OpensFile(r, true, modTime)
    ensures Answers(r, flags, answer)
  {
  }

  predicate HasFile(w: World, n: string, size: int) {
    n in w.files && size == Size64(|w.files[n]|)
  }

  predicate Mutating(flags: Flags) {
    flags.write || flags.create || flags.truncate || flags.append
  }

  class FileSystem {
    const backend: Backend
    const store: Store
    const readOnly: bool
    const profileID: string
    const recoveryRoot: string
    var openFiles: set<StagedFile>
    ghost const initial: set<string> // staging that was there before this mount
    ghost var kept: set<string>      // staging of closes that failed or were forced
    ghost var orphans: set<string>   // staging of failed opens that could not be removed

    /** Every staging file is accounted for: it was there before, belongs to an open handle,
        was kept by a close that failed or was forced, or is left over from a failed open. */
    ghost predicate Accounted()
      reads this, store
    {
      Balanced(store.dir, initial, kept, orphans, openFiles)
    }

    ghost predicate Valid()
      reads this, openFiles, store, backend, backend.server, backend.cache
    {
      && backend.Valid() && store.Valid() && !store.locked && Accounted()
      && (forall f :: f in openFiles ==>
            f.backend == backend && f.store == store && f.profileID == profileID && f.recoveryRoot == recoveryRoot
            && f.Valid() && !f.closed)
      && (forall f, g :: f in openFiles && g in openFiles && f != g ==> f.temporary != g.temporary)
    }

    constructor (backend: Backend, store: Store, readOnly: bool, profileID: string, recoveryRoot: string)
      requires backend.Valid() && store.Valid() && !store.locked
      ensures Valid() && openFiles == {} && this.backend == backend && this.store == store && this.readOnly == readOnly
      ensures initial == StagingNames(store.dir) && kept == {} && orphans == {}
    {
      this.backend, this.store, this.readOnly := backend, store, readOnly;
      this.profileID, this.recoveryRoot, openFiles := profileID, recoveryRoot, {};
      initial := StagingNames(store.dir);
      kept, orphans := {}, {};
    }

    ghost predicate Writes(f: StagedFile)
      reads f
    {
      f.writePermitted || f.dirty
    }

    /** At most one handle of a path may still have something to publish. */
    ghost predicate OneWriter()
      reads this`openFiles, openFiles
    {
      forall f, g :: f in openFiles && g in openFiles && f.name == g.name && Writes(f) && Writes(g) ==> f == g
    }

    ghost predicate IsPublished(f: StagedFile)
      reads f, f.store, backend.server
    {
      Key(f.name) in backend.server.files && backend.server.files[Key(f.name)] == f.Content()
    }

    /** A writer that is not dirty has all its bytes on the server. */
    ghost predicate Faithful()
      reads this`openFiles, openFiles, store, backend.server
    {
      forall f :: f in openFiles && f.store == store && f.writePermitted && !f.dirty ==> IsPublished(f)
    }

    /** One writer per path, and whatever is not dirty is published. */
    ghost predicate Sound()
      reads this`openFiles, openFiles, store, backend.server
    {
      OneWriter() && Faithful()
    }

    /** If this handle has something to publish, no other handle of its path has. */
    ghost predicate OnlyWriter(file: StagedFile)
      reads this`openFiles, openFiles, file
    {
      Writes(file) ==> forall f :: f in openFiles && f != file && f.name == file.name ==> !Writes(f)
    }

    /** As long as the cache directory is not touched, every open handle keeps its bytes. */
    twostate lemma BytesStay()
      requires old(Valid()) && openFiles == old(openFiles) && unchanged(store)
      ensures forall f :: f in openFiles ==> f.Content() == old(f.Content())
    {
    }

    /** A publish of one file keeps the table sound, whether it succeeded or left a torn
        file behind. */
    twostate lemma PublishKeepsSound(file: StagedFile)
      requires file in openFiles && openFiles == old(openFiles) && unchanged(store)
      requires forall f :: f in openFiles ==> IsMountName(f.name) && (f != file ==> unchanged(f))
      requires backend.server.files - {Key(file.name)} == old(backend.server.files) - {Key(file.name)}
      requires old(file.dirty) && (!file.dirty ==> IsPublished(file))
      ensures old(Sound()) ==> Sound()
    {
      hide IsMountName, Key;
      forall f | f in openFiles && f.store == store && f.writePermitted && !f.dirty && old(Sound())
        ensures IsPublished(f)
      {
        if f != file {
          assert old(OneWriter()) && old(Writes(f)) && old(Writes(file));
          assert f.name != file.name;
          assert old(IsPublished(f));
          OtherKey(old(backend.server.files), backend.server.files, f.name, file.name);
        }
      }
    }

    twostate lemma PublishKeepsValid(file: StagedFile)
      requires old(Valid()) && file in openFiles && unchanged(this, store)
      requires forall f :: f in openFiles && f != file ==> unchanged(f)
      requires backend.Valid() && file.Valid() && file.closed == old(file.closed)
      ensures Valid()
    {
      forall f | f in openFiles
        ensures f.Valid() && !f.closed
      {
        assert old(f.Valid()) && old(!f.closed);
      }
    }

    twostate lemma RestAgrees(n: string)
      requires AgreeExcept(old(backend.server.View()), backend.server.View(), n)
      ensures backend.server.files - {n} == old(backend.server.files) - {n}
    {
    }

    lemma Holds(file: StagedFile)
      requires Key(file.name) in backend.server.files && backend.server.files[Key(file.name)] == file.Content()
      ensures IsPublished(file)
    {
    }

    lemma IsPending(file: StagedFile)
      requires file in openFiles && file.dirty
      ensures StillPending(openFiles, file.name)
    {
    }

    /** Publishing one file touches the server at its own path only. */
    method PublishOne(file: StagedFile) returns (ok: bool, error: Error)
      requires Valid() && file in openFiles && file.dirty
      modifies file`dirty, file`modTime, file`published, backend.cache, backend.server
      ensures Valid()
      ensures file.dirty == !ok
      ensures backend.server.files - {Key(file.name)} == old(backend.server.files) - {Key(file.name)}
      ensures old(Sound()) ==> Sound()
    {
      hide *;
      Facts(file);
      ok, error := file.Sync();
      RestAgrees(Key(file.name));
      if ok {
        Holds(file);
      }
      PublishKeepsValid(file);
      PublishKeepsSound(file);
    }

    /** One turn of the loop over the open files. */
    method PublishIfPending(file: StagedFile, name: string) returns (ok: bool, error: Error)
      requires Valid() && file in openFiles
      modifies file`dirty, file`modTime, file`published, backend.cache, backend.server
      ensures Valid() && (old(Sound()) ==> Sound())
      ensures ok && file.name == name ==> !file.dirty
      ensures !ok || file.dirty ==> file.dirty == old(file.dirty)
      ensures !ok ==> file.name == name && file.dirty
      ensures backend.server.files - {Key(name)} == old(backend.server.files) - {Key(name)}
    {
      ok, error := true, Sentinel(Other(0));
      assert !file.closed;
      if file.name == name && !file.closed && file.dirty {
        ok, error := PublishOne(file);
      }
    }

    /** A file of this path still has bytes to publish. */
    ghost predicate StillPending(files: set<StagedFile>, name: string)
      reads files
    {
      exists f :: f in files && f.name == name && f.dirty
    }

    /** The first half of a lookup: publish what is pending on this path. */
    method PublishPending(name: string) returns (ok: bool, error: Error)
      requires Valid()
      modifies openFiles, backend.cache, backend.server
      ensures Valid() && (old(Sound()) ==> Sound())
      ensures ok ==> forall f :: f in openFiles && f.name == name ==> !f.dirty
      ensures !ok ==> StillPending(openFiles, name)
      ensures forall f :: f in openFiles ==> f.Content() == old(f.Content()) && (f.dirty ==> old(f.dirty))
      ensures backend.server.files - {Key(name)} == old(backend.server.files) - {Key(name)}
    {
      hide *;
      ok, error := true, Sentinel(Other(0));
      var pending := openFiles;
      while pending != {} && ok
        invariant Valid() && (old(Sound()) ==> Sound()) && pending <= openFiles
        invariant ok ==> forall f :: f in openFiles && f.name == name && f !in pending ==> !f.dirty
        invariant !ok ==> StillPending(openFiles, name)
        invariant forall f :: f in openFiles && f.dirty ==> old(f.dirty)
        invariant backend.server.files - {Key(name)} == old(backend.server.files) - {Key(name)}
        decreases |pending|
      {
        var file :| file in pending;
        pending := pending - {file};
        ok, error := PublishIfPending(file, name);
        if !ok {
          IsPending(file);
        }
      }
      BytesStay();
    }

    /** Where the answer of a lookup is from: it is the truth, as the cache holds it or the
        server just said, or else the error of a publish that left a file of the path due. */
    ghost predicate Asked(asked: bool, answer: C.Outcome, files: set<StagedFile>, name: string, now: int)
      reads files, backend.server, backend.cache
    {
      if asked then
        && P.Reports(answer, StatTruth(backend.server.View(), Key(name)))
        && BackedBy(C.Key(Key(name), false), answer, backend.cache.values, now, backend.server.answered)
      else answer.Failed? && StillPending(files, name)
    }

    /** stat: publish what is pending on the path, then ask the backend. */
    method Lookup(name: string, now: int) returns (outcome: C.Outcome, asked: bool)
      requires Valid() && IsMountName(name)
      modifies openFiles, backend.cache, backend.server
      ensures Valid() && !outcome.Listed?
      ensures Asked(asked, outcome, openFiles, name, now)
      ensures asked ==> forall f :: f in openFiles && f.name == name ==> !f.dirty
      ensures forall f :: f in openFiles ==> f.Content() == old(f.Content()) && (f.dirty ==> old(f.dirty))
      ensures backend.server.files - {Key(name)} == old(backend.server.files) - {Key(name)}
      ensures old(Sound()) ==> Sound()
    {
      var ok, error := PublishPending(name);
      if !ok {
        return C.Failed(error), false;
      }
      outcome := AskBackend(name, now);
      asked := true;
    }

    method AskBackend(name: string, now: int) returns (outcome: C.Outcome)
      requires Valid() && IsMountName(name)
      modifies backend.cache, backend.server`answered
      ensures Valid() && !outcome.Listed?
      ensures BackedBy(C.Key(Key(name), false), outcome, backend.cache.values, now, backend.server.answered)
      ensures P.Reports(outcome, StatTruth(backend.server.View(), Key(name)))
      ensures old(Sound()) ==> Sound()
    {
      outcome := backend.Stat(name, now);
    }

    /** Stat: a successful lookup reports exactly the bytes of the path's writer. */
    method Stat(path: string, now: int)
      returns (r: Result<C.Entry, Error>, ghost answer: C.Outcome, ghost asked: bool)
      requires Valid()
      modifies openFiles, backend.cache, backend.server
      ensures Valid()
      ensures match answer
              case Found(entry) => r == Success(entry)
              case Failed(error) => r == Failure(if Is(error, NotExist) then Sentinel(NotExist) else error)
              case Listed(_) => false
      ensures Asked(asked, answer, openFiles, CleanMountPath(path), now)
      ensures old(Sound()) ==> Sound()
      ensures old(Sound()) && r.Success? ==>
                forall w :: w in openFiles && w.name == CleanMountPath(path) && w.writePermitted ==>
                  !w.dirty && r.value.size == Size64(|old(w.Content())|) && !r.value.directory
      ensures forall f :: f in openFiles ==> f.Content() == old(f.Content()) && (f.dirty ==> old(f.dirty))
      ensures backend.server.files - {Key(CleanMountPath(path))}
              == old(backend.server.files) - {Key(CleanMountPath(path))}
      ensures r.Success? ==> C.Found(r.value) == StatTruth(backend.server.View(), Key(CleanMountPath(path)))
    {
      MountNameKey(path);
      var outcome;
      outcome, asked := Lookup(CleanMountPath(path), now);
      answer := outcome;
      if outcome.Failed? {
        r := Failure(if Is(outcome.error, NotExist) then Sentinel(NotExist) else outcome.error);
      } else {
        r := Success(outcome.entry);
      }
    }

    // ------------------------------------------------------------------- opening

    /** download, while the quota's mutex is held: on failure any beginning has arrived. */
    method Download(name: string, temporary: string, ghost size: int, now: int) returns (ok: bool)
      requires store.Valid() && IsMountName(name) && IsStagingFile(store.dir, temporary)
               && BytesAt(store.dir, temporary) == []
      requires Key(name) in backend.server.files && size == Size64(|backend.server.files[Key(name)]|)
      requires Quota(store.dir, store.limits, InDirectory(temporary), size) == Granted
      modifies store`dir, store`journal
      ensures store.Valid() && IsStagingFile(store.dir, temporary)
      ensures store.dir - {temporary} == old(store.dir) - {temporary}
      ensures ok ==> BytesAt(store.dir, temporary) == backend.server.files[Key(name)]
      ensures QuotaRun(old(store.dir), store.limits, store.dir)
    {
      NoChange(store.dir, store.limits);
      var content := backend.OpenRead(name);
      if content.None? {
        return false;
      }
      ok := *;
      ok := ok && |content.value| <= INT64_MAX;
      var arrived: nat :| arrived <= Size64(|content.value|);
      arrived := if ok then |content.value| else arrived;
      var node := Regular(Blob(content.value[..arrived]), now);
      OneResize(store.dir, store.limits, temporary, size, node);
      store.Put(temporary, node);
    }

    /** The deferred os.Remove of a staging file that no handle took over. */
    method Discard(temporary: string)
      requires store.Valid() && IsStaging(temporary)
      modifies store`dir, store`journal
      ensures store.Valid() && (store.dir == old(store.dir) || store.dir == old(store.dir) - {temporary})
      ensures QuotaRun(old(store.dir), store.limits, store.dir)
    {
      NoChange(store.dir, store.limits);
      var removed: bool := *;
      if removed {
        OneChange(store.dir, store.limits, Removed(temporary));
        store.Erase(temporary);
      }
    }

    /** Everything OpenFile does between the lookup and the new handle: a staging file of
        its own, filled from the server if the open keeps the old content. */
    method Stage(name: string, download: bool, size: int, now: int)
      returns (temporary: Option<string>, error: OpenError)
      requires store.Valid() && !store.locked && IsMountName(name) && TotalBytes(store.dir) <= INT64_MAX
      requires download ==> Key(name) in backend.server.files && size == Size64(|backend.server.files[Key(name)]|)
      modifies store`dir, store`locked, store`journal
      ensures store.Valid() && !store.locked
      ensures QuotaRun(old(store.dir), store.limits, store.dir)
      ensures Keeps(old(store.dir), store.dir)
      ensures temporary.None? ==> IsStagingError(error)
      ensures temporary.None? ==> store.dir == old(store.dir) || exists t :: LeftOver(old(store.dir), store.dir, t)
      ensures temporary.Some? ==>
                && IsStaging(temporary.value) && IsStagingFile(store.dir, temporary.value)
                && LeftOver(old(store.dir), store.dir, temporary.value)
                && BytesAt(store.dir, temporary.value) == if download then backend.server.files[Key(name)] else []
    {
      hide QuotaRun, Quota, Keeps, Key, IsMountName, StagingNames;
      ghost var before, limits := store.dir, store.limits;
      NoChange(before, limits);
      KeepsItself(before);
      temporary, error := None, CacheFailed;
      var created := store.CreateStaging(now);
      if created.None? {
        return;
      }
      var t := created.value;
      assert store.dir - {t} == before;
      OneChange(before, limits, Created(t, now));
      TotalReplace(before, t, store.dir[t]);
      ghost var empty := store.dir;
      var ok: bool := *;
      if ok && download {
        var refused := store.LockResize(InDirectory(t), size);
        if refused.Granted? {
          ok := Download(name, t, size, now);
          store.Unlock();
          error := DownloadFailed;
        } else {
          NoChange(empty, limits);
          ok, error := false, OverQuota(refused);
        }
      } else {
        NoChange(empty, limits);
      }
      RunsCompose(before, empty, store.dir, limits);
      var ready: bool := *;
      if ok && ready {
        StagingAdded(before, store.dir, t);
        return Some(t), error;
      }
      ghost var filled := store.dir;
      Discard(t);
      assert LeftOver(before, filled, t);
      StagingAdded(before, store.dir, t);
      RunsCompose(before, filled, store.dir, limits);
    }

    /** A directory that only gained entries leaves every open file as it was. */
    twostate lemma GrowthKeepsValid()
      requires old(Valid()) && openFiles == old(openFiles) && Keeps(old(store.dir), store.dir) && Accounted()
      requires store.Valid() && !store.locked && unchanged(backend, backend.cache, backend.server)
               && unchanged(openFiles)
      ensures Valid()
      ensures forall f :: f in openFiles ==> f.Content() == old(f.Content()) && f.temporary in old(store.dir)
      ensures old(Faithful()) ==> Faithful()
    {
      forall f | f in openFiles
        ensures f.Content() == old(f.Content()) && f.Valid() && !f.closed && f.temporary in old(store.dir)
      {
        assert old(f.Valid()) && old(!f.closed);
      }
      forall f | old(Faithful()) && f in openFiles && f.store == store && f.writePermitted && !f.dirty
        ensures IsPublished(f)
      {
        assert old(IsPublished(f));
      }
    }

    /** A handle just opened: clean with the server's bytes, or empty and due for upload. */
    ghost predicate Opened(f: StagedFile, name: string, flags: Flags)
      reads f, f.store, backend.server
    {
      && f.name == name && f.writePermitted == flags.write && f.appendMode == flags.append
      && f.position == 0 && f.requestedTime == ZERO_TIME && f.published == f.Content()
      && (f.dirty ==> f.Content() == [])
      && (!f.dirty ==> IsPublished(f))
    }

    method OpenStaged(name: string, entry: Option<C.Entry>, modTime: int, flags: Flags, now: int)
      returns (r: Result<StagedFile, OpenError>)
      requires Valid() && IsMountName(name) && TotalBytes(store.dir) <= INT64_MAX
      requires entry.Some? ==>
                 Key(name) in backend.server.files && entry.value.size == Size64(|backend.server.files[Key(name)]|)
      modifies this`openFiles, this`orphans, store`dir, store`locked, store`journal
      ensures Valid() && (old(Faithful()) ==> Faithful())
      ensures r.Failure? ==> openFiles == old(openFiles) && IsStagingError(r.error)
      ensures r.Success? ==>
                && fresh(r.value) && openFiles == old(openFiles) + {r.value} && Opened(r.value, name, flags)
                && r.value.dirty == (entry.None? || flags.truncate) && r.value.modTime == modTime
                && LeftOver(old(store.dir), store.dir, r.value.temporary) && orphans == old(orphans)
                && (old(OneWriter()) ==> (OneWriter() <==> OnlyWriter(r.value)))
      ensures r.Failure? ==> LeavesAtMostOne(old(store.dir), store.dir, old(orphans), orphans)
      ensures r.Failure? && old(OneWriter()) ==> OneWriter()
      ensures forall f :: f in old(openFiles) ==> f.Content() == old(f.Content())
      ensures QuotaRun(old(store.dir), store.limits, store.dir)
    {
      hide *;
      var keep := entry.Some? && !flags.truncate;
      var temporary, error := StageOwned(name, keep, if entry.Some? then entry.value.size else 0, now);
      if temporary.None? {
        return Failure(error);
      }
      var file := Adopt(name, temporary.value, keep, flags, modTime, now);
      return Success(file);
    }

    /** Until a handle owns it, the staging file counts as left over. */
    method StageOwned(name: string, keep: bool, size: int, now: int)
      returns (temporary: Option<string>, error: OpenError)
      requires Valid() && IsMountName(name) && TotalBytes(store.dir) <= INT64_MAX
      requires keep ==> Key(name) in backend.server.files && size == Size64(|backend.server.files[Key(name)]|)
      modifies this`orphans, store`dir, store`locked, store`journal
      ensures Valid() && (old(Faithful()) ==> Faithful())
      ensures QuotaRun(old(store.dir), store.limits, store.dir)
      ensures temporary.None? ==> IsStagingError(error)
      ensures temporary.None? ==> LeavesAtMostOne(old(store.dir), store.dir, old(orphans), orphans)
      ensures forall f :: f in openFiles ==> f.Content() == old(f.Content())
      ensures temporary.Some? ==>
                && LeftOver(old(store.dir), store.dir, temporary.value)
                && orphans == old(orphans) + {temporary.value} && temporary.value !in old(orphans)
                && Owned(temporary.value)
                && BytesAt(store.dir, temporary.value) == if keep then backend.server.files[Key(name)] else []
    {
      hide *;
      TableFacts();
      temporary, error := Stage(name, keep, size, now);
      Orphan(old(store.dir), temporary);
      GrowthKeepsValid();
    }

    lemma TableFacts()
      requires Valid()
      ensures Balanced(store.dir, initial, kept, orphans, openFiles) && store.Valid() && !store.locked
      ensures forall f :: f in openFiles ==> f.temporary in store.dir
    {
      assert forall f :: f in openFiles ==> f.Valid() && !f.closed;
    }

    /** A staging file that no handle owns yet. */
    ghost predicate Owned(t: string)
      reads this, store
    {
      && IsStaging(t) && IsStagingFile(store.dir, t) && t in orphans
      && t !in initial + kept
      && (forall f :: f in openFiles ==> f.temporary != t)
    }

    /** The new handle over a staging file of its own. */
    method Adopt(name: string, temporary: string, clean: bool, flags: Flags, modTime: int, now: int)
      returns (file: StagedFile)
      requires Valid() && IsMountName(name) && Owned(temporary)
      requires clean ==> Key(name) in backend.server.files
      requires BytesAt(store.dir, temporary) == if clean then backend.server.files[Key(name)] else []
      modifies this`openFiles, this`orphans
      ensures Valid() && (old(Faithful()) ==> Faithful())
      ensures fresh(file) && openFiles == old(openFiles) + {file} && Opened(file, name, flags)
      ensures file.dirty == !clean && file.modTime == modTime && file.temporary == temporary
      ensures orphans == old(orphans) - {temporary}
      ensures old(OneWriter()) ==> (OneWriter() <==> OnlyWriter(file))
    {
      hide *;
      OwnedFacts(temporary);
      file := new StagedFile(backend, store, profileID, recoveryRoot, name, temporary, flags.write, flags.append,
                             !clean, modTime, now);
      IsOpened(file, name, flags, clean);
      openFiles := openFiles + {file};
      orphans := orphans - {temporary};
      AdoptKeepsAccounts(file, temporary);
      AdoptKeepsValid(file);
      AdoptKeepsFaith(file);
      AdoptedWriter(file);
    }

    lemma OwnedFacts(t: string)
      requires Valid() && Owned(t)
      ensures store.Valid() && !store.locked && IsStaging(t) && IsStagingFile(store.dir, t) && Accounted()
      ensures forall f :: f in openFiles ==> f.temporary != t
    {
    }

    lemma IsOpened(file: StagedFile, name: string, flags: Flags, clean: bool)
      requires file.store == store && file.name == name && file.dirty == !clean
      requires file.writePermitted == flags.write && file.appendMode == flags.append
      requires file.position == 0 && file.requestedTime == ZERO_TIME && file.published == file.Content()
      requires clean ==> Key(name) in backend.server.files
      requires BytesAt(store.dir, file.temporary) == if clean then backend.server.files[Key(name)] else []
      ensures Opened(file, name, flags) && (!file.dirty ==> IsPublished(file))
    {
    }

    /** There is still one writer per path if and only if the new handle is the only one. */
    twostate lemma AdoptedWriter(new file: StagedFile)
      requires file !in old(openFiles) && openFiles == old(openFiles) + {file} && unchanged(old(openFiles))
      ensures old(OneWriter()) ==> (OneWriter() <==> OnlyWriter(file))
    {
      if old(OneWriter()) && OnlyWriter(file) {
        forall f, g | f in openFiles && g in openFiles && f.name == g.name && Writes(f) && Writes(g)
          ensures f == g
        {
          assert f in old(openFiles) ==> old(Writes(f));
          assert g in old(openFiles) ==> old(Writes(g));
        }
      }
    }

    twostate lemma AdoptKeepsAccounts(new file: StagedFile, temporary: string)
      requires old(Accounted()) && old(Owned(temporary)) && file.temporary == temporary
      requires unchanged(store) && openFiles == old(openFiles) + {file}
      requires kept == old(kept) && orphans == old(orphans) - {temporary}
      ensures Accounted()
    {
      TemporariesAdded(old(openFiles), file);
    }

    twostate lemma AdoptKeepsValid(new file: StagedFile)
      requires old(Valid()) && openFiles == old(openFiles) + {file} && unchanged(old(openFiles))
      requires unchanged(store, backend, backend.cache, backend.server) && Accounted()
      requires file.Valid() && !file.closed && file.backend == backend && file.store == store
               && file.profileID == profileID && file.recoveryRoot == recoveryRoot
      requires forall f :: f in old(openFiles) ==> f.temporary != file.temporary
      ensures Valid()
    {
      forall f | f in old(openFiles)
        ensures f.Valid() && !f.closed
      {
        assert old(f.Valid()) && old(!f.closed);
      }
    }

    twostate lemma AdoptKeepsFaith(new file: StagedFile)
      requires openFiles == old(openFiles) + {file} && unchanged(old(openFiles)) && unchanged(store, backend.server)
      requires !file.dirty ==> IsPublished(file)
      ensures old(Faithful()) ==> Faithful()
    {
      forall f | f in old(openFiles) && f.store == store && f.writePermitted && !f.dirty && old(Faithful())
        ensures IsPublished(f)
      {
        assert old(IsPublished(f));
      }
    }

    /** What staging left behind is remembered. */
    ghost method Orphan(before: Directory, staged: Option<string>)
      requires staged.Some? ==> LeftOver(before, store.dir, staged.value) && IsStagingFile(store.dir, staged.value)
      requires staged.None? ==> before == store.dir || exists t :: LeftOver(before, store.dir, t)
      requires forall f :: f in openFiles ==> f.temporary in before
      requires Balanced(before, initial, kept, orphans, openFiles)
      modifies this`orphans
      ensures Accounted() && (staged.Some? ==> Owned(staged.value))
      ensures staged.Some? ==> orphans == old(orphans) + {staged.value} && staged.value !in old(orphans)
      ensures staged.None? ==> LeavesAtMostOne(before, store.dir, old(orphans), orphans)
    {
      if staged.Some? || before != store.dir {
        var t :| LeftOver(before, store.dir, t) && (staged.Some? ==> t == staged.value);
        NamesAdded(before, store.dir, t);
        assert t !in StagingNames(before);
        orphans := orphans + {t};
      }
    }

    /** A clean handle and a clean writer of the same path hold the same bytes. */
    lemma SameBytes(f: StagedFile, w: StagedFile)
      requires Faithful() && w in openFiles && w.store == store && w.writePermitted && !w.dirty
      requires IsPublished(f) && f.name == w.name
      ensures f.Content() == w.Content()
    {
      assert IsPublished(w);
    }

    /** OpenFile. An open that does not start empty, as none does that neither creates nor
        truncates, holds exactly the bytes that the path's writer held when it was called,
        however that has been edited since its last publish. */
    method OpenFile(path: string, flags: Flags, now: int)
      returns (r: Result<Handle, OpenError>, ghost answer: C.Outcome, ghost asked: bool)
      requires Valid() && TotalBytes(store.dir) <= INT64_MAX
      modifies this`openFiles, this`orphans, openFiles, backend.cache, backend.server, store`dir, store`locked,
               store`journal
      ensures Valid() && QuotaRun(old(store.dir), store.limits, store.dir)
      ensures r == Failure(ReadOnly) <==>
                readOnly && (flags.write || flags.create || flags.truncate || flags.append)
      ensures r == Failure(ReadOnly) ==> backend.server.View() == old(backend.server.View())
      ensures r != Failure(ReadOnly) ==> Answers(r, flags, answer)
      ensures r != Failure(ReadOnly) ==> Asked(asked, answer, old(openFiles), CleanMountPath(path), now)
      ensures !(r.Success? && r.value.FileHandle?) ==> openFiles == old(openFiles)
      ensures r.Success? && r.value.FileHandle? ==>
                && fresh(r.value.file) && openFiles == old(openFiles) + {r.value.file}
                && OpenedAs(r.value.file, CleanMountPath(path), flags)
      ensures r.Success? && r.value.DirectoryHandle? ==>
                r.value.name == CleanMountPath(path) && !flags.write && !flags.truncate && !flags.append
      ensures r == Failure(AlreadyExists) ==> flags.create && flags.exclusive
      ensures r == Failure(DoesNotExist) ==> !flags.create
      ensures old(Sound()) ==>
                Faithful() && (Sound() <==> (r.Success? && r.value.FileHandle? ==> OnlyWriter(r.value.file)))
      ensures old(Sound()) && r.Success? && r.value.FileHandle? && !r.value.file.dirty ==>
                forall w :: w in old(openFiles) && w.name == CleanMountPath(path) && w.writePermitted ==>
                  r.value.file.Content() == old(w.Content())
      ensures forall f :: f in old(openFiles) ==> f.Content() == old(f.Content()) && (f.dirty ==> old(f.dirty))
      ensures OnlyAt(old(backend.server.files), backend.server.files, Key(CleanMountPath(path)))
      ensures r.Success? && r.value.FileHandle? ==> LeftOver(old(store.dir), store.dir, r.value.file.temporary)
      ensures r.Failure? && IsStagingError(r.error) ==>
                LeavesAtMostOne(old(store.dir), store.dir, old(orphans), orphans)
      ensures !(r.Failure? && IsStagingError(r.error)) ==> orphans == old(orphans)
      ensures (r.Success? && r.value.DirectoryHandle?) || (r.Failure? && !IsStagingError(r.error)) ==>
                store.dir == old(store.dir)
    {
      NoChange(store.dir, store.limits);
      if readOnly && Mutating(flags) {
        return Failure(ReadOnly), C.Failed(Sentinel(Other(0))), false;
      }
      MountNameKey(path);
      hide *;
      r, answer, asked := OpenCleaned(CleanMountPath(path), flags, now);
    }

    method OpenCleaned(name: string, flags: Flags, now: int)
      returns (r: Result<Handle, OpenError>, ghost answer: C.Outcome, ghost asked: bool)
      requires Valid() && TotalBytes(store.dir) <= INT64_MAX && IsMountName(name)
      modifies this`openFiles, this`orphans, openFiles, backend.cache, backend.server, store`dir, store`locked,
               store`journal
      ensures Valid() && QuotaRun(old(store.dir), store.limits, store.dir)
      ensures Answers(r, flags, answer) && r != Failure(ReadOnly)
      ensures Asked(asked, answer, old(openFiles), name, now)
      ensures !(r.Success? && r.value.FileHandle?) ==> openFiles == old(openFiles)
      ensures r.Success? && r.value.FileHandle? ==>
                && fresh(r.value.file) && openFiles == old(openFiles) + {r.value.file}
                   && OpenedAs(r.value.file, name, flags)
      ensures r.Success? && r.value.DirectoryHandle? ==>
                r.value.name == name && !flags.write && !flags.truncate && !flags.append
      ensures r == Failure(AlreadyExists) ==> flags.create && flags.exclusive
      ensures r == Failure(DoesNotExist) ==> !flags.create
      ensures old(Sound()) ==>
                Faithful() && (Sound() <==> (r.Success? && r.value.FileHandle? ==> OnlyWriter(r.value.file)))
      ensures old(Sound()) && r.Success? && r.value.FileHandle? && !r.value.file.dirty ==>
                forall w :: w in old(openFiles) && w.name == name && w.writePermitted ==>
                  r.value.file.Content() == old(w.Content())
      ensures forall f :: f in old(openFiles) ==> f.Content() == old(f.Content()) && (f.dirty ==> old(f.dirty))
      ensures OnlyAt(old(backend.server.files), backend.server.files, Key(name))
      ensures r.Success? && r.value.FileHandle? ==> LeftOver(old(store.dir), store.dir, r.value.file.temporary)
      ensures r.Failure? && IsStagingError(r.error) ==>
                LeavesAtMostOne(old(store.dir), store.dir, old(orphans), orphans)
      ensures !(r.Failure? && IsStagingError(r.error)) ==> orphans == old(orphans)
      ensures (r.Success? && r.value.DirectoryHandle?) || (r.Failure? && !IsStagingError(r.error)) ==>
                store.dir == old(store.dir)
    {
      hide *;
      NoChange(store.dir, store.limits);
      var outcome;
      outcome, asked := Lookup(name, now);
      answer := outcome;
      ChangedOnlyAt(old(backend.server.files), backend.server.files, Key(name));
      SoundIsFaithful();
      PlanFacts(flags, outcome, backend.server.View(), Key(name));
      var plan := PlanFor(flags, outcome);
      if plan.Refuse? {
        r := Failure(plan.error);
      } else if plan.OpenDirectory? {
        r := Success(DirectoryHandle(name));
      } else {
        r := OpenPlanned(name, plan, flags, now);
        FileOpened(r, plan);
        SoundIsFaithful();
      }
      PlanAnswers(flags, outcome, r);
    }

    lemma FileOpened(r: Result<Handle, OpenError>, plan: Plan)
      requires plan.KeepContent? || plan.StartEmpty?
      requires r.Failure? ==> IsStagingError(r.error)
      requires r.Success? ==>
                 && r.value.FileHandle? && (r.value.file.dirty <==> plan.StartEmpty?)
                 && r.value.file.modTime == (if plan.KeepContent? then plan.entry.modTime else plan.modTime)
      ensures OpensFile(r, plan.StartEmpty?, if plan.KeepContent? then plan.entry.modTime else plan.modTime)
      ensures r != Failure(ReadOnly)
    {
    }

    lemma SoundIsFaithful()
      ensures Sound() <==> OneWriter() && Faithful()
    {
    }

    /** As opened, with what the flags say about starting empty. */
    ghost predicate OpenedAs(f: StagedFile, name: string, flags: Flags)
      reads f, f.store, backend.server
    {
      && Opened(f, name, flags)
      && (f.dirty ==> flags.create || flags.truncate)
      && (flags.create && flags.exclusive ==> f.dirty)
    }

    /** The part of OpenFile that opens a file. */
    method OpenPlanned(name: string, plan: Plan, flags: Flags, now: int) returns (r: Result<Handle, OpenError>)
      requires Valid() && TotalBytes(store.dir) <= INT64_MAX && IsMountName(name)
               && (plan.KeepContent? || plan.StartEmpty?)
      requires plan.KeepContent? ==>
                 && HasFile(backend.server.View(), Key(name), plan.entry.size)
                 && !flags.truncate && !(flags.create && flags.exclusive)
      requires plan.StartEmpty? ==> flags.create || flags.truncate
      modifies this`openFiles, this`orphans, store`dir, store`locked, store`journal
      ensures Valid() && (old(Faithful()) ==> Faithful())
      ensures QuotaRun(old(store.dir), store.limits, store.dir)
      ensures r.Failure? ==>
                && openFiles == old(openFiles) && (old(OneWriter()) ==> OneWriter())
                && IsStagingError(r.error) && r.error != AlreadyExists && r.error != DoesNotExist
                && LeavesAtMostOne(old(store.dir), store.dir, old(orphans), orphans)
      ensures r.Success? ==>
                && r.value.FileHandle? && fresh(r.value.file) && openFiles == old(openFiles) + {r.value.file}
                && OpenedAs(r.value.file, name, flags) && (r.value.file.dirty <==> plan.StartEmpty?)
                && r.value.file.modTime == (if plan.KeepContent? then plan.entry.modTime else plan.modTime)
                && LeftOver(old(store.dir), store.dir, r.value.file.temporary) && orphans == old(orphans)
                && (old(OneWriter()) ==> (OneWriter() <==> OnlyWriter(r.value.file)))
      ensures forall f :: f in old(openFiles) ==> f.Content() == old(f.Content())
      ensures old(Faithful()) && r.Success? && !r.value.file.dirty ==>
                forall w :: w in old(openFiles) && w.name == name && w.writePermitted && !w.dirty ==>
                  r.value.file.Content() == w.Content()
    {
      hide *;
      PlannedFacts(name, plan);
      var entry := if plan.KeepContent? then Some(plan.entry) else None;
      var modTime := if plan.KeepContent? then plan.entry.modTime else plan.modTime;
      var file := OpenStaged(name, entry, modTime, flags, now);
      if file.Failure? {
        StagingErrors(file.error);
        return Failure(file.error);
      }
      OpenedFacts(file.value, name, flags);
      if plan.KeepContent? {
        SameAsWriters(file.value);
      }
      return Success(FileHandle(file.value));
    }

    lemma PlannedFacts(name: string, plan: Plan)
      requires plan.KeepContent? ==> HasFile(backend.server.View(), Key(name), plan.entry.size)
      ensures plan.KeepContent? ==>
                Key(name) in backend.server.files && plan.entry.size == Size64(|backend.server.files[Key(name)]|)
    {
    }

    lemma StagingErrors(error: OpenError)
      requires IsStagingError(error)
      ensures error != AlreadyExists && error != DoesNotExist
    {
    }

    lemma OpenedFacts(f: StagedFile, name: string, flags: Flags)
      requires Opened(f, name, flags) && (f.dirty ==> flags.create || flags.truncate)
      requires flags.create && flags.exclusive ==> f.dirty
      ensures OpenedAs(f, name, flags) && f.name == name
      ensures !f.dirty ==> IsPublished(f)
    {
    }

    /** A clean handle holds the bytes of every clean writer of its path. */
    lemma SameAsWriters(file: StagedFile)
      requires Valid() && IsPublished(file)
      ensures Faithful() ==>
                forall w :: w in openFiles && w.name == file.name && w.writePermitted && !w.dirty ==>
                  file.Content() == w.Content()
    {
      assert forall w :: w in openFiles ==> w.store == store;
      hide Valid, Accounted, IsPublished;
      forall w | Faithful() && w in openFiles && w.name == file.name && w.writePermitted && !w.dirty
        ensures file.Content() == w.Content()
      {
        SameBytes(file, w);
      }
    }

    // ------------------------------------------------------------------- closing

    twostate lemma LeavingKeepsValid(file: StagedFile)
      requires old(Valid()) && file in old(openFiles) && openFiles == old(openFiles) - {file}
      requires forall f :: f in openFiles ==> unchanged(f)
      requires OnlyOwn(old(store.dir), store.dir, file.temporary) && Accounted()
      requires backend.Valid() && store.Valid() && !store.locked
      ensures Valid()
      ensures forall f :: f in openFiles ==> f.Content() == old(f.Content())
    {
      forall f | f in openFiles
        ensures f.Valid() && !f.closed && f.Content() == old(f.Content())
      {
        assert old(f.Valid()) && old(!f.closed) && f.temporary != file.temporary;
      }
    }

    twostate lemma LeavingKeepsSound(file: StagedFile)
      requires old(Valid()) && file in old(openFiles) && openFiles == old(openFiles) - {file}
      requires forall f :: f in openFiles ==> unchanged(f)
      requires forall f :: f in openFiles ==> f.Content() == old(f.Content())
      requires backend.server.files - {Key(file.name)} == old(backend.server.files) - {Key(file.name)}
      requires old(file.dirty) || backend.server.files == old(backend.server.files)
      ensures old(Sound()) ==> Sound()
    {
      forall f | f in openFiles && f.store == store && f.writePermitted && !f.dirty && old(Sound())
        ensures IsPublished(f)
      {
        assert old(IsPublished(f)) && old(f.Valid()) && old(file.Valid());
        if old(file.dirty) {
          assert old(OneWriter()) && old(Writes(f)) && old(Writes(file));
          OtherKey(old(backend.server.files), backend.server.files, f.name, file.name);
        }
      }
    }

    twostate lemma SameWorld(n: string)
      requires unchanged(backend.server)
      ensures AgreeExcept(old(backend.server.View()), backend.server.View(), n)
    {
    }

    /** A file left the table; only its own staging, its recovery metadata and, if it had
        something to publish, its path on the server changed. */
    twostate lemma LeavingKeeps(file: StagedFile)
      requires old(Valid()) && file in old(openFiles) && openFiles == old(openFiles) - {file}
      requires forall f :: f in openFiles ==> unchanged(f)
      requires OnlyOwn(old(store.dir), store.dir, file.temporary)
      requires backend.Valid() && store.Valid() && !store.locked
      requires AgreeExcept(old(backend.server.View()), backend.server.View(), Key(file.name))
      requires old(file.dirty) || backend.server.files == old(backend.server.files)
      requires orphans == old(orphans)
      requires kept == old(kept) + if file.temporary in store.dir then {file.temporary} else {}
      ensures Valid() && (old(Sound()) ==> Sound())
      ensures forall f :: f in openFiles ==> f.Content() == old(f.Content())
    {
      assert old(file.Valid());
      NamesOwn(old(store.dir), store.dir, file.temporary);
      LeavingBalances(old(store.dir), store.dir, initial, old(kept), kept, orphans, old(openFiles), file);
      assert Accounted();
      RestAgrees(Key(file.name));
      hide Valid, Sound, Balanced, Accounted, OnlyOwn;
      LeavingKeepsValid(file);
      LeavingKeepsSound(file);
    }

    lemma Facts(file: StagedFile)
      requires Valid() && file in openFiles
      ensures file.Valid() && !file.closed && file.backend == backend && file.store == store
      ensures file.profileID == profileID && file.recoveryRoot == recoveryRoot
      ensures backend.Valid() && store.Valid() && !store.locked
      ensures IsStaging(file.temporary) && file.temporary in store.dir
      ensures forall f :: f in openFiles ==> IsMountName(f.name)
      ensures forall f :: f in openFiles && f != file ==> f.temporary != file.temporary
      ensures Sound() && file.writePermitted && !file.dirty ==>
                HasBytes(backend.server.files, Key(file.name), file.Content())
    {
      assert Sound() && file.writePermitted && !file.dirty ==> IsPublished(file);
    }

    /** Close of an open file, with its removal from the table. A successful close of a
        writer leaves its bytes on the server. */
    method CloseFile(file: StagedFile, now: int) returns (ok: bool, synced: bool)
      requires Valid() && file in openFiles
      modifies this`openFiles, this`kept, file`dirty, file`closed, file`modTime, file`published, backend.cache,
               backend.server
      modifies store`dir, store`journal, store`asked
      ensures Valid() && (old(Sound()) ==> Sound())
      ensures file.closed && openFiles == old(openFiles) - {file}
      ensures AgreeExcept(old(backend.server.View()), backend.server.View(), Key(file.name))
      ensures ok ==> synced && file.temporary !in store.dir && kept == old(kept)
      ensures kept == old(kept) + if file.temporary in store.dir then {file.temporary} else {}
      ensures forall f :: f in openFiles ==> f.Content() == old(f.Content())
      ensures synced && (file.writePermitted || old(file.dirty)) ==> file.published == old(file.Content())
      ensures synced && (old(file.dirty) || (old(Sound()) && file.writePermitted)) ==>
                HasBytes(backend.server.files, Key(file.name), old(file.Content()))
      ensures !synced ==> file.Content() == old(file.Content()) && file.temporary in store.dir
      ensures !synced ==> store.asked == old(store.asked) + [InDirectory(file.temporary)]
      ensures QuotaRun(old(store.dir), store.limits, store.dir)
    {
      hide *;
      Facts(file);
      ok, synced := CloseHandle(file, now);
      openFiles := openFiles - {file};
      kept := kept + if file.temporary in store.dir then {file.temporary} else {};
      LeavingKeeps(file);
    }

    method CloseHandle(file: StagedFile, now: int) returns (ok: bool, synced: bool)
      requires file.Valid() && !file.closed && file.backend == backend && file.store == store && backend.Valid()
      modifies file`dirty, file`closed, file`modTime, file`published, backend.cache, backend.server, store`dir,
               store`journal, store`asked
      ensures backend.Valid() && store.Valid() && !store.locked && file.closed
      ensures OnlyOwn(old(store.dir), store.dir, file.temporary)
      ensures AgreeExcept(old(backend.server.View()), backend.server.View(), Key(file.name))
      ensures old(file.dirty) || backend.server.files == old(backend.server.files)
      ensures ok ==> synced && file.temporary !in store.dir
      ensures synced && (file.writePermitted || old(file.dirty)) ==> file.published == old(file.Content())
      ensures synced && old(file.dirty) ==> HasBytes(backend.server.files, Key(file.name), old(file.Content()))
      ensures !synced ==> file.Content() == old(file.Content()) && file.temporary in store.dir
      ensures !synced ==> store.asked == old(store.asked) + [InDirectory(file.temporary)]
      ensures QuotaRun(old(store.dir), store.limits, store.dir)
    {
      assert file.temporary in store.dir && !store.locked && store.Valid();
      ok, synced := file.Close(now);
    }

    /** closePreserving, with its removal from the table. */
    method PreserveFile(file: StagedFile, now: int) returns (ok: bool)
      requires Valid() && file in openFiles
      modifies this`openFiles, this`kept, file`closed, store`dir, store`journal, store`asked
      ensures Valid() && file.closed && openFiles == old(openFiles) - {file}
      ensures file.Content() == old(file.Content()) && file.temporary in store.dir
      ensures kept == old(kept) + if file.temporary in store.dir then {file.temporary} else {}
      ensures forall f :: f in openFiles ==> f.Content() == old(f.Content())
      ensures OnlyRecorded(old(store.dir), store.dir, file.temporary)
      ensures ok ==> Recoverable(store.dir, file.temporary, file.Content(), profileID,
                                 RecoveryRemotePath(recoveryRoot, file.name), FORCE_DISCONNECT)
      ensures store.asked == old(store.asked) + [InDirectory(file.temporary)]
      ensures QuotaRun(old(store.dir), store.limits, store.dir)
    {
      hide *;
      Facts(file);
      ok := file.ClosePreserving(now);
      openFiles := openFiles - {file};
      kept := kept + if file.temporary in store.dir then {file.temporary} else {};
      SameWorld(Key(file.name));
      LeavingKeeps(file);
    }

    // ------------------------------------------------- calls on an open handle

    /** Write through an open handle: whatever comes of it, refused, partial or complete,
        the table stays sound. */
    method Write(w: StagedFile, buffer: Bytes) returns (written: nat, ok: bool)
      requires Valid() && w in openFiles && TotalBytes(store.dir) <= INT64_MAX
      requires w.position <= INT64_MAX && |buffer| <= INT64_MAX
      modifies w, store`dir, store`locked, store`journal
      ensures Valid() && (old(Sound()) ==> Sound())
      ensures written <= |buffer| && (ok ==> written == |buffer|)
      ensures w.Content() == if written == 0 then old(w.Content())
                             else Overwrite(old(w.Content()), buffer[..written],
                                            if w.appendMode then |old(w.Content())| else old(w.position))
      ensures written > 0 && w.writePermitted ==> w.dirty
      ensures forall f :: f in openFiles && f != w ==> f.Content() == old(f.Content())
      ensures QuotaRun(old(store.dir), store.limits, store.dir)
    {
      Facts(w);
      written, ok := w.Write(buffer);
      assert w.Kept();
      hide *;
      EditKeepsTable(w);
    }

    method WriteAt(w: StagedFile, buffer: Bytes, offset: int) returns (written: nat, ok: bool)
      requires Valid() && w in openFiles && TotalBytes(store.dir) <= INT64_MAX
      requires |buffer| <= INT64_MAX && offset <= INT64_MAX
      modifies w, store`dir, store`locked, store`journal
      ensures Valid() && (old(Sound()) ==> Sound())
      ensures written <= |buffer| && (ok ==> written == |buffer|) && (offset < 0 ==> written == 0)
      ensures w.Content() == if written == 0 then old(w.Content())
              else Overwrite(old(w.Content()), buffer[..written], offset)
      ensures written > 0 && w.writePermitted ==> w.dirty
      ensures forall f :: f in openFiles && f != w ==> f.Content() == old(f.Content())
      ensures QuotaRun(old(store.dir), store.limits, store.dir)
    {
      Facts(w);
      written, ok := w.WriteAt(buffer, offset);
      assert w.Kept();
      hide *;
      EditKeepsTable(w);
    }

    method Truncate(w: StagedFile, size: int) returns (ok: bool, refused: Resize)
      requires Valid() && w in openFiles && TotalBytes(store.dir) <= INT64_MAX && size <= INT64_MAX
      modifies w, store`dir, store`locked, store`journal
      ensures Valid() && (old(Sound()) ==> Sound())
      ensures ok ==> size >= 0
      ensures w.Content() == if ok && size >= 0 then CutTo(old(w.Content()), size) else old(w.Content())
      ensures ok ==> |w.Content()| == size && forall i :: 0 <= i < size ==>
                       w.Content()[i] == if i < |old(w.Content())| then old(w.Content())[i] else 0
      ensures ok && w.writePermitted ==> w.dirty
      ensures forall f :: f in openFiles && f != w ==> f.Content() == old(f.Content())
      ensures QuotaRun(old(store.dir), store.limits, store.dir)
    {
      Facts(w);
      ok, refused := w.Truncate(size);
      assert w.Kept();
      hide *;
      EditKeepsTable(w);
    }

    /** Sync of an open handle. */
    method Sync(w: StagedFile) returns (ok: bool, error: Error)
      requires Valid() && w in openFiles
      modifies w, backend.cache, backend.server
      ensures Valid() && (old(Sound()) ==> Sound())
      ensures ok ==> !w.dirty
      ensures !ok ==> w.dirty == old(w.dirty)
      ensures backend.server.files - {Key(w.name)} == old(backend.server.files) - {Key(w.name)}
      ensures old(Sound()) && ok && w.writePermitted ==> IsPublished(w)
    {
      Facts(w);
      if w.dirty {
        ok, error := PublishOne(w);
      } else {
        ok, error := w.Sync();
        CleanSyncKeeps(w);
      }
      if old(Sound()) && ok && w.writePermitted {
        assert w.store == store;
      }
    }

    /** The sync of a clean handle changes nothing but, possibly, cached answers. */
    twostate lemma CleanSyncKeeps(w: StagedFile)
      requires old(Valid()) && w in openFiles && unchanged(this, store)
      requires forall f :: f in openFiles && f != w ==> unchanged(f)
      requires backend.Valid() && w.Valid() && w.closed == old(w.closed) && w.dirty == old(w.dirty)
      requires backend.server.View() == old(backend.server.View())
      ensures Valid() && (old(Sound()) ==> Sound())
    {
      PublishKeepsValid(w);
      assert forall f :: f in openFiles ==> Writes(f) == old(Writes(f)) && f.dirty == old(f.dirty);
      forall f | f in openFiles && f.store == store && f.writePermitted && !f.dirty && old(Sound())
        ensures IsPublished(f)
      {
        assert old(IsPublished(f));
      }
    }

    /** Edits through any handle keep the table valid and sound. */
    twostate lemma EditKeepsTable(w: StagedFile)
      requires old(Valid()) && w in openFiles && unchanged(this)
      requires w.Kept() && backend.Valid() && unchanged(backend.server)
      requires forall f :: f in openFiles && f != w ==> unchanged(f)
      ensures Valid() && (old(Sound()) ==> Sound())
      ensures forall f :: f in openFiles && f != w ==> f.Content() == old(f.Content())
    {
      EditKeepsValid(w);
      if old(Sound()) {
        EditKeepsFaith(w);
        assert forall f :: f in openFiles && Writes(f) ==> old(Writes(f));
      }
    }

    twostate lemma EditKeepsFaith(w: StagedFile)
      requires old(Faithful()) && openFiles == old(openFiles) && unchanged(backend.server)
      requires forall f :: f in openFiles && f != w ==> unchanged(f) && f.Content() == old(f.Content())
      requires w.writePermitted && !w.dirty ==> !old(w.dirty) && w.Content() == old(w.Content())
      ensures Faithful()
    {
      forall f | f in openFiles && f.store == store && f.writePermitted && !f.dirty
        ensures IsPublished(f)
      {
        assert old(IsPublished(f));
      }
    }

    twostate lemma EditKeepsValid(w: StagedFile)
      requires old(Valid()) && w in openFiles && unchanged(this)
      requires backend.Valid() && w.Valid() && w.closed == old(w.closed)
      requires store.dir - {w.temporary} == old(store.dir) - {w.temporary}
      requires forall f :: f in openFiles && f != w ==> unchanged(f)
      ensures Valid()
      ensures forall f :: f in openFiles && f != w ==> f.Content() == old(f.Content())
    {
      assert old(w.Valid()) && old(!w.closed);
      NamesSame(old(store.dir), store.dir, w.temporary);
      forall f | f in openFiles
        ensures f.Valid() && !f.closed
        ensures f != w ==> f.Content() == old(f.Content())
      {
        assert old(f.Valid()) && old(!f.closed);
        if f != w {
          assert f.temporary != w.temporary;
          assert f.temporary in store.dir - {w.temporary};
        }
      }
    }

    // ----------------------------------------------------------- modification times

    /** setModTime: on the server first, then on every open handle of the path. */
    method SetModTime(path: string, time: int) returns (ok: bool)
      requires Valid()
      modifies openFiles, backend.cache, backend.server`times, store`dir, store`journal
      ensures Valid() && (old(Sound()) ==> Sound())
      ensures ok ==>
                && Key(CleanMountPath(path)) in backend.server.times
                && backend.server.times[Key(CleanMountPath(path))] == time
                && forall f :: f in openFiles && f.name == CleanMountPath(path) ==> f.requestedTime == time
      ensures forall f :: f in openFiles && f.name != CleanMountPath(path) ==>
                f.requestedTime == old(f.requestedTime) && f.modTime == old(f.modTime)
      ensures backend.server.times - {Key(CleanMountPath(path))}
              == old(backend.server.times) - {Key(CleanMountPath(path))}
      ensures forall f :: f in openFiles ==> f.Content() == old(f.Content()) && f.dirty == old(f.dirty)
    {
      hide *;
      MountNameKey(path);
      var name := CleanMountPath(path);
      ok := TouchServer(name, time);
      if ok {
        ok := TouchFiles(name, time);
      }
    }

    method TouchServer(name: string, time: int) returns (ok: bool)
      requires Valid() && IsMountName(name)
      modifies backend.cache, backend.server`times
      ensures Valid() && (old(Sound()) ==> Sound())
      ensures ok ==> Key(name) in backend.server.times && backend.server.times[Key(name)] == time
      ensures backend.server.times - {Key(name)} == old(backend.server.times) - {Key(name)}
    {
      ok := backend.SetModTime(name, time);
      assert forall f :: f in openFiles && old(IsPublished(f)) ==> IsPublished(f);
    }

    method TouchFiles(name: string, time: int) returns (ok: bool)
      requires Valid()
      modifies openFiles, store`dir, store`journal
      ensures Valid() && (old(Sound()) ==> Sound())
      ensures ok ==> forall f :: f in openFiles && f.name == name ==> f.requestedTime == time
      ensures forall f :: f in openFiles && f.name != name ==>
                f.requestedTime == old(f.requestedTime) && f.modTime == old(f.modTime)
      ensures forall f :: f in openFiles ==> f.Content() == old(f.Content()) && f.dirty == old(f.dirty)
    {
      hide *;
      ok := true;
      var pending := openFiles;
      while pending != {}
        invariant Valid() && (old(Sound()) ==> Sound()) && pending <= openFiles
        invariant ok ==> forall f :: f in openFiles && f.name == name && f !in pending ==> f.requestedTime == time
        invariant forall f :: f in openFiles && f.name != name ==>
                    f.requestedTime == old(f.requestedTime) && f.modTime == old(f.modTime)
        invariant forall f :: f in openFiles ==> f.Content() == old(f.Content()) && f.dirty == old(f.dirty)
        decreases |pending|
      {
        var f :| f in pending;
        pending := pending - {f};
        if f.name == name {
          var touched := TouchFile(f, time);
          ok := ok && touched;
        }
      }
    }

    method TouchFile(w: StagedFile, time: int) returns (ok: bool)
      requires Valid() && w in openFiles
      modifies w, store`dir, store`journal
      ensures Valid() && (old(Sound()) ==> Sound())
      ensures ok ==> w.requestedTime == time
      ensures forall f :: f in openFiles ==> f.Content() == old(f.Content())
      ensures w.dirty == old(w.dirty)
    {
      Facts(w);
      ok := w.SetModTime(time);
      assert w.Kept();
      hide *;
      EditKeepsValid(w);
      EditKeepsTable(w);
    }
  }

  ghost predicate Balanced(dir: Directory, initial: set<string>, kept: set<string>, orphans: set<string>,
                           files: set<StagedFile>) {
    && StagingNames(dir) == initial + kept + orphans + Temporaries(files)
    && (initial + kept + orphans) !! Temporaries(files)
  }

  lemma LeavingBalances(before: Directory, after: Directory, initial: set<string>, kept: set<string>,
                        nowKept: set<string>, orphans: set<string>, files: set<StagedFile>, file: StagedFile)
    requires file in files && forall f :: f in files && f != file ==> f.temporary != file.temporary
    requires var own := if file.temporary in after then {file.temporary} else {};
             nowKept == kept + own && StagingNames(after) == StagingNames(before) - {file.temporary} + own
    requires Balanced(before, initial, kept, orphans, files)
    ensures Balanced(after, initial, nowKept, orphans, files - {file})
  {
    assert files == (files - {file}) + {file};
    TemporariesAdded(files - {file}, file);
    assert file.temporary !in Temporaries(files - {file});
  }

  function StagingNames(dir: Directory): set<string> {
    set name | name in dir && IsStaging(name)
  }

  function Temporaries(files: set<StagedFile>): set<string> {
    set f | f in files :: f.temporary
  }

  lemma TemporariesAdded(files: set<StagedFile>, file: StagedFile)
    ensures Temporaries(files + {file}) == Temporaries(files) + {file.temporary}
  {
    forall t | t in Temporaries(files) + {file.temporary}
      ensures t in Temporaries(files + {file})
    {
      if t in Temporaries(files) {
        var f :| f in files && f.temporary == t;
        assert f in files + {file};
      } else {
        assert file in files + {file};
      }
    }
  }

  /** The two agree on every name but n. */
  ghost predicate OnlyAt(before: map<string, Bytes>, after: map<string, Bytes>, n: string) {
    before - {n} == after - {n}
  }

  lemma ChangedOnlyAt(before: map<string, Bytes>, after: map<string, Bytes>, n: string)
    requires before - {n} == after - {n}
    ensures OnlyAt(before, after, n)
  {
  }

  ghost predicate HasBytes(files: map<string, Bytes>, n: string, bytes: Bytes) {
    n in files && files[n] == bytes
  }

  /** Either nothing happened, or one staging file was left behind and is on record. */
  ghost predicate LeavesAtMostOne(before: Directory, after: Directory, orphans: set<string>, nowOrphans: set<string>) {
    || (after == before && nowOrphans == orphans)
    || exists t :: LeftOver(before, after, t) && nowOrphans == orphans + {t}
  }

  lemma NothingLeftBehind(dir: Directory, orphans: set<string>)
    ensures LeavesAtMostOne(dir, dir, orphans, orphans)
  {
  }

  /** One staging file more than before. */
  ghost predicate LeftOver(before: Directory, after: Directory, t: string) {
    IsStaging(t) && t !in before && t in after && after - {t} == before
  }

  lemma NamesAdded(before: Directory, after: Directory, t: string)
    requires LeftOver(before, after, t)
    ensures StagingNames(after) == StagingNames(before) + {t}
  {
    assert forall name :: name != t ==> (name in after <==> name in after - {t});
  }

  lemma NamesSame(before: Directory, after: Directory, t: string)
    requires t in before && t in after && after - {t} == before - {t}
    ensures StagingNames(after) == StagingNames(before)
  {
    assert forall name :: name != t ==>
             (name in after <==> name in after - {t}) && (name in before <==> name in before - {t});
  }

  lemma NamesOwn(before: Directory, after: Directory, t: string)
    requires IsStaging(t) && OnlyOwn(before, after, t)
    ensures StagingNames(after) == StagingNames(before) - {t} + if t in after then {t} else {}
  {
  }

  /** Every entry of the first directory is in the second, unchanged. */
  ghost predicate Keeps(before: Directory, after: Directory) {
    forall name :: name in before ==> name in after && after[name] == before[name]
  }

  lemma KeepsItself(dir: Directory)
    ensures Keeps(dir, dir)
  {
  }

  lemma StagingAdded(before: Directory, after: Directory, t: string)
    requires t !in before && after - {t} == before
    ensures Keeps(before, after)
  {
    forall name | name in before
      ensures name in after && after[name] == before[name]
    {
      assert name in after - {t};
    }
  }

  lemma OtherKey(before: map<string, Bytes>, after: map<string, Bytes>, name: string, changed: string)
    requires before - {Key(changed)} == after - {Key(changed)}
    requires IsMountName(name) && IsMountName(changed) && name != changed
    ensures Key(name) != Key(changed)
    ensures Key(name) in before <==> Key(name) in after
    ensures Key(name) in before ==> before[Key(name)] == after[Key(name)]
  {
    var rest := before - {Key(changed)};
    assert Key(name)[1..] == (if name == "." then "" else name);
    assert Key(changed)[1..] == (if changed == "." then "" else changed);
    assert Key(name) in before ==> Key(name) in rest;
    assert Key(name) in after ==> Key(name) in rest;
  }
}
