/** The session guard: it counts the open handles of a mounted drive and decides when the
    drive may be detached safely, or seals every handle on a forced detach. Tracked handles
    are numbered in the order in which they were given out. */
module Guard {
  import opened Wrappers
  import opened Paths
  import opened Errors
  import opened RecoveryStore
  import opened QuotaRuns
  import opened Uploads
  import opened CachedBackend
  import opened Staging
  import opened Mount
  import C = MetadataCache

  /** How a tracked handle ended, with the bytes it held at that moment. For one that closed
      well, also what the server then held under its path, and whether it owed the server
      its bytes: it had unpublished ones, or was the writer of its path. For one that was
      sealed, whether that succeeded. */
  datatype End =
    | Live
    | Published(staged: Bytes, served: Option<Bytes>, owed: bool)
    | Failed(staged: Bytes)
    | Sealed(staged: Bytes, preserved: bool)

  const DIRECTORY_END := Published([], None, false)

  function Served(files: map<string, Bytes>, name: string): Option<Bytes> {
    if name in files then Some(files[name]) else None
  }

  function OnDisk(dir: Directory, temporary: string): Option<Bytes> {
    if temporary in dir then Some(BytesAt(dir, temporary)) else None
  }

  /** What the close of a file comes to: bytes that were owed are on the server after a
      success, and after a failure they are there or still in the staging file. */
  ghost predicate ClosedAs(end: End, ok: bool, content: Bytes, owed: bool, served: Option<Bytes>,
                           onDisk: Option<Bytes>)
  {
    && end == (if ok then Published(content, served, owed) else Failed(content))
    && (ok && owed ==> served == Some(content))
    && (ok ==> onDisk == None)
    && (!ok ==> onDisk == Some(content) || (owed ==> served == Some(content)))
  }

  /** What the seal of a handle comes to: a success leaves its bytes in the staging file and
      offers them for recovery. */
  ghost predicate SealedAs(dir: Directory, profile: string, root: string, handle: Handle, end: End, staged: Bytes) {
    && end.Sealed? && end.staged == staged
    && match handle
       case DirectoryHandle(_) => end.preserved
       case FileHandle(file) =>
         end.preserved ==>
           Recoverable(dir, file.temporary, staged, profile, RecoveryRemotePath(root, file.name), FORCE_DISCONNECT)
  }

  /** The seal of a file with this staging file failed. */
  ghost predicate SealFailed(handles: seq<Handle>, ends: seq<End>, sealed: set<nat>, temporary: string) {
    exists t :: t in sealed && t < |handles| && t < |ends| && handles[t].FileHandle?
                && handles[t].file.temporary == temporary && ends[t].Sealed? && !ends[t].preserved
  }

  /** The warnings name the staging files whose seal failed, each of them and no other. */
  ghost predicate Warned(handles: seq<Handle>, ends: seq<End>, sealed: set<nat>, warnings: seq<string>) {
    forall w :: w in warnings <==> SealFailed(handles, ends, sealed, w)
  }

  /** Nothing but recovery metadata for the file of this handle was written. */
  ghost predicate FiledOnly(before: Directory, after: Directory, handle: Handle) {
    match handle
    case DirectoryHandle(_) => after == before
    case FileHandle(file) => OnlyRecorded(before, after, file.temporary)
  }

  /** Two handles do not share a staging file. */
  ghost predicate Apart(a: Handle, b: Handle) {
    a.FileHandle? && b.FileHandle? ==>
      IsStaging(a.file.temporary) && IsStaging(b.file.temporary) && a.file.temporary != b.file.temporary
  }

  lemma WarnedStep(handles: seq<Handle>, before: seq<End>, after: seq<End>, sealed: set<nat>, t: nat,
                   warnings: seq<string>, more: seq<string>)
    requires Warned(handles, before, sealed, warnings) && t !in sealed && t < |handles| == |before| == |after|
    requires after == before[t := after[t]] && after[t].Sealed?
    requires more == if !after[t].preserved && handles[t].FileHandle? then [handles[t].file.temporary] else []
    ensures Warned(handles, after, sealed + {t}, warnings + more)
  {
    forall w
      ensures w in warnings + more <==> SealFailed(handles, after, sealed + {t}, w)
    {
      if w in warnings {
        var u :| u in sealed && u < |handles| && handles[u].FileHandle? && handles[u].file.temporary == w
                 && before[u].Sealed? && !before[u].preserved;
        assert u in sealed + {t} && after[u] == before[u];
      }
      if w in more {
        assert t in sealed + {t};
      }
      if SealFailed(handles, after, sealed + {t}, w) {
        var u :| u in sealed + {t} && u < |handles| && handles[u].FileHandle? && handles[u].file.temporary == w
                 && after[u].Sealed? && !after[u].preserved;
        assert u != t ==> before[u] == after[u];
      }
    }
  }

  /** Metadata written for another staging file leaves an offer as it is. */
  lemma StillSealed(before: Directory, after: Directory, profile: string, root: string, handle: Handle, end: End,
                    staged: Bytes, other: Handle)
    requires SealedAs(before, profile, root, handle, end, staged)
    requires FiledOnly(before, after, other) && Apart(handle, other)
    ensures SealedAs(after, profile, root, handle, end, staged)
  {
    if handle.FileHandle? && other.FileHandle? {
      var mine, theirs := handle.file.temporary, other.file.temporary;
      MetadataIsNoTemporary(mine);
      assert mine + METADATA_SUFFIX != theirs + METADATA_SUFFIX by {
        assert (mine + METADATA_SUFFIX)[..|mine|] == mine;
        assert |mine| == |theirs| ==> (theirs + METADATA_SUFFIX)[..|mine|] == theirs;
      }
      OnlyRecordedKeeps(before, after, theirs);
    }
  }

  datatype StopResult = Ready | DirectoryFailed | FilesOpen(count: int) | CloseFailed(staging: seq<string>)

  datatype GuardError = Stopped | Inner(error: OpenError)

  /** The guard's own state; `handles` and `ends` cover every handle ever given out. */
  datatype Book = Book(
    open: int,
    stopping: bool,
    closeErr: seq<string>,          // the staging files whose close failed
    files: set<nat>,
    closed: set<nat>,               // trackedFile's closed flags
    directoriesClosed: set<nat>,    // directoryFile's own closed flags
    handles: seq<Handle>,
    ends: seq<End>,
    forced: bool)

  predicate IsFile(b: Book, t: nat) {
    t < |b.handles| && b.handles[t].FileHandle?
  }

  /** The staged file behind a handle, if it is one. */
  function Behind(handle: Handle): set<StagedFile> {
    if handle.FileHandle? then {handle.file} else {}
  }

  function Staged(b: Book): set<StagedFile> {
    set t | t in b.files && IsFile(b, t) :: b.handles[t].file
  }

  ghost predicate OneTracker(b: Book) {
    forall t, u :: t in b.files && u in b.files && IsFile(b, t) && IsFile(b, u) && t != u ==>
      b.handles[t].file != b.handles[u].file
  }

  ghost predicate EndOk(b: Book, t: nat)
    requires t < |b.handles| == |b.ends|
  {
    && (b.ends[t].Live? <==> t in b.files)
    && (t in b.closed <==> t !in b.files)
    && (t in b.directoriesClosed <==> !IsFile(b, t) && t !in b.files)
    && (b.ends[t].Published? && b.ends[t].owed ==> b.ends[t].served == Some(b.ends[t].staged))
    && (!b.forced && b.closeErr == [] && t !in b.files ==> b.ends[t].Published?)
  }

  /** The guard's invariant: the count is the number of tracked handles, a handle is closed
      exactly when it is no longer tracked, and unless a close failed or the detach was
      forced every closed handle had all its bytes published. */
  ghost predicate Counted(b: Book) {
    && |b.handles| == |b.ends| && b.open == |b.files|
    && (forall t :: t in b.files || t in b.closed || t in b.directoriesClosed ==> t < |b.handles|)
    && OneTracker(b)
    && (forall t :: 0 <= t < |b.handles| ==> EndOk(b, t))
    && (b.forced ==> b.stopping)
  }

  /** Every handle ever given out closed well, and the server then held the bytes of each
      that owed it any. */
  ghost predicate AllPublished(b: Book) {
    && |b.ends| == |b.handles|
    && forall t :: 0 <= t < |b.handles| ==>
         && b.ends[t].Published?
         && (b.ends[t].owed ==> b.ends[t].served == Some(b.ends[t].staged))
  }

  function AfterTrack(b: Book, handle: Handle): Book {
    b.(open := b.open + 1, files := b.files + {|b.handles|}, handles := b.handles + [handle], ends := b.ends + [Live])
  }

  function AfterClosing(b: Book, t: nat, end: End): Book
    requires t < |b.handles| == |b.ends|
  {
    b.(open := b.open - 1,
       files := b.files - {t},
       ends := b.ends[t := end],
       closed := b.closed + {t},
       directoriesClosed := if IsFile(b, t) then b.directoriesClosed else b.directoriesClosed + {t},
       closeErr :=
         if end.Failed? then b.closeErr + [if IsFile(b, t) then b.handles[t].file.temporary else ""] else b.closeErr)
  }

  lemma TrackKeeps(b: Book, handle: Handle)
    requires Counted(b) && !b.stopping && (handle.FileHandle? ==> handle.file !in Staged(b))
    ensures Counted(AfterTrack(b, handle))
  {
    hide EndOk, OneTracker, Staged;
    var next, n := AfterTrack(b, handle), |b.handles|;
    assert n !in b.files;
    forall t | 0 <= t < |next.handles|
      ensures EndOk(next, t)
    {
      TrackedEnd(b, handle, t);
    }
    StillOneTracker(b, handle);
  }

  lemma TrackedEnd(b: Book, handle: Handle, t: nat)
    requires |b.handles| == |b.ends| && t <= |b.handles|
    requires forall u :: u in b.files || u in b.closed || u in b.directoriesClosed ==> u < |b.handles|
    requires t < |b.handles| ==> EndOk(b, t)
    ensures EndOk(AfterTrack(b, handle), t)
  {
  }

  lemma StillOneTracker(b: Book, handle: Handle)
    requires OneTracker(b) && (handle.FileHandle? ==> handle.file !in Staged(b))
    requires forall u :: u in b.files ==> u < |b.handles|
    ensures OneTracker(AfterTrack(b, handle))
  {
    assert forall t :: t in b.files && IsFile(b, t) ==> b.handles[t].file in Staged(b);
    hide Staged;
  }

  lemma TrackStages(b: Book, handle: Handle)
    requires Counted(b)
    ensures Staged(AfterTrack(b, handle)) == Staged(b) + Behind(handle)
  {
    var next, n := AfterTrack(b, handle), |b.handles|;
    assert forall u :: u in b.files ==> u < n && (IsFile(next, u) <==> IsFile(b, u));
    assert forall u :: u in b.files ==> next.handles[u] == b.handles[u];
    assert IsFile(next, n) == handle.FileHandle? && next.handles[n] == handle;
    hide IsFile, AfterTrack, Counted;
    OneMoreStaged(b, next, n);
  }

  lemma OneMoreStaged(b: Book, next: Book, n: nat)
    requires next.files == b.files + {n} && n < |next.handles| && (IsFile(next, n) <==> next.handles[n].FileHandle?)
    requires forall u :: u in b.files ==> u < |b.handles| && u < |next.handles| && next.handles[u] == b.handles[u]
    requires forall u :: u in b.files ==> (IsFile(next, u) <==> IsFile(b, u))
    ensures Staged(next) == Staged(b) + Behind(next.handles[n])
  {
    forall f | f in Staged(b) + Behind(next.handles[n])
      ensures f in Staged(next)
    {
      if f in Staged(b) {
        var u :| u in b.files && IsFile(b, u) && b.handles[u].file == f;
        assert u in next.files && IsFile(next, u) && next.handles[u].file == f;
      } else {
        assert n in next.files && IsFile(next, n) && next.handles[n].file == f;
      }
    }
  }

  lemma StopKeeps(b: Book)
    requires Counted(b)
    ensures Counted(b.(stopping := true)) && Staged(b.(stopping := true)) == Staged(b)
    ensures b.files == {} && b.closeErr == [] && !b.forced ==> AllPublished(b.(stopping := true))
  {
    var next := b.(stopping := true);
    assert forall t :: t in b.files ==> IsFile(next, t) == IsFile(b, t);
    forall t | 0 <= t < |b.handles|
      ensures EndOk(next, t)
      ensures b.files == {} && b.closeErr == [] && !b.forced ==>
                && next.ends[t].Published?
                && (next.ends[t].owed ==> next.ends[t].served == Some(next.ends[t].staged))
    {
      assert EndOk(b, t);
    }
  }

  lemma ForceKeeps(b: Book)
    requires Counted(b)
    ensures Counted(b.(stopping := true, forced := true)) && Staged(b.(stopping := true, forced := true)) == Staged(b)
  {
    var next := b.(stopping := true, forced := true);
    assert forall t :: t in b.files ==> IsFile(next, t) == IsFile(b, t);
    forall t | 0 <= t < |b.handles|
      ensures EndOk(next, t)
    {
      assert EndOk(b, t);
    }
  }

  lemma SealedIsHonest(b: Book, end: End)
    requires b.forced && end.Sealed?
    ensures Honest(b, end)
  {
  }

  ghost predicate Honest(b: Book, end: End) {
    && !end.Live? && (end.Sealed? ==> b.forced)
    && (end.Published? && end.owed ==> end.served == Some(end.staged))
  }

  /** How a close, not a seal, may end. */
  ghost predicate GoodEnd(end: End, ok: bool) {
    && (if ok then end.Published? else end.Failed?)
    && (end.Published? && end.owed ==> end.served == Some(end.staged))
  }

  lemma DirectoryEndIsGood()
    ensures GoodEnd(DIRECTORY_END, true)
  {
  }

  lemma GoodEndIsHonest(b: Book, handle: Handle, end: End, ok: bool)
    requires GoodEnd(end, ok)
    ensures Honest(b, end) && !ok == end.Failed? && (ok <==> end.Published?)
    ensures Behind(handle) == if handle.FileHandle? then {handle.file} else {}
  {
  }

  lemma ClosingKeeps(b: Book, t: nat, end: End)
    requires Counted(b) && t in b.files && Honest(b, end)
    ensures Counted(AfterClosing(b, t, end))
    ensures Staged(AfterClosing(b, t, end)) == Staged(b) - Behind(b.handles[t])
  {
    var next := AfterClosing(b, t, end);
    forall u | 0 <= u < |next.handles|
      ensures EndOk(next, u)
    {
      assert EndOk(b, u);
    }
    forall f | f in Staged(b) && !(IsFile(b, t) && f == b.handles[t].file)
      ensures f in Staged(next)
    {
      var u :| u in b.files && IsFile(b, u) && b.handles[u].file == f;
      assert u in next.files && IsFile(next, u) && next.handles[u].file == f;
    }
  }

  /** The loop over the directory handles: those not yet looked at are `pending`. */
  ghost predicate ClosingDirectories(start: Book, b: Book, pending: set<nat>) {
    && Counted(b) && Staged(b) == Staged(start) && pending <= b.files <= start.files
    && b.closeErr == start.closeErr && b.handles == start.handles && b.forced == start.forced
       && b.stopping == start.stopping
    && (forall t :: t in start.files && IsFile(start, t) ==> t in b.files)
    && |b.ends| == |start.ends| && (forall t :: 0 <= t < |b.ends| && IsFile(start, t) ==> b.ends[t] == start.ends[t])
    && (forall t :: t in b.files && !IsFile(b, t) ==> t in pending && t !in b.directoriesClosed)
  }

  lemma NoneClosedYet(b: Book)
    requires Counted(b)
    ensures ClosingDirectories(b, b, b.files)
  {
    forall t | t in b.files && !IsFile(b, t)
      ensures t !in b.directoriesClosed
    {
      assert EndOk(b, t);
    }
  }

  lemma DirectoryStep(start: Book, b: Book, pending: set<nat>, t: nat)
    requires ClosingDirectories(start, b, pending) && t in pending
    ensures Counted(b) && t in b.files && t < |b.handles| == |b.ends| && Honest(b, DIRECTORY_END)
    ensures IsFile(b, t) ==> ClosingDirectories(start, b, pending - {t})
    ensures !IsFile(b, t) ==>
              t !in b.directoriesClosed
                && ClosingDirectories(start, AfterClosing(b, t, DIRECTORY_END), pending - {t})
  {
    if !IsFile(b, t) {
      var next := AfterClosing(b, t, DIRECTORY_END);
      assert b.handles[t].DirectoryHandle?;
      ClosingKeeps(b, t, DIRECTORY_END);
      assert Staged(next) == Staged(b);
    }
  }

  lemma DirectoriesAreClosed(start: Book, b: Book)
    requires ClosingDirectories(start, b, {})
    ensures Counted(b) && Staged(b) == Staged(start)
    ensures b.files == set t | t in start.files && IsFile(start, t)
    ensures b.closeErr == start.closeErr && b.handles == start.handles
    ensures b.forced == start.forced && b.stopping == start.stopping
    ensures |b.ends| == |start.ends| && forall t :: 0 <= t < |b.ends| && IsFile(start, t) ==> b.ends[t] == start.ends[t]
  {
  }

  /** As long as every close succeeded and none was forced, no close kept its staging. */
  ghost predicate NothingKept(forced: bool, closeErr: seq<string>, kept: set<string>) {
    !forced && closeErr == [] ==> kept == {}
  }

  lemma KeptForReason(forced: bool, closeErr: seq<string>, kept: set<string>)
    requires forced || closeErr != []
    ensures NothingKept(forced, closeErr, kept)
  {
  }

  class Guard {
    const fs: FileSystem
    var open: int
    var stopping: bool
    var closeErr: seq<string>
    var files: set<nat>
    var closed: set<nat>
    var directoriesClosed: set<nat>
    var handles: seq<Handle>
    ghost var ends: seq<End>
    ghost var forced: bool

    ghost function View(): Book
      reads this
    {
      Book(open, stopping, closeErr, files, closed, directoriesClosed, handles, ends, forced)
    }

    ghost predicate Valid()
      reads this, fs, fs.openFiles, fs.store, fs.backend, fs.backend.server, fs.backend.cache
    {
      fs.Valid() && Counted(View()) && fs.openFiles == Staged(View()) && (forced ==> files == {})
        && NothingKept(forced, closeErr, fs.kept)
    }

    constructor (fs: FileSystem)
      requires fs.Valid() && fs.openFiles == {} && fs.kept == {}
      ensures Valid() && this.fs == fs && View() == Book(0, false, [], {}, {}, {}, [], [], false)
    {
      this.fs, open, stopping, closeErr := fs, 0, false, [];
      files, closed, directoriesClosed, handles, ends, forced := {}, {}, {}, [], [], false;
    }

    lemma Base()
      requires Valid()
      ensures fs.Valid() && Counted(View()) && fs.openFiles == Staged(View()) && (forced ==> files == {} && stopping)
      ensures NothingKept(forced, closeErr, fs.kept)
      ensures View().handles == handles && View().ends == ends && |handles| == |ends|
    {
    }

    /** A handle's closed flag is set exactly when it is no longer tracked. */
    lemma ClosedFlag(t: nat)
      requires Counted(View()) && t < |handles|
      ensures t in closed <==> t !in files
    {
      assert EndOk(View(), t);
    }

    lemma Tracked(t: nat)
      requires Counted(View()) && t in files && fs.openFiles == Staged(View())
      ensures t < |handles| && IsFile(View(), t) == handles[t].FileHandle?
      ensures handles[t].FileHandle? ==> handles[t].file in fs.openFiles
      ensures !handles[t].FileHandle? ==> t !in directoriesClosed
      ensures View().forced == forced && View().handles == handles
    {
      assert EndOk(View(), t);
    }

    lemma Whole()
      requires fs.Valid() && Counted(View()) && fs.openFiles == Staged(View()) && (forced ==> files == {})
               && NothingKept(forced, closeErr, fs.kept)
      ensures Valid()
    {
    }

    method Track(handle: Handle) returns (t: nat)
      requires Counted(View()) && !stopping && (handle.FileHandle? ==> handle.file !in Staged(View()))
      modifies this
      ensures Counted(View()) && View() == AfterTrack(old(View()), handle)
      ensures Staged(View()) == old(Staged(View())) + Behind(handle)
      ensures forced == old(forced) && closeErr == old(closeErr) && stopping == old(stopping) && t == |old(handles)|
              && |handles| == t + 1 && handles[t] == handle
    {
      TrackKeeps(View(), handle);
      TrackStages(View(), handle);
      t := |handles|;
      open, files, handles, ends := open + 1, files + {|handles|}, handles + [handle], ends + [Live];
    }

    /** The bookkeeping of a close, with the handle's own result. */
    method Untrack(t: nat, failed: bool, ghost end: End)
      requires Counted(View()) && t in files && Honest(View(), end) && failed == end.Failed?
      modifies this
      ensures Counted(View()) && View() == AfterClosing(old(View()), t, end)
      ensures Staged(View()) == old(Staged(View())) - Behind(old(handles)[t])
      ensures forced == old(forced) && stopping == old(stopping) && files == old(files) - {t} && handles == old(handles)
      ensures t in closed
      ensures ends == old(ends)[t := end]
              && (if end.Failed? then closeErr != [] else closeErr == old(closeErr))
      ensures forall u :: u in files && u !in old(directoriesClosed) ==> u !in directoriesClosed
    {
      ClosingKeeps(View(), t, end);
      if failed {
        closeErr := closeErr + [if handles[t].FileHandle? then handles[t].file.temporary else ""];
      }
      if !handles[t].FileHandle? {
        directoriesClosed := directoriesClosed + {t};
      }
      open, files, closed, ends := open - 1, files - {t}, closed + {t}, ends[t := end];
    }

    /** While a stop is under way no operation gets through. Otherwise the open is the mount's
        own, with all that it keeps, and the new handle is tracked. */
    method OpenFile(path: string, flags: Flags, now: int)
      returns (r: Result<nat, GuardError>, ghost answer: C.Outcome, ghost asked: bool)
      requires Valid() && TotalBytes(fs.store.dir) <= INT64_MAX
      modifies this, fs`openFiles, fs`orphans, fs.openFiles, fs.backend.cache, fs.backend.server, fs.store
      ensures Valid()
      ensures stopping ==> r == Failure(Stopped) && unchanged(this, fs, fs.store, fs.backend.cache, fs.backend.server)
      ensures !stopping && r.Failure? ==> r.error.Inner?
      ensures r == Failure(Inner(ReadOnly)) <==>
                !stopping && fs.readOnly && (flags.write || flags.create || flags.truncate || flags.append)
      ensures r.Success? ==> r.value < |handles| && Answers(Success(handles[r.value]), flags, answer)
      ensures r.Failure? && r.error.Inner? && r.error.error != ReadOnly ==>
                Answers(Failure(r.error.error), flags, answer)
      ensures !stopping && r != Failure(Inner(ReadOnly)) ==>
                fs.Asked(asked, answer, old(fs.openFiles), CleanMountPath(path), now)
      ensures r.Failure? ==> View() == old(View())
      ensures r.Success? ==> r.value == |old(handles)| && |handles| == |old(handles)| + 1
                             && View() == AfterTrack(old(View()), handles[r.value])
                             && Opens(handles[r.value], path, flags)
      ensures r.Success? && handles[r.value].FileHandle? ==>
                && fresh(handles[r.value].file)
                && fs.OpenedAs(handles[r.value].file, CleanMountPath(path), flags)
                && LeftOver(old(fs.store.dir), fs.store.dir, handles[r.value].file.temporary)
      ensures old(fs.Sound()) ==>
                (fs.Sound() <==>
                 (r.Success? && handles[r.value].FileHandle? ==> fs.OnlyWriter(handles[r.value].file)))
      ensures old(fs.Sound()) && r.Success? && handles[r.value].FileHandle? && !handles[r.value].file.dirty ==>
                forall w :: w in old(fs.openFiles) && w.name == CleanMountPath(path) && w.writePermitted ==>
                  handles[r.value].file.Content() == old(w.Content())
      ensures forall f :: f in old(fs.openFiles) ==> f.Content() == old(f.Content()) && (f.dirty ==> old(f.dirty))
      ensures OnlyAt(old(fs.backend.server.files), fs.backend.server.files, Key(CleanMountPath(path)))
      ensures r.Success? || r.error.Stopped? || !IsStagingError(r.error.error) ==> fs.orphans == old(fs.orphans)
      ensures r.Failure? ==> LeavesAtMostOne(old(fs.store.dir), fs.store.dir, old(fs.orphans), fs.orphans)
    {
      hide *;
      NothingLeftBehind(fs.store.dir, fs.orphans);
      ChangedOnlyAt(fs.backend.server.files, fs.backend.server.files, Key(CleanMountPath(path)));
      answer, asked := C.Failed(Sentinel(Closed)), false;
      if stopping {
        r := Failure(Stopped);
        return;
      }
      Base();
      var handle;
      handle, answer, asked := fs.OpenFile(path, flags, now);
      if handle.Failure? {
        if !IsStagingError(handle.error) {
          NothingLeftBehind(fs.store.dir, fs.orphans);
        }
        Whole();
        r := Failure(Inner(handle.error));
        return;
      }
      OpensFacts(handle.value, path, flags);
      var t := Enter(handle.value);
      r := Success(t);
    }

    lemma OpensFacts(handle: Handle, path: string, flags: Flags)
      requires handle.FileHandle? ==> fs.OpenedAs(handle.file, CleanMountPath(path), flags)
      requires handle.DirectoryHandle? ==> handle.name == CleanMountPath(path) && !flags.write
      ensures Opens(handle, path, flags) && Behind(handle) == if handle.FileHandle? then {handle.file} else {}
    {
    }

    /** The handle is for this path and was opened as asked. */
    predicate Opens(handle: Handle, path: string, flags: Flags) {
      match handle
      case DirectoryHandle(name) => name == CleanMountPath(path) && !flags.write
      case FileHandle(f) =>
        f.name == CleanMountPath(path) && f.writePermitted == flags.write && f.appendMode == flags.append
    }

    method Enter(handle: Handle) returns (t: nat)
      requires fs.Valid() && Counted(View()) && !stopping && (handle.FileHandle? ==> handle.file !in Staged(View()))
      requires fs.openFiles == Staged(View()) + Behind(handle)
      requires !forced && NothingKept(forced, closeErr, fs.kept)
      modifies this
      ensures Valid() && !stopping && t == |old(handles)| && |handles| == t + 1 && handles[t] == handle
      ensures View() == AfterTrack(old(View()), handles[t])
    {
      hide *;
      t := Track(handle);
      Whole();
    }

    method Stat(path: string, now: int)
      returns (r: Result<C.Entry, Error>, ghost answer: C.Outcome, ghost asked: bool)
      requires Valid()
      modifies fs.openFiles, fs.backend.cache, fs.backend.server
      ensures Valid()
      ensures !stopping ==>
                match answer
                case Found(entry) => r == Success(entry)
                case Failed(error) => r == Failure(if Is(error, NotExist) then Sentinel(NotExist) else error)
                case Listed(_) => false
      ensures !stopping ==> fs.Asked(asked, answer, fs.openFiles, CleanMountPath(path), now)
      ensures stopping ==>
                r == Failure(Sentinel(Closed)) && unchanged(fs.openFiles, fs.backend.cache, fs.backend.server)
      ensures old(fs.Sound()) ==> fs.Sound()
      ensures old(fs.Sound()) && r.Success? ==>
                forall w :: w in fs.openFiles && w.name == CleanMountPath(path) && w.writePermitted ==>
                  !w.dirty && r.value.size == Size64(|old(w.Content())|) && !r.value.directory
      ensures forall f :: f in fs.openFiles ==> f.Content() == old(f.Content()) && (f.dirty ==> old(f.dirty))
    {
      if stopping {
        return Failure(Sentinel(Closed)), C.Failed(Sentinel(Closed)), false;
      }
      r, answer, asked := fs.Stat(path, now);
    }

    /** trackedFile.Close: a failure is remembered for ever, with what the file held; after a
        success the server holds it, if it was owed. The other handles keep their bytes. */
    method Close(t: nat, now: int) returns (ok: bool)
      requires Valid() && t < |handles|
      modifies this, fs`openFiles, fs`kept, fs.openFiles, fs.backend.cache, fs.backend.server, fs.store
      ensures Valid() && handles == old(handles) && (old(fs.Sound()) ==> fs.Sound())
      ensures t in closed
      ensures t !in old(files) ==> !ok && unchanged(this, fs, fs.store, fs.backend.cache, fs.backend.server)
      ensures t in old(files) ==> |ends| == |old(ends)| && t < |ends| && View() == AfterClosing(old(View()), t, ends[t])
                                  && Honest(old(View()), ends[t]) && (ok <==> ends[t].Published?)
      ensures t in old(files) && handles[t].FileHandle? ==>
                && ClosedAs(ends[t], ok, old(handles[t].file.Content()),
                            old(handles[t].file.dirty || (fs.Sound() && handles[t].file.writePermitted)),
                            Served(fs.backend.server.files, Key(handles[t].file.name)),
                            OnDisk(fs.store.dir, handles[t].file.temporary))
                && AgreeExcept(old(fs.backend.server.View()), fs.backend.server.View(), Key(handles[t].file.name))
                && (ok && handles[t].file.writePermitted ==>
                      handles[t].file.published == old(handles[t].file.Content()))
      ensures t in old(files) && handles[t].DirectoryHandle? ==>
                ok && ends[t] == DIRECTORY_END && unchanged(fs, fs.store, fs.backend.cache, fs.backend.server)
      ensures forall f :: f in fs.openFiles ==> f.Content() == old(f.Content())
    {
      hide *;
      Base();
      ClosedFlag(t);
      if t in closed {
        return false;
      }
      Tracked(t);
      ghost var before, end := View(), Live;
      if handles[t].FileHandle? {
        ok, end := CloseStaged(handles[t].file, now);
      } else {
        ok, end := t !in directoriesClosed, DIRECTORY_END;
        DirectoryEndIsGood();
      }
      GoodEndIsHonest(before, handles[t], end, ok);
      assert View() == before;
      Untrack(t, !ok, end);
      assert View() == AfterClosing(before, t, end);
      if !ok {
        KeptForReason(forced, closeErr, fs.kept);
      }
      Whole();
    }

    /** The close of a file, and how it ended. */
    method CloseStaged(file: StagedFile, now: int) returns (ok: bool, ghost end: End)
      requires fs.Valid() && file in fs.openFiles
      modifies fs`openFiles, fs`kept, file, fs.backend.cache, fs.backend.server, fs.store
      ensures fs.Valid() && fs.openFiles == old(fs.openFiles) - {file} && (old(fs.Sound()) ==> fs.Sound())
      ensures ClosedAs(end, ok, old(file.Content()), old(file.dirty || (fs.Sound() && file.writePermitted)),
                       Served(fs.backend.server.files, Key(file.name)), OnDisk(fs.store.dir, file.temporary))
      ensures AgreeExcept(old(fs.backend.server.View()), fs.backend.server.View(), Key(file.name))
      ensures GoodEnd(end, ok) && (ok ==> fs.kept == old(fs.kept))
      ensures ok && file.writePermitted ==> file.published == old(file.Content())
      ensures forall f :: f in fs.openFiles ==> f.Content() == old(f.Content())
    {
      hide *;
      ghost var staged, owed := file.Content(), file.dirty || (fs.Sound() && file.writePermitted);
      fs.Facts(file);
      var synced;
      ok, synced := fs.CloseFile(file, now);
      ghost var served := Served(fs.backend.server.files, Key(file.name));
      end := if ok then Published(staged, served, owed) else Failed(staged);
      ClosedFacts(file, end, ok, synced, staged, owed);
    }

    lemma ClosedFacts(file: StagedFile, end: End, ok: bool, synced: bool, staged: Bytes, owed: bool)
      requires file.store == fs.store
      requires var served := Served(fs.backend.server.files, Key(file.name));
               end == if ok then Published(staged, served, owed) else Failed(staged)
      requires ok ==> synced && file.temporary !in fs.store.dir
      requires synced && owed ==> HasBytes(fs.backend.server.files, Key(file.name), staged)
      requires !synced ==> file.Content() == staged && file.temporary in fs.store.dir
      ensures ClosedAs(end, ok, staged, owed, Served(fs.backend.server.files, Key(file.name)),
                       OnDisk(fs.store.dir, file.temporary))
      ensures GoodEnd(end, ok)
    {
    }

    /** Writes and truncates between the guard's own steps do not concern it. */
    twostate lemma EditKeepsValid(w: StagedFile)
      requires old(Valid()) && unchanged(this, fs, fs.backend, fs.backend.cache, fs.backend.server) && w in fs.openFiles
      requires w.Valid() && w.closed == old(w.closed)
      requires fs.store.dir - {w.temporary} == old(fs.store.dir) - {w.temporary}
      requires forall f :: f in fs.openFiles && f != w ==> unchanged(f)
      ensures Valid()
    {
      fs.EditKeepsValid(w);
    }

    // ----------------------------------------------------------------- stopping

    method CloseDirectories() returns (failed: bool)
      requires Counted(View())
      modifies this
      ensures Counted(View()) && Staged(View()) == old(Staged(View())) && !failed
      ensures files == set t | t in old(files) && old(IsFile(View(), t))
      ensures closeErr == old(closeErr) && handles == old(handles) && forced == old(forced) && stopping == old(stopping)
      ensures |ends| == |old(ends)| == |handles|
      ensures forall t :: 0 <= t < |ends| && handles[t].FileHandle? ==> ends[t] == old(ends)[t]
    {
      NoneClosedYet(View());
      failed := false;
      ghost var start := View();
      var pending := files;
      hide *;
      while pending != {}
        invariant !failed && ClosingDirectories(start, View(), pending)
        decreases |pending|
      {
        var t :| t in pending;
        var alreadyClosed := CloseDirectory(t, start, pending);
        failed := failed || alreadyClosed;
        pending := pending - {t};
      }
      DirectoriesAreClosed(start, View());
      EndsOf(start);
    }

    lemma EndsOf(start: Book)
      requires |View().ends| == |start.ends| && View().handles == start.handles && Counted(View())
      requires forall t :: 0 <= t < |View().ends| && IsFile(start, t) ==> View().ends[t] == start.ends[t]
      ensures ends == View().ends && handles == View().handles && |ends| == |start.ends| == |handles|
      ensures forall t :: 0 <= t < |ends| && handles[t].FileHandle? ==> ends[t] == start.ends[t]
    {
      assert forall t :: 0 <= t < |ends| ==> (IsFile(start, t) <==> handles[t].FileHandle?);
    }

    /** One turn of the loop over the tracked handles. */
    method CloseDirectory(t: nat, ghost start: Book, ghost pending: set<nat>) returns (alreadyClosed: bool)
      requires ClosingDirectories(start, View(), pending) && t in pending
      modifies this
      ensures !alreadyClosed && ClosingDirectories(start, View(), pending - {t})
    {
      alreadyClosed := false;
      DirectoryStep(start, View(), pending, t);
      if handles[t].DirectoryHandle? {
        alreadyClosed := t in directoriesClosed;
        hide *;
        Untrack(t, false, DIRECTORY_END);
      }
    }

    /** prepareStop closes the directory handles first; they never fail. It then succeeds
        exactly when no file handle is open and no close has ever failed, and in a session
        that was never forced every handle ever given out has then published its bytes. */
    method PrepareStop() returns (r: StopResult)
      requires Valid()
      modifies this
      ensures Valid() && !r.DirectoryFailed?
      ensures r.Ready? <==> old(closeErr) == [] && forall t :: t in old(files) ==> !old(IsFile(View(), t))
      ensures r.Ready? ==> stopping && open == 0 && files == {} && fs.openFiles == {}
      ensures r.Ready? && !forced ==> AllPublished(View()) && StagingNames(fs.store.dir) == fs.initial + fs.orphans
      ensures !r.Ready? ==> stopping == old(stopping) && files == set t | t in old(files) && old(IsFile(View(), t))
      ensures closeErr == old(closeErr) && handles == old(handles) && forced == old(forced)
      ensures |ends| == |old(ends)| == |handles|
      ensures forall t :: 0 <= t < |ends| && handles[t].FileHandle? ==> ends[t] == old(ends)[t]
      ensures r.FilesOpen? <==> files != {}
      ensures r.FilesOpen? ==> r.count == |files|
      ensures r.CloseFailed? ==> r.staging == closeErr
    {
      hide *;
      Base();
      var failed := CloseDirectories();
      assert forall t :: t in old(files) && old(IsFile(View(), t)) ==> t in files;
      EmptyIsZero();
      Whole();
      if failed {
        return DirectoryFailed;
      }
      if open != 0 {
        return FilesOpen(open);
      }
      if closeErr != [] {
        return CloseFailed(closeErr);
      }
      MarkStopped();
      return Ready;
    }

    /** The last step of a stop that nothing stands against. */
    method MarkStopped()
      requires Valid() && open == 0 && closeErr == []
      modifies this`stopping
      ensures Valid() && stopping && files == {} && fs.openFiles == {}
      ensures !forced ==> AllPublished(View()) && StagingNames(fs.store.dir) == fs.initial + fs.orphans
    {
      ghost var before := View();
      Base();
      StopKeeps(before);
      EmptyIsZero();
      NothingLeft();
      stopping := true;
      assert View() == before.(stopping := true);
      hide *;
      Whole();
    }

    lemma NothingLeft()
      requires fs.Valid() && fs.openFiles == {} && NothingKept(forced, closeErr, fs.kept) && closeErr == []
      ensures !forced ==> StagingNames(fs.store.dir) == fs.initial + fs.orphans
    {
    }

    /** Seals one handle: nothing is sent, the staging bytes stay. */
    method SealHandle(t: nat, now: int) returns (ok: bool, ghost end: End)
      requires fs.Valid() && t in files && t < |handles| && (handles[t].FileHandle? ==> handles[t].file in fs.openFiles)
      requires handles[t].DirectoryHandle? ==> t !in directoriesClosed
      modifies fs`openFiles, fs`kept, fs.openFiles, fs.store
      ensures fs.Valid() && fs.openFiles == old(fs.openFiles) - Behind(handles[t])
      ensures StagingKept(old(fs.store.dir), fs.store.dir)
      ensures SealedAs(fs.store.dir, fs.profileID, fs.recoveryRoot, handles[t], end,
                       if handles[t].FileHandle? then old(handles[t].file.Content()) else [])
      ensures end.Sealed? && end.preserved == ok
      ensures FiledOnly(old(fs.store.dir), fs.store.dir, handles[t])
      ensures handles[t].FileHandle? ==> handles[t].file.closed
      ensures forall f :: f in Behind(handles[t]) ==> f.closed
      ensures forall f :: f in fs.openFiles ==> unchanged(f) && f.Content() == old(f.Content())
    {
      if handles[t].FileHandle? {
        var file := handles[t].file;
        ghost var staged := file.Content();
        ok := fs.PreserveFile(file, now);
        end := Sealed(staged, ok);
        OnlyRecordedKeeps(old(fs.store.dir), fs.store.dir, file.temporary);
      } else {
        ok := t !in directoriesClosed;
        end := Sealed([], ok);
      }
    }

    method SealOne(t: nat, now: int) returns (warnings: seq<string>)
      requires fs.Valid() && Counted(View()) && fs.openFiles == Staged(View()) && forced && stopping && t in files
      requires t < |handles| == |ends| && (handles[t].FileHandle? ==> handles[t].file in fs.openFiles)
      modifies this, fs`openFiles, fs`kept, fs.openFiles, fs.store
      ensures fs.Valid() && Counted(View()) && fs.openFiles == Staged(View()) && forced && stopping
      ensures files == old(files) - {t} && closeErr == old(closeErr) && handles == old(handles)
      ensures |ends| == |old(ends)| && t < |ends| && ends == old(ends)[t := ends[t]] && ends[t].Sealed?
      ensures SealedAs(fs.store.dir, fs.profileID, fs.recoveryRoot, handles[t], ends[t],
                       if handles[t].FileHandle? then old(handles[t].file.Content()) else [])
      ensures FiledOnly(old(fs.store.dir), fs.store.dir, handles[t])
      ensures warnings == if !ends[t].preserved && handles[t].FileHandle? then [handles[t].file.temporary] else []
      ensures fs.openFiles <= old(fs.openFiles) && StagingKept(old(fs.store.dir), fs.store.dir)
      ensures forall f :: f in old(fs.openFiles) && f !in fs.openFiles ==> f.closed
      ensures forall f :: f in fs.openFiles ==> unchanged(f) && f.Content() == old(f.Content())
    {
      hide *;
      Tracked(t);
      var handle := handles[t];
      ghost var before, end := View(), Live;
      var ok;
      ok, end := SealHandle(t, now);
      assert View() == before;
      SealedIsHonest(before, end);
      Untrack(t, false, end);
      warnings := if !ok && handle.FileHandle? then [handle.file.temporary] else [];
    }

    /** forceStop: from any state, every handle is sealed with the bytes it held, nothing is
        uploaded, no staging file is changed or removed; a second call changes nothing and
        still reports the earlier close failures. */
    method ForceStop(now: int) returns (warnings: seq<string>)
      requires Valid()
      modifies this, fs`openFiles, fs`kept, fs.openFiles, fs.store
      ensures Valid() && stopping && forced && files == {} && open == 0 && fs.openFiles == {}
      ensures closeErr == old(closeErr) && handles == old(handles) && closeErr <= warnings
      ensures StagingKept(old(fs.store.dir), fs.store.dir)
      ensures forall f :: f in old(fs.openFiles) ==> f.closed
      ensures |ends| == |old(ends)| == |handles|
      ensures forall t :: 0 <= t < |ends| ==>
                if t !in old(files) then ends[t] == old(ends)[t]
                else
                  SealedAs(fs.store.dir, fs.profileID, fs.recoveryRoot, handles[t], ends[t],
                           if handles[t].FileHandle? then old(handles[t].file.Content()) else [])
      ensures Warned(handles, ends, old(files), warnings[|closeErr|..])
      ensures old(files) == {} ==>
                warnings == closeErr && unchanged(fs, fs.store)
                  && View() == old(View()).(stopping := true, forced := true)
    {
      hide *;
      Base();
      MarkForced();
      var more := SealAll(now);
      warnings := closeErr + more;
      KeptForReason(forced, closeErr, fs.kept);
      EmptyIsZero();
      Whole();
    }

    method MarkForced()
      requires Counted(View())
      modifies this`stopping, this`forced
      ensures Counted(View()) && Staged(View()) == old(Staged(View())) && stopping && forced
      ensures View() == old(View()).(stopping := true, forced := true)
    {
      ForceKeeps(View());
      stopping, forced := true, true;
    }

    /** The loop over every tracked handle. */
    method SealAll(now: int) returns (warnings: seq<string>)
      requires fs.Valid() && Counted(View()) && fs.openFiles == Staged(View()) && forced && stopping
      requires |handles| == |ends|
      modifies this, fs`openFiles, fs`kept, fs.openFiles, fs.store
      ensures fs.Valid() && Counted(View()) && fs.openFiles == Staged(View()) && forced && stopping && files == {}
      ensures closeErr == old(closeErr) && handles == old(handles) && StagingKept(old(fs.store.dir), fs.store.dir)
      ensures forall f :: f in old(fs.openFiles) && f !in fs.openFiles ==> f.closed
      ensures |ends| == |handles|
      ensures forall t :: 0 <= t < |ends| ==>
                if t !in old(files) then ends[t] == old(ends)[t]
                else
                  SealedAs(fs.store.dir, fs.profileID, fs.recoveryRoot, handles[t], ends[t],
                           if handles[t].FileHandle? then old(handles[t].file.Content()) else [])
      ensures Warned(handles, ends, old(files), warnings)
      ensures old(files) == {} ==> warnings == [] && unchanged(this, fs, fs.store)
    {
      hide *;
      warnings := [];
      var pending := files;
      KeptItself(fs.store.dir);
      NoneSealed();
      AllApart();
      while pending != {}
        invariant fs.Valid() && Counted(View()) && fs.openFiles == Staged(View()) && files == pending <= old(files)
        invariant stopping && forced && closeErr == old(closeErr) && handles == old(handles) && |ends| == |handles|
        invariant fs.openFiles <= old(fs.openFiles) && StagingKept(old(fs.store.dir), fs.store.dir)
        invariant forall f :: f in old(fs.openFiles) && f !in fs.openFiles ==> f.closed
        invariant forall f :: f in fs.openFiles ==> f.Content() == old(f.Content())
        invariant forall t :: 0 <= t < |ends| && (t !in old(files) || t in pending) ==> ends[t] == old(ends)[t]
        invariant forall t :: 0 <= t < |ends| && t in old(files) && t !in pending ==>
                    SealedAs(fs.store.dir, fs.profileID, fs.recoveryRoot, handles[t], ends[t],
                             if handles[t].FileHandle? then old(handles[t].file.Content()) else [])
        invariant Warned(handles, ends, old(files) - pending, warnings)
        invariant old(files) == {} ==> warnings == [] && unchanged(this, fs, fs.store)
        decreases |pending|
      {
        var t :| t in pending;
        pending := pending - {t};
        ghost var before := fs.store.dir;
        ghost var earlier, sealed := ends, old(files) - files;
        Tracked(t);
        var more := SealOne(t, now);
        KeptTwice(old(fs.store.dir), before, fs.store.dir);
        WarnedStep(handles, earlier, ends, sealed, t, warnings, more);
        assert old(files) - pending == sealed + {t};
        forall u | 0 <= u < |ends| && u in sealed
          ensures SealedAs(fs.store.dir, fs.profileID, fs.recoveryRoot, handles[u], ends[u],
                           if handles[u].FileHandle? then old(handles[u].file.Content()) else [])
        {
          StillSealed(before, fs.store.dir, fs.profileID, fs.recoveryRoot, handles[u], ends[u],
                      if handles[u].FileHandle? then old(handles[u].file.Content()) else [], handles[t]);
        }
        warnings := warnings + more;
      }
      assert old(files) - pending == old(files);
    }

    lemma NoneSealed()
      ensures Warned(handles, ends, files - files, [])
    {
    }

    /** The tracked handles have their own staging files. */
    lemma AllApart()
      requires fs.Valid() && Counted(View()) && fs.openFiles == Staged(View())
      ensures forall t, u :: t in files && u in files && t != u && t < |handles| && u < |handles| ==>
                Apart(handles[t], handles[u])
    {
      forall t, u | t in files && u in files && t != u && t < |handles| && u < |handles|
        ensures Apart(handles[t], handles[u])
      {
        if handles[t].FileHandle? && handles[u].FileHandle? {
          assert IsFile(View(), t) && IsFile(View(), u);
          assert handles[t].file in Staged(View()) && handles[u].file in Staged(View());
          fs.Facts(handles[t].file);
          fs.Facts(handles[u].file);
        }
      }
    }

    lemma EmptyIsZero()
      requires Counted(View())
      ensures open == |files| && (files == {} ==> Staged(View()) == {})
    {
    }
  }

  /** The session of one mounted drive. */
  class Session {
    const guard: Guard
    var mounted: bool
    var backendClosed: bool

    ghost predicate Valid()
      reads this, guard, guard.fs, guard.fs.openFiles, guard.fs.store, guard.fs.backend, guard.fs.backend.server,
            guard.fs.backend.cache
    {
      && guard.Valid()
      && (!mounted <==> backendClosed)
      && (!mounted ==> guard.stopping && guard.files == {})
      && (!mounted && !guard.forced ==> AllPublished(guard.View()))
    }

    constructor (guard: Guard)
      requires guard.Valid()
      ensures Valid() && this.guard == guard && mounted
    {
      this.guard, mounted, backendClosed := guard, true, false;
    }

    /** A normal detach unmounts only when nothing is left unpublished; a refused one leaves
        the drive mounted. */
    method Close() returns (ok: bool)
      requires Valid()
      modifies this, guard
      ensures Valid()
      ensures ok <==> !mounted
      ensures !old(mounted) ==> ok && unchanged(this, guard)
      ensures old(mounted) ==>
                (ok <==> old(guard.closeErr) == [] && forall t :: t in old(guard.files) ==>
                 !old(IsFile(guard.View(), t)))
      ensures ok && !guard.forced ==> AllPublished(guard.View())
      ensures ok && old(mounted) && !guard.forced ==>
                StagingNames(guard.fs.store.dir) == guard.fs.initial + guard.fs.orphans
    {
      if !mounted {
        return true;
      }
      var r := guard.PrepareStop();
      if !r.Ready? {
        return false;
      }
      mounted := false;
      backendClosed := true;
      return true;
    }

    /** A forced detach always unmounts. */
    method ForceClose(now: int) returns (warnings: seq<string>)
      requires Valid()
      modifies this, guard, guard.fs`openFiles, guard.fs`kept, guard.fs.openFiles, guard.fs.store
      ensures Valid() && !mounted
      ensures !old(mounted) ==> unchanged(this, guard, guard.fs, guard.fs.store) && warnings == []
      ensures StagingKept(old(guard.fs.store.dir), guard.fs.store.dir)
      ensures old(mounted) ==>
                && guard.closeErr == old(guard.closeErr) && guard.closeErr <= warnings
                && Warned(guard.handles, guard.ends, old(guard.files), warnings[|guard.closeErr|..])
    {
      hide *;
      warnings := [];
      KeptItself(guard.fs.store.dir);
      Guarded();
      if !mounted {
        return;
      }
      warnings := guard.ForceStop(now);
      mounted := false;
      backendClosed := true;
      Unmounted();
    }

    lemma Guarded()
      requires Valid()
      ensures guard.Valid()
    {
    }

    lemma Unmounted()
      requires guard.Valid() && !mounted && backendClosed && guard.stopping && guard.forced && guard.files == {}
      ensures Valid()
    {
    }
  }

  ghost predicate StagingKept(before: Directory, after: Directory) {
    forall name :: IsStaging(name) ==>
        ((name in after <==> name in before) && (name in after ==> after[name] == before[name]))
  }

  lemma KeptItself(dir: Directory)
    ensures StagingKept(dir, dir)
  {
  }

  lemma KeptTwice(before: Directory, middle: Directory, after: Directory)
    requires StagingKept(before, middle) && StagingKept(middle, after)
    ensures StagingKept(before, after)
  {
  }

  lemma OnlyRecordedKeeps(before: Directory, after: Directory, staging: string)
    requires OnlyRecorded(before, after, staging)
    ensures StagingKept(before, after)
  {
    forall name | IsStaging(name)
      ensures (name in after <==> name in before) && (name in after ==> after[name] == before[name])
    {
      assert HasSuffix(staging + METADATA_SUFFIX, METADATA_SUFFIX);
      if IsTemporary(name) {
        TemporaryIsNoItem(name, staging);
      }
    }
  }
}
