# DK-Drive: the stateful cores, modelled and verified

DK-Drive mounts remote storage (SFTP, WebDAV, FTP) as a Windows drive. This project models, in
Dafny, the parts that hold state under concurrency or promise durability, and proves what
they promise. `dafny verify dfyconfig.toml` checks all of it.

## What is modelled

- `Paths.dfy`: the lexical rules for names. `path.Clean`, `path.Join` and `path.Dir` are modelled on
  component lists and tied to strings; on top of them come cache keys, remote paths, mount names
  and the paths written into recovery records.
- `MetadataCache.dfy`, `CacheProtocol.dfy`: the metadata cache. The first has the object with its
  critical sections, each proved against a function on the state its mutex protects. The second
  interleaves any number of queries and mutations at the granularity of those sections; a history
  of moments makes "at some instant during the query" a statement about the run.
- `RecoveryStore.dfy`, `QuotaRuns.dfy`: the local cache directory as a map from names to files: quota,
  classification, pruning, deleting, and crash-atomic preservation with a journal of every
  directory state passed through.
- `Uploads.dfy`, `CachedBackend.dfy`, `Staging.dfy`, `Mount.dfy`: from a write on the mounted drive to the
  server and back. The server is a map of bytes; an upload that fails may have left any beginning
  of its data. The local staging file, the backend's own temporary file, the metadata cache and
  the chunked copy loop are all in between.
- `Retry.dfy`: sending a preserved file again.
- `Guard.dfy`: the session guard, safe and forced detach.
- `FtpBackend.dfy`: the control connection, with a ghost trace of commands and replies.
- `SftpBackend.dfy`: reconnecting under concurrency.
- `ConnectionManager.dfy`: the manager's reservations and closes, and disconnecting several profiles.

Files, clocks, the network and the libraries below (ssh, pkg/sftp, jlaffaye/ftp, net/http, WinFsp,
DPAPI) are nondeterministic: an operation may fail wherever the code checks for an error. What
is assumed of them is written where it is used, and comes to this:

- Frame: a change at n affects Stat at n and below, and listings at n, below n and of n's parent
  (`CacheProtocol.Framed`). `CacheProtocol.FrameExact` shows that invalidation needs precisely that.
- Listing: an entry of a listing is what Stat of the child answers (`CacheProtocol.WellFormed`).
- Local files: ReadAt follows the contract of io.ReaderAt, a rename is atomic, sizes fit int64.

## Where the code falls short

Each of these is stated by a lemma or a contract; where the promise holds under a condition, the
lemma gives the exact one.

- FTP: a probe is answered by whatever reply comes next. If the reply to a timed-out command
  arrives late, the next call fails on it, and the probe of the call after that takes the first
  probe's reply for its own; from then on every reply belongs to the command before
  (`FtpBackend.LateReplyFoolsProbe`). The condition is on the network: as long as no reply is read
  by a later command than its own (`FtpBackend.Late`), the discipline of section 5.4 of RFC 959
  holds on every path; and with the mutex free and no probe due, every command on the current
  connection has had its reply if and only if that was so on this connection
  (`FtpBackend.Backend.Settled` and `FtpBackend.Backend.Valid`, kept by every method).
- Recovery paths: `recoveryRemotePath` cleans the profile root before backslashes are converted and
  `RelativePath` afterwards. For some roots that mix both the way back fails
  (`Paths.MixedRootFails`, `Paths.RecoveryRoundTrip`).
- A write through a handle that was not opened for writing is accepted into staging but never marks
  the handle dirty, so it is never published (`Staging.StagedFile.CleanMeansPublished`).
- A write whose offset plus length exceeds int64 asks the quota for a wrapped size
  (`QuotaRuns.QuotaRequestExact`); the write itself then fails without a byte. An append that would
  pass int64 is refused outright (`Staging.StagedFile.Write`).
- A failed upload may still publish a beginning of the data, because closing the write handle syncs
  it. What it can leave is exactly the old server or any beginning (`Uploads.FailureLeavesExactly`);
  before the call, it is sure to leave the server alone only if there is nothing to send and the
  server holds an empty file there (`Uploads.FailureSparesExactly`; by how far it came,
  `Uploads.LeavesServerExactly`);
  and when the copying broke off and the closing sync went through, the server holds exactly what
  had been copied (`Staging.Upload`).
- An open whose clean-up also failed leaves its staging file behind. Apart from those and from the
  files that were there before, none remains after a safe detach (`Guard.Guard.PrepareStop`).
- A cached answer is timed from its filing, and the clock may move between the backend's answer and
  the filing (`CacheProtocol.FilingsAreDelayed`); counted from the answer, its lifetime is kept if and
  only if that did not happen (`CacheProtocol.HitAgeExact`).
- The Stat of the directory around a changed name stays cached until it expires
  (`CacheProtocol.ParentStatIsSpared`).
- SFTP sends a mutation again after a reconnect (`SftpBackend.MutationIsReplayed`,
  `SftpBackend.ExecutesOnceExactly`).

## Model

| member | source | states |
|---|---|---|
| `Paths.SameKeyIffSameRemote` | internal/protocol/sftp/backend.go:146-155 | two names share a cache key if and only if they resolve to the same remote path under every clean root, and a name is rejected by the key exactly when the backends reject it |
| `Paths.TraversesExactly` | internal/vfs/metadata_cache.go:55-63 | a name is rejected if and only if ".." stands in it between two separators or ends, whichever of the two separators it uses |
| `Paths.MetadataPathIdempotent` | internal/vfs/metadata_cache.go:55-63 | a key resolves to itself: normalising twice is normalising once |
| `Paths.RemoteComponents` | internal/protocol/ftp/backend.go:143-152 | the remote path is the root's components followed by the name's own, none of them empty, "." or ".." |
| `Paths.RenderRoundTrip` | internal/vfs/metadata_cache.go:62 | cleaning the string of a list of proper components gives back exactly those components |
| `Paths.DirIsParent` | internal/vfs/metadata_cache.go:218 | path.Dir of a clean path drops exactly its last component, and the root is its own parent |
| `Paths.PrefixIsComponentwise` | internal/vfs/metadata_cache.go:218 | the string test with a trailing slash holds exactly for component-wise descendants, so /a is no ancestor of /ab |
| `Paths.MountNameKey` | internal/mount/gofs_windows.go:575-582 | every cleaned mount name is accepted by the backends, the backend files it under the path the original name denotes, and no other cleaned name does |
| `Paths.JoinTakenApart` | internal/vfs/metadata_cache.go:181-184 | a proper name joined to a clean directory gives the directory and the name back as path.Dir and path.Base |
| `Paths.TakenApartJoins` | internal/protocol/ftp/backend.go:183-197 | a clean path below the root is its directory joined to its last component |
| `Paths.RecoveryRoundTrip` | internal/recovery/retry.go:30-50 | for every name but the root, RelativePath undoes recoveryRemotePath if and only if slash conversion before or after cleaning the profile root gives the same path; the root itself is refused as no file if and only if that condition holds or the cleaned and converted root is "/" |
| `Paths.PlainRootRoundTrips` | internal/mount/gofs_windows.go:593-595 | that condition holds of every root without a backslash |
| `Paths.MixedRootFails` | internal/mount/gofs_windows.go:593-595 | a whole family of roots for which it does not hold: a backslash inside a component that a later ".." removes |
| `Paths.RelativePathExact` | internal/recovery/retry.go:30-45 | RelativePath succeeds exactly when the root is a proper component-wise prefix of the preserved path, and returns the components below it |
| `Paths.RelativePathRejoins` | internal/recovery/retry.go:30-45 | a successful result joined to the clean root is the clean preserved path again, and never traverses upwards |
| `Errors.DefiniteMissingExact` | internal/vfs/metadata_cache.go:72-80 | only an unambiguous chain that ends in not-exist counts as a definite absence |
| `Errors.MissingIsNotCancelled` | internal/vfs/metadata_cache.go:72-80 | a cancelled or timed-out call is never taken for an absence |
| `Errors.IsExactly` | internal/mount/gofs_windows.go:62 | an error counts as not-exist, or as a cancellation, if and only if that sentinel is somewhere in its tree of wrapped and joined errors |
| `MetadataCache.CoveredExact` | internal/vfs/metadata_cache.go:217-218 | the four string tests of invalidate drop exactly the component-wise subtree of n and the listing of its parent |
| `MetadataCache.PutBounded` | internal/vfs/metadata_cache.go:87-104 | put keeps the table within 4096 entries and 16 MiB, with each entry charged its own size |
| `MetadataCache.StoringBounded` | internal/vfs/metadata_cache.go:171-186 | so does filing an answer, however long the listing that is seeded from it |
| `MetadataCache.SeedingAddsOnlyEntries` | internal/vfs/metadata_cache.go:177-186 | seeding adds nothing but the listing's own entries, each under its child path and with the listing's expiry |
| `MetadataCache.StoringAddsOnlyAnswer` | internal/vfs/metadata_cache.go:166-187 | after an answer was filed, everything in the table was there before, is the answer, or is an entry of the answered listing, and what is new expires one lifetime later |
| `MetadataCache.ChargeExactly` | internal/vfs/metadata_cache.go:87-104 | an entry is charged its key, 128, the name it holds, and every listed name plus 64 |
| `MetadataCache.PutExactly` | internal/vfs/metadata_cache.go:87-104 | a value charged more than 16 MiB changes nothing; any other is in the table afterwards with its expiry, beside all the others if there is room for it and alone if there is none |
| `MetadataCache.SeedingFilesEntries` | internal/vfs/metadata_cache.go:177-186 | when the listing fits into the table, every listed entry with a safe name is filed under its child path with the listing's expiry, unless a later entry of the same path replaced it |
| `MetadataCache.DecideLosesOnlyKey` | internal/vfs/metadata_cache.go:123-163 | the lookup section can lose only the queried key's own expired value |
| `MetadataCache.Cache.Put` | internal/vfs/metadata_cache.go:87-104 | the object's put computes the specified table and keeps its byte count equal to the sum of the entries |
| `MetadataCache.Cache.Drop` | internal/vfs/metadata_cache.go:81-86 | removes one key and its share of the byte count |
| `MetadataCache.Cache.Invalidate` | internal/vfs/metadata_cache.go:208-223 | leaves exactly the keys that no given name covers, one generation later; an invalid name leaves none |
| `MetadataCache.Cache.Begin` | internal/vfs/metadata_cache.go:224-228 | the opening bracket of a mutation: one more change under way, everything it could touch dropped |
| `MetadataCache.Cache.Done` | internal/vfs/metadata_cache.go:229 | the closing bracket, dropping again what was filed meanwhile |
| `MetadataCache.Cache.Enter` | internal/vfs/metadata_cache.go:123-163 | the first critical section of query refuses, hits, joins or leads as the section function says, of which CacheProtocol.EnterExactly says what it comes to |
| `MetadataCache.Cache.Publish` | internal/vfs/metadata_cache.go:165-193 | the second critical section files the answer only if nothing changed since the call began, and retires the leader's own flight only |
| `MetadataCache.Cache.Seed` | internal/vfs/metadata_cache.go:177-186 | the loop over a listing files every entry with a safe name and no other |
| `MetadataCache.Cache.Close` | internal/vfs/metadata_cache.go:287-293 | closing empties the table and fences every call still under way |
| `CacheProtocol.StepKeepsInv` | internal/vfs/metadata_cache.go:105-230 | every event of any number of interleaved queries and mutations keeps the inductive invariant |
| `CacheProtocol.CacheCoherent` | internal/vfs/metadata_cache.go:105-254 | in every reachable state every cached Stat, listing and absence is what the backend would answer now, and the table has at most 4096 entries and 16 MiB |
| `CacheProtocol.OverlappedAnswerNotStored` | internal/vfs/metadata_cache.go:157-187 | no answer whose call overlapped a mutation is ever stored |
| `CacheProtocol.QueriesLinearizable` | internal/vfs/metadata_cache.go:105-196 | a query's result, hit, joined or own, is the backend's answer at an instant between the query's start and its end |
| `CacheProtocol.NoStaleReads` | internal/vfs/metadata_cache.go:206-230 | whatever changes later, a query started at or after a moment returns the backend's answer of that moment or a later one, so none from before a mutation that had taken effect by then |
| `CacheProtocol.ResultHasSource` | internal/vfs/metadata_cache.go:119-196 | whatever ends a query, its result is its own cancellation, the refusal of a closed cache, the unexpired value filed under its key, the answer to its own backend call, or, if it had joined a flight, exactly what the flight's leader, a query for the same key, ended with |
| `CacheProtocol.LookExactly` | internal/vfs/metadata_cache.go:119-122 | a query whose context is gone ends with that and makes no call |
| `CacheProtocol.EnterExactly` | internal/vfs/metadata_cache.go:123-163 | an open cache without mutations under way serves an unexpired value, else lets the query wait for the flight of its key and generation; otherwise the query makes a call of its own; a closed cache refuses |
| `CacheProtocol.PublishExactly` | internal/vfs/metadata_cache.go:165-193 | an answer is filed, an absence as the plain sentinel, for 2000 or 500 ms, if and only if the cache is open, of the call's generation and without mutations under way, the caller's context is live and the answer is no doubtful failure; otherwise nothing is |
| `CacheProtocol.SingleFlight` | internal/vfs/metadata_cache.go:137-162 | of two live backend calls for a key and generation that began with no mutation under way, both are the same |
| `CacheProtocol.FlightOnlyLandsByLeader` | internal/vfs/metadata_cache.go:188-193 | a registered flight is neither overwritten nor removed by anyone but its leader |
| `CacheProtocol.TurnsBounded` | internal/vfs/metadata_cache.go:119-156 | the loop of a query ends: its turns are bounded by one plus the generations passed plus the cancelled flights it waited for, and it joins no flight twice |
| `CacheProtocol.HitsAreFresh` | internal/vfs/metadata_cache.go:128-136 | a hit is served less than 2000 ms, or 500 ms for an absence, after the moment on record at which its key was filed, by its own query or by the listing it was seeded from, and it was the backend's answer when that call returned |
| `CacheProtocol.HitAgeExact` | internal/vfs/metadata_cache.go:164-170 | counted from the backend's answer instead, a cached value will never be served past its lifetime if and only if no time passed between the answer and its filing |
| `CacheProtocol.FilingsAreDelayed` | internal/vfs/metadata_cache.go:164-170 | a run in which time does pass between them |
| `CacheProtocol.LiveWaiterNotCancelled` | internal/vfs/metadata_cache.go:139-155 | a query whose own context is live ends with a cancellation only if its own backend call returned one; a leader's cancellation never cancels a waiter |
| `CacheProtocol.SeededWithListing` | internal/vfs/metadata_cache.go:177-186 | a child seeded from a listing expires exactly with the listing |
| `CacheProtocol.JoinedStillTrue` | internal/vfs/metadata_cache.go:148-154 | what a joined flight brought back is still the backend's answer when the waiter's test (`MetadataCache.Cache.Recheck`) accepts it |
| `CacheProtocol.SurvivesExact` | internal/vfs/metadata_cache.go:208-223 | invalidate spares a clean key exactly when no given name touches it and all names are valid |
| `CacheProtocol.FrameExact` | internal/vfs/metadata_cache.go:206-223 | invalidation keeps every coherent table coherent across a change if and only if the change leaves alone each cacheable answer that invalidate spares |
| `CacheProtocol.ParentStatIsSpared` | internal/vfs/metadata_cache.go:218 | the Stat of the directory around n is always spared, so an effect on it is the one thing that must be assumed away |
| `RecoveryStore.TotalReplace` | internal/cache/store.go:208-224 | replacing or removing one file changes the total by exactly its own size |
| `RecoveryStore.TotalExactly` | internal/cache/store.go:208-224 | an empty directory takes nothing, a new regular file what it holds, metadata included, a link or a folder nothing |
| `RecoveryStore.GrantedExactly` | internal/cache/store.go:167-206 | a resize is granted if and only if it asks for no more than a file may have, the path is a staging name of the directory that is free or a regular file, and, if it grows the file at all, the directory with the file at its new size keeps within the total |
| `RecoveryStore.Store.TotalRegularBytes` | internal/cache/store.go:208-224 | the loop computes the sum over all regular files, metadata included |
| `RecoveryStore.Store.LockResize` | internal/cache/store.go:167-206 | the int64 check answers exactly as the quota over the mathematical integers, unless the file or the directory cannot be read, and then it refuses; the mutex is held afterwards exactly when the resize was granted |
| `RecoveryStore.Store.CreateStaging` | internal/cache/store.go:157-163 | an empty staging file under a name no entry has |
| `RecoveryStore.Store.Scan` | internal/cache/store.go:286-328 | one item for each staging name that has metadata or a staging file, none for anything else, none twice |
| `RecoveryStore.ScanStates` | internal/cache/store.go:286-328 | what a scan says of a staging name: preserved, missing, invalid, unsafe or without metadata, each if and only if the record in its metadata file is of version 1, preserved and its own, the file is there, and is regular or a link |
| `RecoveryStore.Store.Delete` | internal/cache/store.go:452-484 | removes at most the item's own staging and metadata files, in that order, and refuses exactly unknown states, unsafe paths and mismatched pairs, untouched; a folder is never removed and a missing file is no failure |
| `RecoveryStore.Store.PruneExpired` | internal/cache/store.go:228-250 | a file goes only as one of a pair whose record is readable, of version 1, preserved, that staging file's own, and was preserved at least so many days of 86,400,000 ms before now, with its staging regular; all such pairs go if no delete fails, each is counted once, as removed or as a failure, and the number removed is the number of pairs that are gone, provided no staging name carries the metadata suffix; every other file stays as it was even when a delete fails |
| `RecoveryStore.ExpiredMeans` | internal/cache/store.go:236-241 | the scan's verdict that an item has expired is the same as that condition on its record |
| `RecoveryStore.PruneSparesOthers` | internal/cache/store.go:226-250 | after a prune the next scan reports every unexpired item exactly as before, provided no staging name carries the metadata suffix |
| `RecoveryStore.PairsDisjoint` | internal/cache/store.go:286-313 | under that proviso no file belongs to two items |
| `RecoveryStore.Store.WriteMetadataAtomic` | internal/cache/store.go:549-579 | every state the directory passes through is untouched, has one temporary, or has the whole new record |
| `RecoveryStore.Store.Preserve` | internal/cache/store.go:252-284 | on success the next scan reports exactly the record of this call, field by field, and no other entry changed; an unsafe path, a missing and an irregular staging file are each refused as that; on failure at most one temporary is left; every state on the way is untouched, has one temporary, or has exactly the record of this call |
| `RecoveryStore.PreserveCrashAtomic` | internal/cache/store.go:252-284 | from every state a crash can leave, a scan reports the staging file as before or as preserved with the whole record of the call, its target path, reason, size and times included, every other item unchanged and the staging bytes untouched |
| `RecoveryStore.TemporaryIsNoItem` | internal/cache/store.go:549-552 | a leftover temporary is neither staging nor metadata |
| `QuotaRuns.TotalNeverExceeded` | internal/cache/store.go:165-206 | over any run of quota checks, writes under them, releases, creations, removals, time changes and metadata writes, the ones without the mutex falling anywhere between a check and its writes, the staging bytes stay within the larger of the starting total and the limit |
| `QuotaRuns.FileLimitKept` | internal/cache/store.go:172-175 | no staging file ever grows past the per-file limit |
| `QuotaRuns.RunsJoin` | internal/cache/store.go:165-206 | runs compose, so the bound covers every sequence of mount operations |
| `QuotaRuns.QuotaRunSafe` | internal/cache/store.go:165-206 | both bounds hold of every directory that the mount's own operations lead to, each of which is proved to be such a run |
| `QuotaRuns.QuotaRequestExact` | internal/mount/gofs_windows.go:298-306 | the wrapped int64 size a write asks for gets the answer of the true size if and only if the sum fits int64, or neither limit is set, or the file is already over the per-file limit, so that both are refused |
| `Uploads.Overwrite` | internal/protocol/ftp/backend.go:489 | the bytes of a file after a write at an offset: the data there, the old content elsewhere, zeros in a gap |
| `Uploads.UploadHandle.WriteAt` | internal/protocol/ftp/backend.go:476-494 | changes the handle's temporary file exactly by the bytes reported as written, at the end when appending, and marks it dirty only then |
| `Uploads.UploadHandle.Sync` | internal/protocol/webdav/backend.go:536-562 | success leaves the server with exactly the handle's bytes; failure keeps it dirty and leaves at most a beginning of them |
| `Uploads.UploadHandle.Close` | internal/protocol/ftp/backend.go:562-571 | publishes what is pending, then the handle accepts nothing more |
| `Uploads.OpenHandle` | internal/protocol/ftp/backend.go:292-333 | starts from nothing when truncating and from the server's content otherwise, dirty exactly when truncating or creating |
| `Uploads.TornTwice` | internal/protocol/ftp/backend.go:562-571 | a failed upload that is sent again by the closing sync still leaves nothing but a beginning of the data |
| `Uploads.FailureLeavesExactly` | internal/mount/gofs_windows.go:227-269 | what a failed upload can leave on the server is exactly the server as it was or any beginning of the data, and each of these can come about |
| `Uploads.LeavesServerExactly` | internal/mount/gofs_windows.go:227-269 | given how far it came, an upload is sure to leave the server unchanged if and only if its handle was never opened, or the server already held what had been copied and a sync went through or nothing had been copied |
| `Uploads.FailureSparesExactly` | internal/mount/gofs_windows.go:227-269 | before the call: every failing upload of these bytes leaves the server as it was if and only if there is nothing to send and the server holds an empty file at that path |
| `CachedBackend.BracketCoherent` | internal/vfs/metadata_cache.go:224-230 | whatever a bracketed call did to its own name, the surviving cached answers, Stat, listings and absences, are true of the server afterwards |
| `CachedBackend.Backend.Stat` | internal/vfs/metadata_cache.go:105-200 | a lookup with no other call under way: an unexpired value is the answer and the server hears nothing, otherwise the server is asked exactly once and what it said is the answer; either way it reports what the server holds |
| `CachedBackend.Backend.ReadDir` | internal/vfs/metadata_cache.go:105-205 | likewise a listing, given only for a directory that is there: it has every entry of it, says of each what Stat says, and its entries are filed without making the cache untrue; it too asks the server once or not at all |
| `CachedBackend.Backend.OpenWrite` | internal/vfs/metadata_cache.go:256-264 | the handle given out belongs to the resolved name and the cache stays coherent |
| `CachedBackend.MetadataWrite.WriteAt` | internal/vfs/metadata_cache.go:272-276 | the wrapped write behaves as the handle's own and keeps the cache coherent |
| `CachedBackend.MetadataWrite.Sync` | internal/vfs/metadata_cache.go:277-281 | the wrapped sync publishes as the handle's own and keeps the cache coherent, also when it fails |
| `CachedBackend.MetadataWrite.Close` | internal/vfs/metadata_cache.go:282-286 | the wrapped close likewise |
| `Staging.Fill` | internal/mount/gofs_windows.go:241-264 | the chunk loop ends and has then copied exactly the local bytes, empty files included, or a beginning of them |
| `Staging.Upload` | internal/mount/gofs_windows.go:227-269 | success means the server holds exactly the local bytes at that path and everything else is unchanged; a failure leaves what its trail says: nothing if the handle was never opened, exactly the copied beginning if the closing sync went through, and some beginning otherwise |
| `Staging.StagedFile.Write` | internal/mount/gofs_windows.go:287-309 | changes the staging bytes exactly by what it reports as written, at the position or at the end, only if the quota grants the size the code asks for, and marks a write-permitted handle dirty; an append that would pass int64 is refused and changes nothing |
| `Staging.StagedFile.WriteAt` | internal/mount/gofs_windows.go:311-329 | the same at an explicit offset; a negative offset or an appending handle writes nothing |
| `Staging.StagedFile.Truncate` | internal/mount/gofs_windows.go:331-341 | only within the quota, and then the staging file has the size asked for, every byte below the old size as it was and every byte above it zero |
| `Staging.StagedFile.CleanMeansPublished` | internal/mount/gofs_windows.go:459-464 | a clean handle keeps all its bytes published across an accepted edit if and only if writing was permitted or nothing changed |
| `Staging.StagedFile.Sync` | internal/mount/gofs_windows.go:371-396 | a handle turns clean only after the server holds every staged byte, with the requested time if one was set, which is then the handle's time too; a failure leaves it dirty |
| `Staging.StagedFile.Close` | internal/mount/gofs_windows.go:398-414 | staging is removed only after a successful sync; after a failed one, and only then, its preservation is asked for, its bytes stay unchanged and what a success files leads back to the path they belong to |
| `Staging.StagedFile.ClosePreserving` | internal/mount/gofs_windows.go:419-432 | seals the handle, sends nothing, keeps the staging bytes, even clean ones, and asks once for their preservation |
| `Staging.StagedFile.SetModTime` | internal/mount/gofs_windows.go:445-457 | sets the staging file's time, remembers it for the next upload and changes no byte |
| `Staging.StagedFile.constructor` | internal/mount/gofs_windows.go:109-125 | a new handle counts its initial content as published |
| `Mount.FileSystem.PublishPending` | internal/mount/gofs_windows.go:161-179 | publishes this path's dirty handles and touches the server nowhere else; clean writers stay published |
| `Mount.FileSystem.Lookup` | internal/mount/gofs_windows.go:161-183 | unless a file of the path could not be published and is still due, the answer is the server's, as the cache holds it or the server just said, and no handle of the path is dirty |
| `Mount.FileSystem.Stat` | internal/mount/gofs_windows.go:133-142 | the result is the lookup's answer, any kind of not-exist as the plain one; with one writer per path, a success reports exactly the size of the bytes the writer held when it was called; every open handle keeps its bytes and the server changes at this path only |
| `Mount.FileSystem.Stage` | internal/mount/gofs_windows.go:73-107 | a staging file of its own, filled with the server's bytes or empty, every step of it within the quota and no other entry changed |
| `Mount.FileSystem.OpenFile` | internal/mount/gofs_windows.go:50-125 | the lookup's answer decides: a found directory gives a directory handle, or is refused if the open would write; a found file is kept, clean, with the server's bytes and time, unless the open truncates or is to create exclusively; only a truncating open, or a creating one after a not-exist answer, starts empty and due for upload; any other failure is refused with that error; a read-only mount refuses exactly what could change it; with one writer per path, an open that does not start empty holds exactly the bytes the path's writer held when it was called; handles already open keep their bytes and none turns dirty; the server changes at this path only; one writer per path stays true if and only if the new handle is the only one; a failed open leaves at most one new staging file, which is then on record, and every other open leaves the record alone |
| `Mount.FileSystem.CloseFile` | internal/mount/gofs_windows.go:398-414 | once the sync went through, the writer's bytes are on the server, and a successful close has also removed its staging; otherwise they are still in staging and their preservation was asked for; the other handles keep their bytes, the table stays sound and every staging file stays accounted for |
| `Mount.FileSystem.PreserveFile` | internal/mount/gofs_windows.go:419-432 | a sealed handle's bytes stay on disk and the next scan offers them for recovery; the other handles keep theirs |
| `Mount.FileSystem.Write` | internal/mount/gofs_windows.go:287-309 | whatever comes of a write, refused, partial or complete, one writer per path and all clean writers published stay true, the handle holds exactly what it reports as written, and every other handle keeps its bytes |
| `Mount.FileSystem.WriteAt` | internal/mount/gofs_windows.go:311-329 | the same for a positioned write |
| `Mount.FileSystem.Truncate` | internal/mount/gofs_windows.go:331-341 | the same for a truncate, with every byte of the handle afterwards |
| `Mount.FileSystem.Sync` | internal/mount/gofs_windows.go:371-396 | the same for a sync, which touches the server at its own path only and leaves a writer published when it succeeds |
| `Mount.FileSystem.SetModTime` | internal/mount/gofs_windows.go:185-203 | after a success the server and every open handle of the path carry the time; the times of other paths and handles, every byte and every dirty flag stay as they were, and the table stays sound |
| `Mount.FileSystem.EditKeepsTable` | internal/mount/gofs_windows.go:287-341 | any edit of one handle keeps the table valid and every clean writer published |
| `Retry.FillExactly` | internal/recovery/retry.go:103-125 | the retry's copy loop ends, and succeeds only if the file still has all the bytes it had when opened |
| `Retry.RetryableExactly` | internal/cache/store.go:428-448 | an item can be retried if and only if it is preserved and its staging path is a staging name of this directory that is there and regular |
| `Retry.Upload` | internal/recovery/retry.go:92-137 | success means the server holds exactly the preserved bytes, confirmed their size, and the result is what its Stat says; an item is refused as not retryable exactly when it is, and a size mismatch is reported only for a size or kind that differs; the cache directory is never touched |
| `Retry.PreservedLeadsBack` | internal/recovery/retry.go:30-45 | what a failed close filed for recovery can be retried, and its recorded path leads back to the name under which the mount reads the file |
| `Guard.ClosingKeeps` | internal/mount/session_windows.go:223-240 | a close keeps the count equal to the number of tracked handles and the record of failures honest |
| `Guard.TrackKeeps` | internal/mount/session_windows.go:166-183 | so does giving out a handle |
| `Guard.Guard.OpenFile` | internal/mount/session_windows.go:166-183 | while stopping nothing gets through; otherwise the lookup's answer decides as in the mount's own open, the new handle is tracked, and the open keeps and promises what the mount's own does |
| `Guard.Guard.Close` | internal/mount/session_windows.go:223-240 | a handle's closed flag is set exactly when it is no longer tracked; a second close fails and changes nothing; the first untracks the handle and records the bytes it held and what the server then held under its path; after a success the server holds exactly these bytes if the handle was dirty, or was the writer of a sound table; after a failure they are on the server or still in staging, and the failure is remembered for ever; the other handles keep their bytes |
| `Guard.Guard.Stat` | internal/mount/session_windows.go:184-191 | while stopping it is refused; otherwise its result is the lookup's answer, as the mount's own is, every open handle keeps its bytes and a sound table stays sound |
| `Guard.Guard.PrepareStop` | internal/mount/session_windows.go:136-164 | succeeds exactly when no file handle is open and no close ever failed; then nothing is open and later operations are refused, and in an unforced session every handle ever given out closed well, the server holding at that moment the bytes of each that owed it any; the staging files that remain are exactly those from before the session and those that a failed open could not remove; no record of a closed file is touched |
| `Guard.Guard.ForceStop` | internal/mount/session_windows.go:113-134 | from any state seals every handle with the bytes it held, sends nothing, changes no staging file and no record of a handle closed before; a seal that succeeded offers these bytes for recovery under their path; the warnings are the earlier close failures followed by the staging files whose seal failed, each of them and no other; a second call changes nothing and still reports the earlier failures |
| `Guard.Session.Close` | internal/mount/session_windows.go:67-82 | unmounts only when a stop was prepared, with the same promises; otherwise the drive stays mounted |
| `Guard.Session.ForceClose` | internal/mount/session_windows.go:86-101 | always unmounts, keeping all staging and warning of every failed close and seal; on an unmounted session it does nothing |
| `FtpBackend.CommandsAlternate` | internal/protocol/ftp/backend.go:154-290 | in a disciplined trace a reply was read between any command and a later one on the same connection, other than a probe |
| `FtpBackend.PromptRepliesMatch` | internal/protocol/ftp/backend.go:399-463 | as long as no reply came late, each reply read answers the command sent last on its connection |
| `FtpBackend.Backend.Lock` | internal/protocol/ftp/backend.go:399-426 | returns holding the mutex with no probe due, and then every command on the connection is answered if and only if no reply on it was read by a later command than its own; on every other path the mutex is free; it probes only when a probe is due, goes on only after a positive reply or on a new connection, and reconnects if and only if the probe broke; the mutex is taken only when free, released only when held, and no connection is used without it |
| `FtpBackend.Backend.Reconnect` | internal/protocol/ftp/backend.go:428-446 | takes a new connection with nothing unanswered and bids the old one farewell, or leaves the old one with a probe due |
| `FtpBackend.Backend.Mutate` | internal/protocol/ftp/backend.go:448-463 | sends its command at most once, and reports success if and only if it was sent and the last thing heard is the positive reply to it |
| `FtpBackend.Backend.Store` | internal/protocol/ftp/backend.go:496-530 | one STOR at most, success if and only if it was sent and its final reply is positive, a probe due afterwards, and the mutex released on every path |
| `FtpBackend.Backend.Stat` | internal/protocol/ftp/backend.go:154-201 | an entry is the direct answer or the first of that name in the parent's listing, an absence means a listing without that name, each of them carried by the last accepted answer in the trace, and the result is unknown if and only if nothing was carried; a refused direct lookup is always followed by a listing; at most two lookups and two listings, no mutation, nothing at all for the root |
| `FtpBackend.Backend.GetLocked` | internal/protocol/ftp/backend.go:168-182 | the lookup is tried on the present connection first, a reconnect is tried if and only if that broke, and the lookup is repeated if and only if the connection was replaced; an entry is what the last accepted answer carried |
| `FtpBackend.Backend.ListLocked` | internal/protocol/ftp/backend.go:183-194 | the same for a listing, after which a probe is due |
| `FtpBackend.Backend.ReadDir` | internal/protocol/ftp/backend.go:203-233 | returns the visible entries of the listing that the last accepted answer carried, and fails if and only if none was; at most two listings, a probe due afterwards |
| `FtpBackend.VisibleExact` | internal/protocol/ftp/backend.go:226-233 | what a directory reports are exactly the listed entries other than the two dots |
| `FtpBackend.Backend.OpenRead` | internal/protocol/ftp/backend.go:249-275 | a stream is given out if and only if the server opened one for it, and it then holds the mutex with its final reply outstanding; without a stream the mutex is free; RETR is sent at most twice, the second time only on a new connection |
| `FtpBackend.LockedReader.Close` | internal/protocol/ftp/backend.go:277-290 | the first close releases the mutex with a probe due, every later one changes nothing and returns the same result |
| `FtpBackend.Backend.Close` | internal/protocol/ftp/backend.go:389-397 | exactly one farewell the first time, successful if and only if its reply is positive, after which every operation sends nothing and a repeated close sends none |
| `FtpBackend.LateReplyFoolsProbe` | internal/protocol/ftp/backend.go:399-426 | the discipline is not unconditional: a mutation whose reply arrives late, read by the next probe, leaves the probe after it reading the first probe's reply and a lookup sent with a reply unread |
| `SftpBackend.Backend.Reconnect` | internal/protocol/sftp/backend.go:364-383 | replaces the client only if its generation is the one that failed, and otherwise hands out the replacement already made |
| `SftpBackend.Backend.Close` | internal/protocol/sftp/backend.go:328-336 | closes the current client once |
| `SftpBackend.StepKeepsInv` | internal/protocol/sftp/backend.go:328-383 | every step of any interleaving keeps clients, generations and leases consistent |
| `SftpBackend.OneReplacementEach` | internal/protocol/sftp/backend.go:364-383 | over any run, of all the operations that fail on one generation at most one installs a new client, and none once a later generation is current |
| `SftpBackend.InstallsExactly` | internal/protocol/sftp/backend.go:364-383 | a reconnect installs a client if and only if its failure was on the current generation, the backend is open and dialling succeeded; only then is a client closed, and it is the one that failed |
| `SftpBackend.RunsAreSafe` | internal/protocol/sftp/backend.go:328-383 | over any run the invariant holds and nothing is installed after Close |
| `SftpBackend.InvariantMeans` | internal/protocol/sftp/backend.go:338-383 | an operation executes at most twice and the server carries it out at most once for each execution; the second is on another client of a later generation, and every superseded client has been closed |
| `SftpBackend.LeasesAreOpen` | internal/protocol/sftp/backend.go:355-383 | an operation is only ever handed a client that is still open |
| `SftpBackend.MutationIsReplayed` | internal/protocol/sftp/backend.go:338-353 | a run in which the server carries one mutation out twice |
| `SftpBackend.ExecutesOnceExactly` | internal/protocol/sftp/backend.go:345-352 | after a connection error it is executed only once if and only if the backend was closed, or nobody had replaced the client and dialling failed |
| `SftpBackend.FinishExactly` | internal/protocol/sftp/backend.go:338-353 | a returned operation goes on to a reconnect if and only if it was the first run and the connection broke; otherwise it is done |
| `SftpBackend.DoneStays` | internal/protocol/sftp/backend.go:345-347 | over any run an operation that is done is never run again |
| `ConnectionManager.StepKeepsInv` | internal/connection/manager.go:79-160 | every critical section and every return of a factory or a close keeps the invariant |
| `ConnectionManager.ManagerIsSafe` | internal/connection/manager.go:79-160 | in every interleaving drives are distinct, their case aside, an entry has no session exactly while connecting, closes of one session never overlap, and every session produced is in the map, on its way there, or was closed successfully |
| `ConnectionManager.ConnectExactly` | internal/connection/manager.go:79-113 | from any state of the interleaved system a connect that nothing interrupts ends with the session the factory produced, or with the table it began with, when id and drive are free; otherwise it changes nothing |
| `ConnectionManager.DisconnectExactly` | internal/connection/manager.go:126-160 | likewise a detach: a connected session is closed and leaves the table, or refuses and stays as it was; anything else is left alone |
| `ConnectionManager.Manager.Connect` | internal/connection/manager.go:79-113 | the factory is asked if and only if the profile is valid and its id and drive, whatever its case, are free; a success adds one connected entry and clears the profile's error, a failed dial or an invalid profile is recorded as one, and every failure leaves the map as it was |
| `ConnectionManager.Manager.Disconnect` | internal/connection/manager.go:126-160 | a success removes exactly the entry, a refusal leaves it connected; errors are recorded and cleared only for a session that was there to close |
| `ConnectionManager.Manager.CloseAll` | internal/connection/manager.go:163-175 | every session gets exactly one normal detach, and exactly those that refused it remain |
| `ConnectionManager.DisconnectProfiles` | internal/desktop/disconnect.go:20-49 | the manager's own log of what was called is, profile by profile and in order, a normal detach, the question if that failed, and a forced detach if the answer was yes; the reported lists are exactly the profiles that ended declined or still mounted, every other listed profile is gone, and unlisted ones are untouched |

## Left out

- The user interface, the installer, the command-line tools, credentials, configuration, diagnostics
  and attribute bits: foreign calls and field checks, easy members only.
- Cache generations: a natural number; the code's uint64 would wrap after 2^64 mutations.
- Names with a ".." component: they bypass the cache and go straight to the backend, which rejects
  them; the interleaved model covers the names that have a key.
- Sizes of names: a string counts its characters, where Go counts bytes; the bounds are the same
  formula over either.
- Flights, SFTP clients, sessions and tracked handles: numbered instead of being references, with a
  flight's outcome kept after it landed.
- MetadataCache.Cache.Publish: the copies that keep callers from sharing a listing's slice
  (`copyMetadata`) have no counterpart, since values are immutable here.
- RecoveryStore.Store.Preserve: profile name and protocol travel in the same record and are not
  distinguished here, the mount leaves the text of the last error empty, and JSON is a record rather
  than text.
- RecoveryStore: `Usage`, `Export` and `Clear` add sums and copies over the same directory model.
- Staging.StagedFile.Close: the error that a close returns is not modelled as text; when removing the
  staging file or closing the local handle fails after a successful sync, the close fails although
  everything is published.
- CachedBackend.Backend.Stat: run with no other call under way; queries that overlap mutations are the
  subject of `CacheProtocol`. What a call is answered is nondeterministic, a failure included; `answered` is a
  ghost record of it.
- Mount.FileSystem.Stat: the promise needs one writer per path, stated as `OneWriter`; several dirty
  handles of one path overwrite each other on the server in an unspecified order.
- Mount.FileSystem.OpenFile: an ambiguous not-found error counts as absence here as in the code, and so
  does a failed publish of pending bytes whose error holds a not-exist; a creating open may then start
  empty although the server has the file, and all that is promised of it is that it is empty and due
  for upload.
- Rename of a path with open handles: the code does not carry pending writes over to the new name and
  makes no usable promise; Mkdir, Remove and Rename are plain forwards, and reads and Stat of an
  open handle show its staging file.
- Staging under concurrency: each handle's own mutex is modelled as the order of calls; lookups and
  edits of different handles interleave only between calls.
- Retry: `Inspect` and `AlternatePath` compare fields and format names.
- Guard.Guard.PrepareStop: a handle that closes clean in a table with several writers of its path owes
  the server nothing by this account: another handle may have overwritten its bytes there since it
  published them, and only that they are what it last published or opened with is promised
  (`Guard.Guard.Close`). The mount's `kept` and `orphans` are ghost records of which staging files a
  failed or forced close kept and which a failed open left. Unmounting and closing the protocol
  backend are flags.
- FtpBackend: logging in and changing to the root count as answered or the connection is given up;
  `OpenWrite` is in `Uploads.OpenHandle`; modes and times of entries are not modelled.
- SftpBackend: the direct write handle and its own errors; `SetReadOnly`. What an operation does to
  the server is counted, not modelled.
- WebDAV: requests, locks and XML; its write handle has the same state machine as the FTP one.
- ConnectionManager.Manager.Connect: the interleaved behaviour is in the step system; the object's
  methods run each call from start to end. Upper case is that of ASCII letters, the only drive letters
  a valid profile has. `State`, `Diagnostic` and error texts are left out.
