/** The local cache directory: staging files, the recovery metadata beside them, the quota
    on their size, and the scan, prune, delete and preserve operations over them. */
module RecoveryStore {
  import opened Wrappers
  import opened Paths

  newtype byte = b: int | 0 <= b < 256

  type Bytes = seq<byte>

  const METADATA_VERSION := 1
  const METADATA_SUFFIX := ".recovery.json"
  const STAGING_PREFIX := "staging-"
  const TEMPORARY_PREFIX := ".recovery-metadata-"
  const TEMPORARY_SUFFIX := ".tmp"
  const ZERO_TIME := 0
  const MILLISECONDS_PER_DAY := 86_400_000
  const INT64_MAX := 0x7FFF_FFFF_FFFF_FFFF

  predicate HasSuffix(s: string, suffix: string) {
    |suffix| <= |s| && s[|s| - |suffix|..] == suffix
  }

  /** Go's int64 arithmetic wraps around. */
  function Wrap64(n: int): int {
    (n + INT64_MAX + 1) % (2 * (INT64_MAX + 1)) - INT64_MAX - 1
  }

  lemma WrapExact(n: int)
    ensures -INT64_MAX - 1 <= Wrap64(n) <= INT64_MAX
    ensures -INT64_MAX - 1 <= n <= INT64_MAX ==> Wrap64(n) == n
    ensures INT64_MAX < n <= 2 * INT64_MAX + 1 ==> Wrap64(n) == n - 2 * (INT64_MAX + 1) < 0
  {
  }

  // --------------------------------------------------------------- the directory

  datatype RecoveryState =
    | Preserved | MissingMetadata | MissingStaging | InvalidMetadata | UnsafeStaging
    | UnknownState(text: string)

  /** A path after filepath.Abs, relative to the cache directory. */
  datatype LocalPath = InDirectory(name: string) | Elsewhere(text: string)

  datatype Metadata = Metadata(
    version: int,
    profileID: string,
    remotePath: string,
    stagingPath: LocalPath,
    size: nat,
    createdAt: int,
    updatedAt: int,
    preservedAt: int,
    reason: string,
    lastError: string,
    state: RecoveryState)

  /** What a file holds: bytes, or the JSON text of a metadata record. */
  datatype Body = Blob(bytes: Bytes) | Json(record: Metadata, length: nat)

  datatype Node = Regular(body: Body, modTime: int) | Link(target: Option<Body>) | Folder

  type Directory = map<string, Node>

  function SizeOf(node: Node): nat {
    if node.Regular? then (if node.body.Blob? then |node.body.bytes| else node.body.length) else 0
  }

  // ------------------------------------------------------------ classification

  /** safeStagingPath: only a staging name directly inside the cache directory is usable. */
  function SafeStagingPath(path: LocalPath): Option<string> {
    if path.InDirectory? && HasPrefix(path.name, STAGING_PREFIX) then Some(path.name) else None
  }

  datatype Item = Item(metadata: Metadata, metadataName: Option<string>)

  function Bare(staging: string, state: RecoveryState): Metadata {
    Metadata(METADATA_VERSION, "", "", InDirectory(staging), 0, ZERO_TIME, ZERO_TIME, ZERO_TIME, "", "", state)
  }

  predicate Trustworthy(record: Metadata, staging: string) {
    && SafeStagingPath(record.stagingPath) == Some(staging)
    && record.version == METADATA_VERSION
    && record.state == Preserved
  }

  /** scanMetadata, for the metadata file of `staging`. */
  function ScanMetadata(dir: Directory, staging: string): Item
    requires staging + METADATA_SUFFIX in dir
  {
    var name := Some(staging + METADATA_SUFFIX);
    match Readable(dir[staging + METADATA_SUFFIX])
    case None => Item(Bare(staging, InvalidMetadata), name)
    case Some(Blob(_)) => Item(Bare(staging, InvalidMetadata), name)
    case Some(Json(record, _)) =>
      if !Trustworthy(record, staging) then
        Item(record.(stagingPath := InDirectory(staging), state := InvalidMetadata), name)
      else if staging !in dir then Item(record.(state := MissingStaging), name)
      else if !dir[staging].Regular? then Item(record.(state := UnsafeStaging), name)
      else Item(record.(size := SizeOf(dir[staging])), name)
  }

  /** os.ReadFile follows a link and fails on a dangling one. */
  function Readable(node: Node): Option<Body> {
    match node
    case Regular(body, _) => Some(body)
    case Link(target) => target
    case Folder => None
  }

  /** A staging file without a metadata file: it may be live. */
  function Unclassified(node: Node, staging: string): Item {
    if node.Link? then Item(Bare(staging, UnsafeStaging), None)
    else
      var modTime := if node.Regular? then node.modTime else ZERO_TIME;
      Item(Bare(staging, MissingMetadata).(size := SizeOf(node), createdAt := modTime, updatedAt := modTime), None)
  }

  predicate HoldsMetadata(dir: Directory, staging: string) {
    staging + METADATA_SUFFIX in dir && !dir[staging + METADATA_SUFFIX].Folder?
  }

  predicate HoldsStaging(dir: Directory, staging: string) {
    staging in dir && !dir[staging].Folder? && HasPrefix(staging, STAGING_PREFIX)
      && !HasSuffix(staging, METADATA_SUFFIX)
  }

  /** The one item a scan reports for a staging name, if any. */
  function ItemFor(dir: Directory, staging: string): Option<Item> {
    if HoldsMetadata(dir, staging) then Some(ScanMetadata(dir, staging))
    else if HoldsStaging(dir, staging) then Some(Unclassified(dir[staging], staging))
    else None
  }

  lemma ItemNamesStaging(dir: Directory, staging: string)
    requires ItemFor(dir, staging).Some?
    ensures ItemFor(dir, staging).value.metadata.stagingPath == InDirectory(staging)
    ensures ItemFor(dir, staging).value.metadataName
            == if HoldsMetadata(dir, staging) then Some(staging + METADATA_SUFFIX) else None
  {
  }

  /** The metadata file of a staging name holds this record, itself or through a link. */
  ghost predicate HasRecord(dir: Directory, staging: string, record: Metadata) {
    && staging + METADATA_SUFFIX in dir
    && match dir[staging + METADATA_SUFFIX]
       case Regular(Json(found, _), _) => found == record
       case Link(Some(Json(found, _))) => found == record
       case _ => false
  }

  /** A preserve wrote the record for this very staging file. */
  ghost predicate VouchedFor(dir: Directory, staging: string, record: Metadata) {
    && HasRecord(dir, staging, record)
    && record.version == 1 && record.state == Preserved
    && record.stagingPath == InDirectory(staging) && HasPrefix(staging, STAGING_PREFIX)
  }

  ghost predicate HasMetadataFile(dir: Directory, staging: string) {
    staging + METADATA_SUFFIX in dir && !dir[staging + METADATA_SUFFIX].Folder?
  }

  /** What a scan says of a staging name: with a metadata file, whether its record is the
      file's own and the file is there and regular; without one, whether it is a link. */
  lemma ScanStates(dir: Directory, staging: string)
    ensures ItemFor(dir, staging).Some? <==>
              || HasMetadataFile(dir, staging)
              || (staging in dir && !dir[staging].Folder? && HasPrefix(staging, STAGING_PREFIX)
                  && !HasSuffix(staging, METADATA_SUFFIX))
    ensures ItemFor(dir, staging).Some? ==>
              var state := ItemFor(dir, staging).value.metadata.state;
              var vouched := exists record :: VouchedFor(dir, staging, record);
              && (state == Preserved <==> vouched && staging in dir && dir[staging].Regular?)
              && (state == MissingStaging <==> vouched && staging !in dir)
              && (state == InvalidMetadata <==> HasMetadataFile(dir, staging) && !vouched)
              && (state == UnsafeStaging <==>
                    || (vouched && staging in dir && !dir[staging].Regular?)
                    || (!HasMetadataFile(dir, staging) && dir[staging].Link?))
              && (state == MissingMetadata <==> !HasMetadataFile(dir, staging) && !dir[staging].Link?)
              && (state == MissingMetadata && dir[staging].Regular? ==>
                    ItemFor(dir, staging).value.metadata.size == SizeOf(dir[staging])
                    && ItemFor(dir, staging).value.metadata.updatedAt == dir[staging].modTime)
    ensures forall record :: VouchedFor(dir, staging, record) && staging in dir && dir[staging].Regular? ==>
              ItemFor(dir, staging)
              == Some(Item(record.(size := SizeOf(dir[staging])), Some(staging + METADATA_SUFFIX)))
  {
    var metadata := staging + METADATA_SUFFIX;
    if metadata in dir {
      match dir[metadata]
      case Regular(Json(record, _), _) => assert VouchedFor(dir, staging, record) == Trustworthy(record, staging);
      case Link(Some(Json(record, _))) => assert VouchedFor(dir, staging, record) == Trustworthy(record, staging);
      case _ => assert forall record :: !VouchedFor(dir, staging, record);
    }
  }

  // ---------------------------------------------------------------- accounting

  /** totalRegularBytes: every regular file of the directory, metadata included. */
  ghost function TotalBytes(dir: Directory): nat {
    if dir == map[] then 0
    else var name :| name in dir; SizeOf(dir[name]) + TotalBytes(dir - {name})
  }

  lemma {:induction false} TotalRemove(dir: Directory, name: string)
    requires name in dir
    ensures TotalBytes(dir) == SizeOf(dir[name]) + TotalBytes(dir - {name})
    decreases |dir|
  {
    var picked :| picked in dir && TotalBytes(dir) == SizeOf(dir[picked]) + TotalBytes(dir - {picked});
    if picked != name {
      TotalRemove(dir - {picked}, name);
      TotalRemove(dir - {name}, picked);
      assert dir - {picked} - {name} == dir - {name} - {picked};
    }
  }

  function SizeAt(dir: Directory, name: string): nat {
    if name in dir then SizeOf(dir[name]) else 0
  }

  lemma TotalReplace(dir: Directory, name: string, node: Node)
    ensures TotalBytes(dir[name := node]) == TotalBytes(dir) - SizeAt(dir, name) + SizeOf(node)
    ensures TotalBytes(dir - {name}) == TotalBytes(dir) - SizeAt(dir, name)
  {
    TotalRemove(dir[name := node], name);
    assert dir[name := node] - {name} == dir - {name};
    if name in dir {
      TotalRemove(dir, name);
    } else {
      assert dir - {name} == dir;
    }
  }

  /** An empty directory takes nothing, a new file what it holds, a link or a folder nothing. */
  lemma TotalExactly(dir: Directory, name: string, node: Node)
    requires name !in dir
    ensures TotalBytes(map[]) == 0
    ensures TotalBytes(dir[name := node]) == TotalBytes(dir)
            + match node
              case Regular(Blob(bytes), _) => |bytes|
              case Regular(Json(_, length), _) => length
              case _ => 0
  {
    TotalReplace(dir, name, node);
  }

  /** The entries of a listing, as os.ReadDir returns them: each name once. */
  ghost predicate Lists(entries: seq<string>, dir: Directory) {
    && (forall i :: 0 <= i < |entries| ==> entries[i] in dir)
    && (forall name :: name in dir ==> name in entries)
    && (forall i, j :: 0 <= i < j < |entries| ==> entries[i] != entries[j])
  }

  // --------------------------------------------------------------------- quota

  datatype Limits = Limits(maxFileBytes: int, maxTotalBytes: int)

  datatype Resize =
    | Granted
    | NegativeSize
    | OverFileLimit
    | UnsafePath
    | NotRegular
    | OverTotalLimit
    | Unreadable // the file or the directory could not be looked at

  /** The quota, over the mathematical integers. */
  ghost function Quota(dir: Directory, limits: Limits, path: LocalPath, newSize: int): Resize {
    if newSize < 0 then NegativeSize
    else if limits.maxFileBytes > 0 && newSize > limits.maxFileBytes then OverFileLimit
    else if SafeStagingPath(path).None? then UnsafePath
    else
      var name := SafeStagingPath(path).value;
      if name in dir && !dir[name].Regular? then NotRegular
      else if limits.maxTotalBytes > 0 && newSize > SizeAt(dir, name)
              && TotalBytes(dir) + (newSize - SizeAt(dir, name)) > limits.maxTotalBytes then OverTotalLimit
      else Granted
  }

  /** A resize is granted exactly when it asks for no more than a file may have, the path is
      a staging name of the directory that is free or a regular file, and, if it grows that
      file at all, the directory with the file at its new size keeps within the total. */
  lemma GrantedExactly(dir: Directory, limits: Limits, path: LocalPath, resized: Node)
    requires resized.Regular?
    ensures var size := SizeOf(resized);
            Quota(dir, limits, path, size) == Granted <==>
              && (limits.maxFileBytes <= 0 || size <= limits.maxFileBytes)
              && path.InDirectory? && "staging-" <= path.name && (path.name in dir ==> dir[path.name].Regular?)
              && (|| limits.maxTotalBytes <= 0
                  || (path.name in dir && size <= SizeOf(dir[path.name])) || (path.name !in dir && size == 0)
                  || TotalBytes(dir[path.name := resized]) <= limits.maxTotalBytes)
    ensures forall size: int :: size < 0 ==> Quota(dir, limits, path, size) == NegativeSize
  {
    if path.InDirectory? {
      TotalReplace(dir, path.name, resized);
    }
  }

  // ------------------------------------------------------------- expiry, preserving

  ghost predicate Expired(dir: Directory, cutoff: int, staging: string) {
    && ItemFor(dir, staging).Some?
    && IsExpired(ItemFor(dir, staging).value, cutoff)
  }

  predicate IsExpired(item: Item, cutoff: int) {
    && item.metadata.state == Preserved
    && item.metadata.preservedAt != ZERO_TIME
    && item.metadata.preservedAt <= cutoff
  }

  function Cutoff(retentionDays: int, now: int): int {
    now - retentionDays * MILLISECONDS_PER_DAY
  }

  /** Preserved at least so many days before now, with its staging file in place. */
  ghost predicate PreservedLongAgo(dir: Directory, staging: string, days: int, now: int) {
    && staging in dir && dir[staging].Regular?
    && exists record :: VouchedFor(dir, staging, record)
                        && record.preservedAt != ZERO_TIME && record.preservedAt + days * 86_400_000 <= now
  }

  ghost function NamesPreservedLongAgo(dir: Directory, days: int, now: int): set<string> {
    set staging | staging in dir && PreservedLongAgo(dir, staging, days, now)
  }

  lemma ExpiredMeans(dir: Directory, staging: string, days: int, now: int)
    ensures Expired(dir, Cutoff(days, now), staging) <==> PreservedLongAgo(dir, staging, days, now)
  {
    ScanStates(dir, staging);
  }

  ghost function ExpiredNames(dir: Directory, cutoff: int): set<string> {
    set name | name in dir && Expired(dir, cutoff, name)
  }

  predicate IsTemporary(name: string) {
    HasPrefix(name, TEMPORARY_PREFIX) && HasSuffix(name, TEMPORARY_SUFFIX)
  }

  /** The directories a crash may leave behind while `record` is written for `destination`:
      untouched, with a temporary of any content, or with the complete new record. */
  ghost predicate CrashState(d: Directory, before: Directory, temporary: string, destination: string,
                             record: Metadata) {
    || d == before
    || (exists body, time :: d == WithTemporary(before, temporary, body, time))
    || (exists length, time :: d == WithRecord(before, destination, record, length, time))
  }

  ghost function WithRecord(before: Directory, destination: string, record: Metadata, length: nat,
                            time: int): Directory {
    before[destination := Regular(Json(record, length), time)]
  }

  ghost function WithTemporary(before: Directory, temporary: string, body: Body, time: int): Directory {
    before[temporary := Regular(body, time)]
  }

  lemma MetadataIsNoTemporary(staging: string)
    ensures !IsTemporary(staging + METADATA_SUFFIX)
  {
    if IsTemporary(staging + METADATA_SUFFIX) {
      TemporaryIsNoItem(staging + METADATA_SUFFIX, staging);
    }
  }

  /** The record of a preserve: what was asked for, with the file's own size and time. */
  function RecordFor(node: Node, name: string, profileID: string, remotePath: string, createdAt: int,
                     reason: string, lastError: string, now: int): Metadata
    requires node.Regular?
  {
    Metadata(METADATA_VERSION, profileID, remotePath, InDirectory(name), SizeOf(node),
             if createdAt == ZERO_TIME then node.modTime else createdAt, node.modTime, now, reason, lastError,
             Preserved)
  }

  /** A state in which a crash may find the directory while `path` is preserved with this
      record. */
  ghost predicate PreserveCrash(d: Directory, before: Directory, path: LocalPath, record: Metadata) {
    exists temporary :: PreservingState(d, before, path, temporary, record)
  }

  ghost predicate PreservingState(d: Directory, before: Directory, path: LocalPath, temporary: string,
                                  record: Metadata) {
    && path.InDirectory? && HasPrefix(path.name, STAGING_PREFIX)
    && path.name in before && before[path.name].Regular?
    && IsTemporary(temporary) && temporary !in before
    && Trustworthy(record, path.name)
    && CrashState(d, before, temporary, path.name + METADATA_SUFFIX, record)
  }

  /** A leftover temporary is neither staging nor metadata. */
  lemma TemporaryIsNoItem(temporary: string, staging: string)
    requires IsTemporary(temporary)
    ensures temporary != staging + METADATA_SUFFIX
    ensures !HasPrefix(temporary, STAGING_PREFIX)
  {
    var metadata := staging + METADATA_SUFFIX;
    assert metadata[|metadata| - 1] == 'n';
    assert temporary[|temporary| - |TEMPORARY_SUFFIX|..][3] == temporary[|temporary| - 1] == 'p';
    assert temporary[0] == '.';
  }

  /** Crash atomicity: whatever state a crash leaves, the next scan reports the staging
      file as before or as preserved with the whole new record; every other item and the
      staging bytes are unchanged. */
  lemma PreserveCrashAtomic(d: Directory, before: Directory, path: LocalPath, profileID: string, remotePath: string,
                            createdAt: int, reason: string, lastError: string, now: int, other: string)
    requires path.InDirectory? && path.name in before && before[path.name].Regular?
    requires PreserveCrash(d, before, path, RecordFor(before[path.name], path.name, profileID, remotePath, createdAt,
                                                      reason, lastError, now))
    ensures || ItemFor(d, path.name) == ItemFor(before, path.name)
            || ItemFor(d, path.name)
               == Some(Item(RecordFor(before[path.name], path.name, profileID, remotePath, createdAt, reason, lastError,
                                      now),
                            Some(path.name + METADATA_SUFFIX)))
    ensures path.name in d && d[path.name] == before[path.name]
    ensures other != path.name && other != path.name + METADATA_SUFFIX ==> ItemFor(d, other) == ItemFor(before, other)
  {
    var record := RecordFor(before[path.name], path.name, profileID, remotePath, createdAt, reason, lastError, now);
    var temporary :| PreservingState(d, before, path, temporary, record);
    assert record.(size := SizeOf(before[path.name])) == record;
    hide *;
    PreservingScan(d, before, path, temporary, record, other);
  }

  lemma PreservingScan(d: Directory, before: Directory, path: LocalPath, temporary: string, record: Metadata,
                       other: string)
    requires PreservingState(d, before, path, temporary, record)
    ensures || ItemFor(d, path.name) == ItemFor(before, path.name)
            || ItemFor(d, path.name)
               == Some(Item(record.(size := SizeOf(before[path.name])), Some(path.name + METADATA_SUFFIX)))
    ensures path.name in d && d[path.name] == before[path.name]
    ensures other != path.name && other != path.name + METADATA_SUFFIX ==> ItemFor(d, other) == ItemFor(before, other)
  {
    var staging := path.name;
    TemporaryIsNoItem(temporary, staging);
    TemporaryIsNoItem(temporary, other);
    assert |staging + METADATA_SUFFIX| > |staging|;
    if other != staging {
      assert other + METADATA_SUFFIX != staging + METADATA_SUFFIX by {
        assert (other + METADATA_SUFFIX)[..|other|] == other;
        assert (staging + METADATA_SUFFIX)[..|staging|] == staging;
      }
    }
    if body, time :| d == WithTemporary(before, temporary, body, time) {
      assert ItemFor(d, staging) == ItemFor(before, staging);
      TemporaryDoesNotMatter(before, temporary, Regular(body, time), other);
    } else if length, time :| d == WithRecord(before, staging + METADATA_SUFFIX, record, length, time) {
      assert HoldsMetadata(d, staging);
    }
  }

  lemma TemporaryDoesNotMatter(before: Directory, temporary: string, node: Node, name: string)
    requires IsTemporary(temporary) && temporary !in before
    ensures ItemFor(before[temporary := node], name) == ItemFor(before, name)
  {
    TemporaryIsNoItem(temporary, name);
    var d := before[temporary := node];
    if name == temporary && HoldsMetadata(before, name) {
      assert forall record :: !Trustworthy(record, name);
    }
  }

  // ------------------------------------------------------------ disjoint pairs

  /** No staging name carries the metadata suffix itself. */
  ghost predicate NoDoubledSuffix(dir: Directory) {
    forall staging :: ItemFor(dir, staging).Some? ==> !HasSuffix(staging, METADATA_SUFFIX)
  }

  predicate InPair(name: string, staging: string) {
    name == staging || name == staging + METADATA_SUFFIX
  }

  lemma PairsDisjoint(a: string, b: string, name: string)
    requires !HasSuffix(a, METADATA_SUFFIX) && !HasSuffix(b, METADATA_SUFFIX)
    requires InPair(name, a) && InPair(name, b)
    ensures a == b
  {
    assert HasSuffix(a + METADATA_SUFFIX, METADATA_SUFFIX) && HasSuffix(b + METADATA_SUFFIX, METADATA_SUFFIX);
    assert (a + METADATA_SUFFIX)[..|a|] == a && (b + METADATA_SUFFIX)[..|b|] == b;
  }

  /** The names whose staging and metadata are both gone. */
  ghost function Gone(names: set<string>, d: Directory): set<string> {
    set s | s in names && IsGone(d, s)
  }

  ghost predicate IsGone(d: Directory, staging: string) {
    staging !in d && staging + METADATA_SUFFIX !in d
  }

  lemma PairsApart(a: string, b: string)
    requires a != b && !HasSuffix(a, METADATA_SUFFIX) && !HasSuffix(b, METADATA_SUFFIX)
    ensures a != b + METADATA_SUFFIX && a + METADATA_SUFFIX != b && a + METADATA_SUFFIX != b + METADATA_SUFFIX
  {
    if a == b + METADATA_SUFFIX || a + METADATA_SUFFIX == b + METADATA_SUFFIX {
      PairsDisjoint(a, b, b + METADATA_SUFFIX);
    }
    if a + METADATA_SUFFIX == b {
      PairsDisjoint(a, b, b);
    }
  }

  lemma IsGoneMeans(d: Directory, staging: string)
    ensures IsGone(d, staging) <==> staging !in d && staging + METADATA_SUFFIX !in d
  {
  }

  lemma StaysGone(d: Directory, next: Directory, staging: string, s: string)
    requires s != staging && !HasSuffix(s, METADATA_SUFFIX) && !HasSuffix(staging, METADATA_SUFFIX)
    requires next == d || next == d - {staging} || next == d - {staging, staging + METADATA_SUFFIX}
    ensures IsGone(next, s) <==> IsGone(d, s)
  {
    PairsApart(s, staging);
    hide HasSuffix;
  }

  lemma CountOneMore(d: Directory, next: Directory, names: set<string>, staging: string)
    requires staging !in names && forall s :: s in names ==> (IsGone(next, s) <==> IsGone(d, s))
    ensures |Gone(names + {staging}, next)| == |Gone(names, d)| + if IsGone(next, staging) then 1 else 0
  {
    hide IsGone;
    assert Gone(names + {staging}, next) == Gone(names, d) + if IsGone(next, staging) then {staging} else {};
  }

  /** As the pairs are disjoint, no other name lost a file or got one back. */
  lemma OneMoreGone(d: Directory, next: Directory, names: set<string>, staging: string, failed: bool)
    requires staging !in names && !HasSuffix(staging, METADATA_SUFFIX)
    requires forall s :: s in names ==> !HasSuffix(s, METADATA_SUFFIX)
    requires next == d || next == d - {staging} || next == d - {staging, staging + METADATA_SUFFIX}
    requires failed <==> staging in next || staging + METADATA_SUFFIX in next
    ensures |Gone(names + {staging}, next)| == |Gone(names, d)| + if failed then 0 else 1
  {
    hide HasSuffix, IsGone, Gone;
    assert IsGone(next, staging) == !failed by {
      IsGoneMeans(next, staging);
    }
    forall s | s in names
      ensures IsGone(next, s) <==> IsGone(d, s)
    {
      StaysGone(d, next, staging, s);
    }
    CountOneMore(d, next, names, staging);
  }

  /** A delete that failed left one of the pair where it was. */
  lemma DeleteSpares(item: Item, staging: string, before: Directory, after: Directory, error: Option<DeleteError>)
    requires item.metadata.state == Preserved && item.metadata.stagingPath == InDirectory(staging)
    requires item.metadataName == Some(staging + METADATA_SUFFIX) && error != Some(BadState) && error != Some(BadPath)
    requires error != Some(PathMismatch)
    requires error == Some(StagingNotRemoved) ==> staging in before && after == before
    requires error == Some(MetadataNotRemoved) ==>
               staging + METADATA_SUFFIX in before && after == before - {staging}
    ensures error.Some? ==> staging in after || staging + METADATA_SUFFIX in after
  {
    assert |staging + METADATA_SUFFIX| > |staging|;
    if error.Some? {
      match error.value
      case StagingNotRemoved => assert staging in after;
      case MetadataNotRemoved => assert staging + METADATA_SUFFIX in after;
    }
  }

  lemma ExpiredIsPlain(dir: Directory, cutoff: int)
    requires NoDoubledSuffix(dir)
    ensures forall s :: Expired(dir, cutoff, s) ==> !HasSuffix(s, METADATA_SUFFIX)
  {
  }

  lemma ExpiredTest(dir: Directory, cutoff: int, staging: string, item: Item)
    requires ItemFor(dir, staging) == Some(item)
    ensures Expired(dir, cutoff, staging) <==>
              && item.metadata.state == Preserved && item.metadata.preservedAt != ZERO_TIME
              && item.metadata.preservedAt <= cutoff
  {
  }

  /** What pruning promises of the directory it leaves, even when a delete fails midway. */
  ghost predicate PrunedTo(before: Directory, d: Directory, cutoff: int) {
    && (forall name :: name in d ==> name in before && d[name] == before[name])
    && (forall name :: name in before && name !in d ==>
          exists staging :: Expired(before, cutoff, staging) && InPair(name, staging))
  }

  /** Pruning in terms of the records. */
  lemma PrunedLongAgo(before: Directory, d: Directory, days: int, now: int)
    requires PrunedTo(before, d, Cutoff(days, now))
    ensures forall name :: name in d ==> name in before && d[name] == before[name]
    ensures forall name :: name in before && name !in d ==>
              exists staging :: PreservedLongAgo(before, staging, days, now)
                                && (name == staging || name == staging + METADATA_SUFFIX)
    ensures forall staging :: Expired(before, Cutoff(days, now), staging) <==>
              PreservedLongAgo(before, staging, days, now)
    ensures ExpiredNames(before, Cutoff(days, now))
            == NamesPreservedLongAgo(before, days, now)
  {
    forall staging
      ensures Expired(before, Cutoff(days, now), staging) <==> PreservedLongAgo(before, staging, days, now)
    {
      ExpiredMeans(before, staging, days, now);
    }
    hide Expired, PreservedLongAgo, Cutoff;
    forall name | name in before && name !in d
      ensures exists staging :: PreservedLongAgo(before, staging, days, now)
                                && (name == staging || name == staging + METADATA_SUFFIX)
    {
      var staging :| Expired(before, Cutoff(days, now), staging) && InPair(name, staging);
      assert PreservedLongAgo(before, staging, days, now) && (name == staging || name == staging + METADATA_SUFFIX);
    }
  }

  lemma PrunedStep(before: Directory, d: Directory, next: Directory, cutoff: int, staging: string)
    requires PrunedTo(before, d, cutoff) && Expired(before, cutoff, staging)
    requires next == d || next == d - {staging} || next == d - {staging, staging + METADATA_SUFFIX}
    ensures PrunedTo(before, next, cutoff)
  {
    forall name | name in before && name !in next
      ensures exists s :: Expired(before, cutoff, s) && InPair(name, s)
    {
      if name in d {
        assert InPair(name, staging);
      }
    }
  }

  /** Every item that has not expired is reported exactly as before. */
  lemma PruneSparesOthers(before: Directory, d: Directory, cutoff: int, staging: string)
    requires NoDoubledSuffix(before) && PrunedTo(before, d, cutoff)
    requires ItemFor(before, staging).Some? && !Expired(before, cutoff, staging)
    ensures ItemFor(d, staging) == ItemFor(before, staging)
  {
    var metadata := staging + METADATA_SUFFIX;
    if staging in before && staging !in d {
      var s :| Expired(before, cutoff, s) && InPair(staging, s);
      PairsDisjoint(s, staging, staging);
      assert false;
    }
    if metadata in before && metadata !in d {
      var s :| Expired(before, cutoff, s) && InPair(metadata, s);
      PairsDisjoint(s, staging, metadata);
      assert false;
    }
  }

  // -------------------------------------------------------------------- the object

  datatype PreserveError = UnsafeStagingPath | StagingMissing | StagingNotRegular | MetadataNotWritten

  datatype DeleteError = BadState | BadPath | PathMismatch | StagingNotRemoved | MetadataNotRemoved

  class Store {
    var dir: Directory
    var locked: bool                      // the global resize mutex
    const limits: Limits
    ghost var journal: seq<Directory>     // every state the directory has been in
    ghost var asked: seq<LocalPath>       // every path whose preservation was asked for

    ghost predicate Valid()
      reads this
    {
      && journal != [] && journal[|journal| - 1] == dir
      && limits.maxFileBytes <= INT64_MAX && limits.maxTotalBytes <= INT64_MAX
    }

    constructor (dir: Directory, limits: Limits)
      requires limits.maxFileBytes <= INT64_MAX && limits.maxTotalBytes <= INT64_MAX
      ensures Valid() && this.dir == dir && this.limits == limits && !locked && journal == [dir] && asked == []
    {
      this.dir, this.limits, this.locked, this.journal, this.asked := dir, limits, false, [dir], [];
    }

    method Put(name: string, node: Node)
      requires Valid()
      modifies this`dir, this`journal
      ensures Valid() && dir == old(dir)[name := node] && journal == old(journal) + [dir]
    {
      dir := dir[name := node];
      journal := journal + [dir];
    }

    method Erase(name: string)
      requires Valid()
      modifies this`dir, this`journal
      ensures Valid() && dir == old(dir) - {name} && journal == old(journal) + [dir]
    {
      dir := dir - {name};
      journal := journal + [dir];
    }

    /** os.Rename replaces the destination in one step. */
    method Move(source: string, destination: string)
      requires Valid() && source in dir && source != destination
      modifies this`dir, this`journal
      ensures Valid() && dir == (old(dir) - {source})[destination := old(dir)[source]]
              && journal == old(journal) + [dir]
    {
      dir := (dir - {source})[destination := dir[source]];
      journal := journal + [dir];
    }

    /** os.ReadDir; the order is of no consequence here. */
    method ReadDir() returns (entries: seq<string>)
      ensures Lists(entries, dir)
    {
      entries := [];
      var rest := dir.Keys;
      while rest != {}
        invariant rest <= dir.Keys
        invariant forall i :: 0 <= i < |entries| ==> entries[i] in dir && entries[i] !in rest
        invariant forall name :: name in dir ==> name in rest || name in entries
        invariant forall i, j :: 0 <= i < j < |entries| ==> entries[i] != entries[j]
        decreases |rest|
      {
        var name :| name in rest;
        entries := entries + [name];
        rest := rest - {name};
      }
    }

    // ------------------------------------------------------------------ quota

    method TotalRegularBytes() returns (total: int)
      ensures total == TotalBytes(dir)
    {
      var entries := ReadDir();
      total := 0;
      ghost var rest := dir;
      for i := 0 to |entries|
        invariant total + TotalBytes(rest) == TotalBytes(dir)
        invariant forall name :: name in rest <==> name in dir && name !in entries[..i]
        invariant forall name :: name in rest ==> rest[name] == dir[name]
      {
        TotalReplace(rest, entries[i], Folder);
        total := total + SizeOf(dir[entries[i]]);
        rest := rest - {entries[i]};
      }
      assert rest == map[];
    }

    /** Granted leaves the mutex locked for the caller's write; every refusal unlocks it.
        The int64 comparison the code makes agrees with the mathematical quota. */
    method LockResize(path: LocalPath, newSize: int) returns (r: Resize)
      requires Valid() && !locked
      requires newSize <= INT64_MAX && TotalBytes(dir) <= INT64_MAX
      modifies this`locked
      ensures r == Quota(dir, limits, path, newSize)
              || (r == Unreadable && Quota(dir, limits, path, newSize) in {Granted, NotRegular, OverTotalLimit})
      ensures locked <==> r.Granted?
    {
      if newSize < 0 {
        return NegativeSize;
      }
      locked := true;
      if limits.maxFileBytes > 0 && newSize > limits.maxFileBytes {
        locked := false;
        return OverFileLimit;
      }
      var name := SafeStagingPath(path);
      if name.None? {
        locked := false;
        return UnsafePath;
      }
      var currentSize := 0;
      var known: bool := *;
      if !known {
        locked := false;
        return Unreadable;
      }
      if name.value in dir {
        if !dir[name.value].Regular? {
          locked := false;
          return NotRegular;
        }
        currentSize := SizeOf(dir[name.value]);
      }
      if limits.maxTotalBytes > 0 && newSize > currentSize {
        var listed: bool := *;
        if !listed {
          locked := false;
          return Unreadable;
        }
        var usage := TotalRegularBytes();
        var growth := Wrap64(newSize - currentSize);
        WrapExact(newSize - currentSize);
        WrapExact(limits.maxTotalBytes - growth);
        if usage > Wrap64(limits.maxTotalBytes - growth) {
          locked := false;
          return OverTotalLimit;
        }
      }
      return Granted;
    }

    method Unlock()
      requires locked
      modifies this`locked
      ensures !locked
    {
      locked := false;
    }

    // ------------------------------------------------------------------- scan

    method Scan() returns (items: seq<Item>)
      ensures forall i :: 0 <= i < |items| ==>
                items[i].metadata.stagingPath.InDirectory?
                && ItemFor(dir, items[i].metadata.stagingPath.name) == Some(items[i])
      ensures forall staging :: ItemFor(dir, staging).Some? ==> ItemFor(dir, staging).value in items
      ensures forall i, j :: 0 <= i < j < |items| ==> items[i].metadata.stagingPath != items[j].metadata.stagingPath
    {
      var entries := ReadDir();
      items := [];
      var seen: set<string> := {};
      for n := 0 to |entries|
        invariant ItemsOf(items, dir)
        invariant forall staging :: staging in seen <==>
                    HoldsMetadata(dir, staging) && staging + METADATA_SUFFIX in entries[..n]
        invariant forall staging :: staging in seen <==> Covers(items, staging)
      {
        var name := entries[n];
        if !dir[name].Folder? && HasSuffix(name, METADATA_SUFFIX) {
          var staging := name[..|name| - |METADATA_SUFFIX|];
          assert name == staging + METADATA_SUFFIX;
          ItemNamesStaging(dir, staging);
          items := AddItem(items, dir, staging, ScanMetadata(dir, staging));
          seen := seen + {staging};
        }
      }
      ghost var classified := seen;
      for n := 0 to |entries|
        invariant ItemsOf(items, dir)
        invariant forall staging :: Covers(items, staging) <==>
                    HoldsMetadata(dir, staging) || (HoldsStaging(dir, staging) && staging in entries[..n])
      {
        var name := entries[n];
        if HoldsStaging(dir, name) && name !in seen {
          items := AddItem(items, dir, name, Unclassified(dir[name], name));
        }
      }
    }

    // -------------------------------------------------------- delete and prune

    /** removeRecoveryFile: a missing file is fine, a directory is refused. */
    method RemoveRecoveryFile(name: string) returns (ok: bool)
      requires Valid()
      modifies this`dir, this`journal
      ensures Valid()
      ensures ok ==> name !in dir && dir == old(dir) - {name}
      ensures !ok ==> dir == old(dir)
      ensures name !in old(dir) ==> ok
      ensures name in old(dir) && old(dir)[name].Folder? ==> !ok
    {
      if name !in dir {
        assert dir - {name} == dir;
        return true;
      }
      if dir[name].Folder? {
        return false;
      }
      ok := *;
      if ok {
        Erase(name);
      }
    }

    method Delete(item: Item) returns (error: Option<DeleteError>)
      requires Valid()
      modifies this`dir, this`journal
      ensures Valid()
      ensures error == Some(BadState) <==> item.metadata.state.UnknownState?
      ensures !item.metadata.state.UnknownState? ==>
                (error == Some(BadPath) <==> SafeStagingPath(item.metadata.stagingPath).None?)
      ensures error.None? ==>
                && SafeStagingPath(item.metadata.stagingPath).Some?
                && var staging := SafeStagingPath(item.metadata.stagingPath).value;
                   dir == old(dir) - (if item.metadataName.Some? then {staging, staging + METADATA_SUFFIX}
                                      else {staging})
      ensures error == Some(MetadataNotRemoved) ==>
                && item.metadata.stagingPath.InDirectory?
                && dir == old(dir) - {item.metadata.stagingPath.name}
      ensures error.Some? && error != Some(MetadataNotRemoved) ==> dir == old(dir)
      ensures error == Some(PathMismatch) <==>
                && !item.metadata.state.UnknownState? && SafeStagingPath(item.metadata.stagingPath).Some?
                && item.metadataName.Some?
                && item.metadataName.value != item.metadata.stagingPath.name + METADATA_SUFFIX
      ensures error == Some(StagingNotRemoved) ==> item.metadata.stagingPath.name in old(dir)
      ensures error == Some(MetadataNotRemoved) ==> item.metadata.stagingPath.name + METADATA_SUFFIX in old(dir)
      ensures error.None? ==>
                !(item.metadata.stagingPath.name in old(dir) && old(dir)[item.metadata.stagingPath.name].Folder?)
    {
      if item.metadata.state.UnknownState? {
        return Some(BadState);
      }
      var staging := SafeStagingPath(item.metadata.stagingPath);
      if staging.None? {
        return Some(BadPath);
      }
      if item.metadataName.Some? && item.metadataName.value != staging.value + METADATA_SUFFIX {
        return Some(PathMismatch);
      }
      var ok := RemoveRecoveryFile(staging.value);
      if !ok {
        return Some(StagingNotRemoved);
      }
      if item.metadataName.Some? {
        ok := RemoveRecoveryFile(item.metadataName.value);
        if !ok {
          return Some(MetadataNotRemoved);
        }
        assert dir == old(dir) - {staging.value, staging.value + METADATA_SUFFIX};
      }
      return None;
    }

    /** Only expired preserved items are removed, each with its metadata; failures are
        counted and the rest still goes. */
    method PruneExpired(retentionDays: int, now: int) returns (removed: nat, failures: nat, refused: bool)
      requires Valid()
      modifies this`dir, this`journal
      ensures Valid() && refused == (retentionDays <= 0)
      ensures refused ==> dir == old(dir) && removed == 0
      ensures PrunedTo(old(dir), dir, Cutoff(retentionDays, now))
      ensures !refused && failures == 0 ==>
                forall staging :: Expired(old(dir), Cutoff(retentionDays, now), staging) ==>
                  staging !in dir && staging + METADATA_SUFFIX !in dir
      ensures !refused ==> removed + failures == |ExpiredNames(old(dir), Cutoff(retentionDays, now))|
      ensures forall name :: name in dir ==> name in old(dir) && dir[name] == old(dir)[name]
      ensures forall name :: name in old(dir) && name !in dir ==>
                exists staging :: PreservedLongAgo(old(dir), staging, retentionDays, now)
                                  && (name == staging || name == staging + METADATA_SUFFIX)
      ensures !refused && failures == 0 ==>
                forall staging :: PreservedLongAgo(old(dir), staging, retentionDays, now) ==>
                  staging !in dir && staging + METADATA_SUFFIX !in dir
      ensures !refused ==>
                removed + failures == |NamesPreservedLongAgo(old(dir), retentionDays, now)|
      ensures !refused && NoDoubledSuffix(old(dir)) ==>
                removed == |Gone(NamesPreservedLongAgo(old(dir), retentionDays, now), dir)|
    {
      hide ItemFor, Expired, PreservedLongAgo, NamesPreservedLongAgo, ExpiredNames, Cutoff, PrunedTo, InPair, HasSuffix;
      NothingPruned(dir, Cutoff(retentionDays, now));
      if retentionDays <= 0 {
        return 0, 0, true;
      }
      var items := Scan();
      ghost var handled;
      removed, failures, handled := DeleteExpired(items, Cutoff(retentionDays, now));
      AllHandled(old(dir), Cutoff(retentionDays, now), items, handled);
      refused := false;
      ghost var before := old(dir);
      PrunedLongAgo(before, dir, retentionDays, now);
    }

    method DeleteExpired(items: seq<Item>, cutoff: int)
      returns (removed: nat, failures: nat, ghost handled: set<string>)
      requires Valid() && ItemsOf(items, dir)
      modifies this`dir, this`journal
      ensures Valid() && PrunedTo(old(dir), dir, cutoff)
      ensures forall s :: s in handled <==> Expired(old(dir), cutoff, s) && Covers(items, s)
      ensures removed + failures == |handled|
      ensures NoDoubledSuffix(old(dir)) ==> removed == |Gone(handled, dir)|
      ensures failures == 0 ==> forall s :: s in handled ==> s !in dir && s + METADATA_SUFFIX !in dir
    {
      hide PrunedTo, Covers, ItemFor, Expired, HasSuffix, ItemsOf, NoDoubledSuffix;
      removed, failures, handled := 0, 0, {};
      ghost var before := dir;
      NothingPruned(before, cutoff);
      NoneCovered(items);
      for n := 0 to |items|
        invariant Valid() && PrunedTo(before, dir, cutoff)
        invariant removed + failures == |handled|
        invariant forall s :: s in handled <==> Expired(before, cutoff, s) && Covers(items[..n], s)
        invariant failures == 0 ==> forall s :: s in handled ==> s !in dir && s + METADATA_SUFFIX !in dir
        invariant NoDoubledSuffix(before) ==> removed == |Gone(handled, dir)|
      {
        ItemReported(items, before, n);
        ghost var staging := items[n].metadata.stagingPath.name;
        ghost var earlier := dir;
        var expired, failed := DeleteIfExpired(items[n], cutoff, before, staging);
        if expired {
          if NoDoubledSuffix(before) {
            ExpiredIsPlain(before, cutoff);
            OneMoreGone(earlier, dir, handled, staging, failed);
          }
          handled := handled + {staging};
          if failed {
            failures := failures + 1;
          } else {
            removed := removed + 1;
          }
        }
      }
      assert items[..|items|] == items;
    }

    method DeleteIfExpired(item: Item, cutoff: int, ghost before: Directory, ghost staging: string)
      returns (expired: bool, failed: bool)
      requires Valid() && ItemFor(before, staging) == Some(item) && PrunedTo(before, dir, cutoff)
      modifies this`dir, this`journal
      ensures Valid() && PrunedTo(before, dir, cutoff)
      ensures expired <==> Expired(before, cutoff, staging)
      ensures expired ==> (failed <==> staging in dir || staging + METADATA_SUFFIX in dir)
      ensures dir == old(dir) || dir == old(dir) - {staging} || dir == old(dir) - {staging, staging + METADATA_SUFFIX}
      ensures forall name :: name in dir ==> name in old(dir)
      ensures !expired ==> dir == old(dir)
    {
      hide ItemFor, Expired, PrunedTo, HasSuffix, HasPrefix;
      expired, failed := false, false;
      ExpiredTest(before, cutoff, staging, item);
      if item.metadata.state == Preserved && item.metadata.preservedAt != ZERO_TIME
         && !(item.metadata.preservedAt > cutoff) {
        ItemIsPreserved(before, staging);
        ItemNamesStaging(before, staging);
        var error := Delete(item);
        DeleteSpares(item, staging, old(dir), dir, error);
        PrunedStep(before, old(dir), dir, cutoff, staging);
        expired, failed := true, error.Some?;
      }
    }

    // --------------------------------------------------------------- preserve

    /** The name os.CreateTemp picks: one that no entry has. */
    method UnusedName(prefix: string, suffix: string) returns (name: string, digits: string)
      ensures name == prefix + digits + suffix && name !in dir
      ensures forall i :: 0 <= i < |digits| ==> digits[i] == '0'
    {
      var entries := ReadDir();
      var longest: nat := 0;
      for i := 0 to |entries|
        invariant forall j :: 0 <= j < i ==> |entries[j]| <= longest
      {
        if |entries[i]| > longest {
          longest := |entries[i]|;
        }
      }
      digits := seq(longest + 1, _ => '0');
      name := prefix + digits + suffix;
    }

    /** An empty staging file under a name of its own. */
    method CreateStaging(now: int) returns (name: Option<string>)
      requires Valid()
      modifies this`dir, this`journal
      ensures Valid()
      ensures name.None? ==> dir == old(dir)
      ensures name.Some? ==>
                && name.value !in old(dir) && HasPrefix(name.value, STAGING_PREFIX)
                   && !HasSuffix(name.value, METADATA_SUFFIX)
                && dir == old(dir)[name.value := Regular(Blob([]), now)]
    {
      var ok: bool := *;
      if !ok {
        return None;
      }
      var picked, digits := UnusedName(STAGING_PREFIX, "");
      assert picked == STAGING_PREFIX + digits;
      assert !HasSuffix(picked, METADATA_SUFFIX) by {
        if |METADATA_SUFFIX| <= |picked| {
          assert picked[|picked| - |METADATA_SUFFIX|..][|METADATA_SUFFIX| - 1] == '0';
        }
      }
      Put(picked, Regular(Blob([]), now));
      return Some(picked);
    }

    /** writeMetadataAtomic: write a temporary, then rename it over the destination. */
    method WriteMetadataAtomic(destination: string, record: Metadata, now: int) returns (ok: bool, temporary: string)
      requires Valid() && !IsTemporary(destination)
      modifies this`dir, this`journal
      ensures Valid() && |old(journal)| <= |journal|
      ensures IsTemporary(temporary) && temporary !in old(dir)
      ensures forall i :: |old(journal)| <= i < |journal| ==>
                CrashState(journal[i], old(dir), temporary, destination, record)
      ensures ok ==> exists length, time :: dir == WithRecord(old(dir), destination, record, length, time)
      ensures !ok ==> dir == old(dir) || dir - {temporary} == old(dir)
    {
      ghost var before := dir;
      ghost var digits;
      temporary, digits := UnusedName(TEMPORARY_PREFIX, TEMPORARY_SUFFIX);
      ok := *;
      if !ok {
        return;
      }
      var length: nat := *;
      ok := WriteTemporary(temporary, record, length, now);
      if ok && !(destination in dir && dir[destination].Folder?) {
        ok := *;
        if ok {
          Move(temporary, destination);
          assert dir == WithRecord(before, destination, record, length, now);
          return;
        }
      }
      ok := false;
      var cleaned: bool := *;
      if cleaned {
        Erase(temporary);
        assert dir == before;
      }
      assert dir - {temporary} == before;
    }

    /** Create, encode, sync and close the temporary; it may be left with anything in it. */
    method WriteTemporary(temporary: string, record: Metadata, length: nat, now: int) returns (ok: bool)
      requires Valid() && temporary !in dir
      modifies this`dir, this`journal
      ensures Valid() && |old(journal)| <= |journal|
      ensures forall i :: |old(journal)| <= i < |journal| ==>
                exists body :: journal[i] == WithTemporary(old(dir), temporary, body, now)
      ensures exists body :: dir == WithTemporary(old(dir), temporary, body, now)
      ensures ok ==> dir == WithTemporary(old(dir), temporary, Json(record, length), now)
    {
      ghost var before := dir;
      Put(temporary, Regular(Blob([]), now));
      assert dir == WithTemporary(before, temporary, Blob([]), now);
      var written: Bytes := *;
      Put(temporary, Regular(Blob(written), now));
      assert dir == WithTemporary(before, temporary, Blob(written), now);
      ok := *;
      if ok {
        Put(temporary, Regular(Json(record, length), now));
        assert dir == WithTemporary(before, temporary, Json(record, length), now);
        ok := *;
      }
    }

    method Preserve(path: LocalPath, profileID: string, remotePath: string, createdAt: int, reason: string,
                    lastError: string, now: int)
      returns (r: Result<Item, PreserveError>)
      requires Valid()
      modifies this`dir, this`journal, this`asked
      ensures Valid() && |old(journal)| <= |journal| && asked == old(asked) + [path]
      ensures r == Failure(UnsafeStagingPath) <==> !(path.InDirectory? && HasPrefix(path.name, STAGING_PREFIX))
      ensures r == Failure(StagingMissing) <==>
                path.InDirectory? && HasPrefix(path.name, STAGING_PREFIX) && path.name !in old(dir)
      ensures r == Failure(StagingNotRegular) <==>
                path.InDirectory? && HasPrefix(path.name, STAGING_PREFIX) && path.name in old(dir)
                && !old(dir)[path.name].Regular?
      ensures r.Success? ==>
                && path.InDirectory? && path.name in old(dir) && old(dir)[path.name].Regular?
                && HasPrefix(path.name, STAGING_PREFIX)
                && Trustworthy(r.value.metadata, path.name)
                && r.value.metadata.profileID == profileID && r.value.metadata.remotePath == remotePath
                && r.value.metadata.reason == reason && r.value.metadata.lastError == lastError
                && r.value.metadata.size == SizeOf(old(dir)[path.name])
                && r.value.metadata.updatedAt == old(dir)[path.name].modTime
                && r.value.metadata.preservedAt == now
                && r.value.metadata.createdAt
                   == (if createdAt == ZERO_TIME then old(dir)[path.name].modTime else createdAt)
                && r.value.metadata
                   == RecordFor(old(dir)[path.name], path.name, profileID, remotePath, createdAt, reason, lastError,
                                now)
                && ItemFor(dir, path.name) == Some(r.value)
                && (forall other :: other != path.name + METADATA_SUFFIX ==>
                      ((other in dir <==> other in old(dir)) && (other in dir ==> dir[other] == old(dir)[other])))
      ensures r.Failure? && r.error != MetadataNotWritten ==> dir == old(dir)
      ensures r.Failure? ==> dir == old(dir) || exists t :: IsTemporary(t) && t !in old(dir) && dir - {t} == old(dir)
      ensures forall i :: |old(journal)| <= i < |journal| ==>
                && path.InDirectory? && path.name in old(dir) && old(dir)[path.name].Regular?
                && PreserveCrash(journal[i], old(dir), path,
                                 RecordFor(old(dir)[path.name], path.name, profileID, remotePath, createdAt, reason,
                                           lastError, now))
    {
      asked := asked + [path];
      var name := SafeStagingPath(path);
      if name.None? {
        return Failure(UnsafeStagingPath);
      }
      if name.value !in dir {
        return Failure(StagingMissing);
      }
      var node := dir[name.value];
      if !node.Regular? {
        return Failure(StagingNotRegular);
      }
      var record := RecordFor(node, name.value, profileID, remotePath, createdAt, reason, lastError, now);
      assert !IsTemporary(name.value + METADATA_SUFFIX) by {
        MetadataIsNoTemporary(name.value);
      }
      var ok, temporary := WriteMetadataAtomic(name.value + METADATA_SUFFIX, record, now);
      assert Trustworthy(record, name.value);
      forall i | |old(journal)| <= i < |journal|
        ensures PreserveCrash(journal[i], old(dir), path, record)
      {
        assert PreservingState(journal[i], old(dir), path, temporary, record);
      }
      if !ok {
        return Failure(MetadataNotWritten);
      }
      assert |name.value + METADATA_SUFFIX| > |name.value|;
      assert HoldsMetadata(dir, name.value);
      return Success(Item(record, Some(name.value + METADATA_SUFFIX)));
    }
  }

  lemma ItemIsPreserved(dir: Directory, staging: string)
    requires ItemFor(dir, staging).Some? && ItemFor(dir, staging).value.metadata.state == Preserved
    ensures ItemFor(dir, staging).value.metadataName == Some(staging + METADATA_SUFFIX)
    ensures SafeStagingPath(ItemFor(dir, staging).value.metadata.stagingPath) == Some(staging)
    ensures staging in dir
  {
  }

  lemma AllHandled(dir: Directory, cutoff: int, items: seq<Item>, handled: set<string>)
    requires forall staging :: ItemFor(dir, staging).Some? ==> ItemFor(dir, staging).value in items
    requires forall s :: s in handled <==> Expired(dir, cutoff, s) && Covers(items, s)
    ensures handled == ExpiredNames(dir, cutoff)
    ensures forall s :: Expired(dir, cutoff, s) ==> s in handled
  {
    forall s | Expired(dir, cutoff, s)
      ensures s in handled && s in dir
    {
      ItemIsPreserved(dir, s);
      ItemNamesStaging(dir, s);
      var item := ItemFor(dir, s).value;
      var i :| 0 <= i < |items| && items[i] == item;
      assert items[i].metadata.stagingPath == InDirectory(s);
    }
  }

  lemma NothingPruned(dir: Directory, cutoff: int)
    ensures PrunedTo(dir, dir, cutoff)
  {
  }

  lemma NoneCovered(items: seq<Item>)
    ensures forall s :: !Covers(items[..0], s)
  {
  }

  lemma ItemReported(items: seq<Item>, dir: Directory, n: nat)
    requires ItemsOf(items, dir) && n < |items|
    ensures items[n].metadata.stagingPath.InDirectory?
    ensures ItemFor(dir, items[n].metadata.stagingPath.name) == Some(items[n])
    ensures !Covers(items[..n], items[n].metadata.stagingPath.name)
    ensures forall s :: Covers(items[..n + 1], s) <==> s == items[n].metadata.stagingPath.name || Covers(items[..n], s)
  {
    CoversNext(items, n);
  }

  lemma CoversNext(items: seq<Item>, n: nat)
    requires n < |items| && items[n].metadata.stagingPath.InDirectory?
    requires forall i, j :: 0 <= i < j < |items| ==> items[i].metadata.stagingPath != items[j].metadata.stagingPath
    ensures !Covers(items[..n], items[n].metadata.stagingPath.name)
    ensures forall s :: Covers(items[..n + 1], s) <==> s == items[n].metadata.stagingPath.name || Covers(items[..n], s)
  {
    forall s
      ensures Covers(items[..n + 1], s) <==> s == items[n].metadata.stagingPath.name || Covers(items[..n], s)
    {
      if Covers(items[..n], s) {
        var i :| 0 <= i < n && items[..n][i].metadata.stagingPath == InDirectory(s);
        assert items[..n + 1][i].metadata.stagingPath == InDirectory(s);
      }
      if Covers(items[..n + 1], s) {
        var i :| 0 <= i < n + 1 && items[..n + 1][i].metadata.stagingPath == InDirectory(s);
        if i < n {
          assert items[..n][i].metadata.stagingPath == InDirectory(s);
        }
      }
      assert items[..n + 1][n] == items[n];
    }
  }

  /** Items of the directory, one for each of their staging names. */
  ghost predicate ItemsOf(items: seq<Item>, dir: Directory) {
    && (forall i :: 0 <= i < |items| ==>
          items[i].metadata.stagingPath.InDirectory?
          && ItemFor(dir, items[i].metadata.stagingPath.name) == Some(items[i]))
    && (forall i, j :: 0 <= i < j < |items| ==> items[i].metadata.stagingPath != items[j].metadata.stagingPath)
  }

  ghost predicate Covers(items: seq<Item>, staging: string) {
    exists i :: 0 <= i < |items| && items[i].metadata.stagingPath == InDirectory(staging)
  }

  function AddItem(items: seq<Item>, dir: Directory, staging: string, item: Item): (r: seq<Item>)
    requires ItemsOf(items, dir) && !Covers(items, staging)
    requires ItemFor(dir, staging) == Some(item)
    ensures r == items + [item] && ItemsOf(r, dir)
    ensures forall s :: Covers(r, s) <==> s == staging || Covers(items, s)
  {
    ItemNamesStaging(dir, staging);
    assert forall s :: Covers(items, s) ==> Covers(items + [item], s) by {
      forall s | Covers(items, s)
        ensures Covers(items + [item], s)
      {
        var i :| 0 <= i < |items| && items[i].metadata.stagingPath == InDirectory(s);
        assert (items + [item])[i].metadata.stagingPath == InDirectory(s);
      }
    }
    assert (items + [item])[|items|].metadata.stagingPath == InDirectory(staging);
    items + [item]
  }
}
