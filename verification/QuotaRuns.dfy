/** The cache quota over whole runs: whatever interleaving of writes, appends, truncates,
    downloads, opens, preserves and removals the directory goes through, staging never
    grows past the limit. */
module QuotaRuns {
  import opened Wrappers
  import opened Paths
  import opened RecoveryStore

  predicate IsStaging(name: string) {
    HasPrefix(name, STAGING_PREFIX) && !HasSuffix(name, METADATA_SUFFIX)
  }

  function StagingPart(dir: Directory): Directory {
    map name | name in dir && IsStaging(name) :: dir[name]
  }

  ghost function StagingBytes(dir: Directory): nat {
    TotalBytes(StagingPart(dir))
  }

  function Max(a: int, b: int): int {
    if a < b then b else a
  }

  /** One change of the directory. A resize holds the mutex from the quota check to the end
      of its writes, of which there may be any number, each of them partial; everything
      else takes no mutex and may fall between the check and a write. */
  datatype Change =
    | Checked(name: string, requested: int)   // the quota was granted; the mutex is taken
    | Landed(node: Node)                       // a write, truncate or download under it
    | Released
    | Created(name: string, modTime: int)
    | Touched(name: string, node: Node)        // a new modification time
    | Removed(name: string)
    | Recorded(name: string, node: Node)       // metadata files and their temporaries

  /** The resize under way: its file and the size that no write of it passes. */
  datatype Grant = Grant(name: string, ceiling: int)

  datatype QuotaState = QuotaState(dir: Directory, grant: Option<Grant>)

  ghost predicate Allowed(s: QuotaState, limits: Limits, c: Change) {
    match c
    case Checked(name, requested) => s.grant.None? && Quota(s.dir, limits, InDirectory(name), requested) == Granted
    case Landed(node) => s.grant.Some? && node.Regular? && SizeOf(node) <= s.grant.value.ceiling
    case Released => s.grant.Some?
    case Created(name, _) => name !in s.dir && IsStaging(name)
    case Touched(name, node) => name in s.dir && SizeOf(node) == SizeOf(s.dir[name])
    case Removed(_) => true
    case Recorded(name, _) => !IsStaging(name)
  }

  function Changed(s: QuotaState, c: Change): QuotaState {
    match c
    case Checked(name, requested) => s.(grant := Some(Grant(name, Max(requested, SizeAt(s.dir, name)))))
    case Landed(node) => if s.grant.Some? then s.(dir := s.dir[s.grant.value.name := node]) else s
    case Released => s.(grant := None)
    case Created(name, modTime) => s.(dir := s.dir[name := Regular(Blob([]), modTime)])
    case Touched(name, node) => s.(dir := s.dir[name := node])
    case Removed(name) => s.(dir := s.dir - {name})
    case Recorded(name, node) => s.(dir := s.dir[name := node])
  }

  ghost predicate Run(s: QuotaState, limits: Limits, changes: seq<Change>)
    decreases |changes|
  {
    changes != [] ==> Allowed(s, limits, changes[0]) && Run(Changed(s, changes[0]), limits, changes[1..])
  }

  function AfterRun(s: QuotaState, changes: seq<Change>): QuotaState
    decreases |changes|
  {
    if changes == [] then s else AfterRun(Changed(s, changes[0]), changes[1..])
  }

  function Unlocked(dir: Directory): QuotaState {
    QuotaState(dir, None)
  }

  /** The second directory comes out of the first by changes that the quota allows, with
      the mutex free before and after. */
  ghost predicate QuotaRun(before: Directory, limits: Limits, after: Directory) {
    exists changes :: Run(Unlocked(before), limits, changes) && AfterRun(Unlocked(before), changes) == Unlocked(after)
  }

  lemma NoChange(d: Directory, limits: Limits)
    ensures QuotaRun(d, limits, d)
  {
    assert Run(Unlocked(d), limits, []) && AfterRun(Unlocked(d), []) == Unlocked(d);
  }

  lemma OneChange(d: Directory, limits: Limits, c: Change)
    requires Allowed(Unlocked(d), limits, c) && !c.Checked?
    ensures QuotaRun(d, limits, Changed(Unlocked(d), c).dir)
  {
    var next := Changed(Unlocked(d), c);
    assert Run(next, limits, [c][1..]);
    assert Run(Unlocked(d), limits, [c]) && AfterRun(Unlocked(d), [c]) == next;
  }

  /** A whole resize: the check, one write and the release. */
  lemma OneResize(d: Directory, limits: Limits, name: string, requested: int, node: Node)
    requires Quota(d, limits, InDirectory(name), requested) == Granted
    requires node.Regular? && SizeOf(node) <= Max(requested, SizeAt(d, name))
    ensures QuotaRun(d, limits, d[name := node])
  {
    var s0 := Unlocked(d);
    var s1 := Changed(s0, Checked(name, requested));
    var s2 := Changed(s1, Landed(node));
    var s3 := Changed(s2, Released);
    StartsWith(s2, limits, Released, []);
    StartsWith(s1, limits, Landed(node), [Released]);
    StartsWith(s0, limits, Checked(name, requested), [Landed(node), Released]);
    assert [Released] + [] == [Released] && [Landed(node)] + [Released] == [Landed(node), Released];
    assert Run(s3, limits, []) && AfterRun(s3, []) == s3;
  }

  lemma StartsWith(s: QuotaState, limits: Limits, c: Change, rest: seq<Change>)
    ensures Run(s, limits, [c] + rest) <==> Allowed(s, limits, c) && Run(Changed(s, c), limits, rest)
    ensures AfterRun(s, [c] + rest) == AfterRun(Changed(s, c), rest)
  {
    assert ([c] + rest)[1..] == rest;
  }

  lemma {:induction false} RunsJoin(s: QuotaState, limits: Limits, first: seq<Change>, second: seq<Change>)
    requires Run(s, limits, first) && Run(AfterRun(s, first), limits, second)
    ensures Run(s, limits, first + second) && AfterRun(s, first + second) == AfterRun(AfterRun(s, first), second)
    decreases |first|
  {
    if first == [] {
      assert first + second == second;
    } else {
      RunsJoin(Changed(s, first[0]), limits, first[1..], second);
      assert (first + second)[1..] == first[1..] + second;
    }
  }

  lemma RunsCompose(a: Directory, b: Directory, c: Directory, limits: Limits)
    requires QuotaRun(a, limits, b) && QuotaRun(b, limits, c)
    ensures QuotaRun(a, limits, c)
  {
    var first :| Run(Unlocked(a), limits, first) && AfterRun(Unlocked(a), first) == Unlocked(b);
    var second :| Run(Unlocked(b), limits, second) && AfterRun(Unlocked(b), second) == Unlocked(c);
    RunsJoin(Unlocked(a), limits, first, second);
  }

  lemma {:induction false} PartOfTotal(dir: Directory)
    ensures StagingBytes(dir) <= TotalBytes(dir)
    decreases |dir|
  {
    if dir == map[] {
      assert StagingPart(dir) == map[];
    } else {
      var name :| name in dir;
      TotalRemove(dir, name);
      assert (dir - {name}).Keys == dir.Keys - {name};
      PartOfTotal(dir - {name});
      if IsStaging(name) {
        TotalRemove(StagingPart(dir), name);
        assert StagingPart(dir) - {name} == StagingPart(dir - {name});
      } else {
        assert StagingPart(dir) == StagingPart(dir - {name});
      }
    }
  }

  lemma ReplaceStaging(dir: Directory, name: string, node: Node)
    ensures StagingBytes(dir[name := node])
            == StagingBytes(dir) - StagingAt(dir, name) + if IsStaging(name) then SizeOf(node) else 0
    ensures StagingBytes(dir - {name}) == StagingBytes(dir) - StagingAt(dir, name)
  {
    var part := StagingPart(dir);
    if IsStaging(name) {
      TotalReplace(part, name, node);
      assert StagingPart(dir[name := node]) == part[name := node];
      assert StagingPart(dir - {name}) == part - {name};
    } else {
      assert StagingPart(dir[name := node]) == part;
      assert StagingPart(dir - {name}) == part;
    }
  }

  function StagingAt(dir: Directory, name: string): nat {
    if IsStaging(name) then SizeAt(dir, name) else 0
  }

  /** The bytes of all other staging files, plus the most that the resize under way can
      still make of its own, stay within the bound. */
  ghost predicate Within(s: QuotaState, bound: int) {
    && StagingBytes(s.dir) <= bound
    && (s.grant.Some? ==> StagingBytes(s.dir) - StagingAt(s.dir, s.grant.value.name) + s.grant.value.ceiling <= bound
                          || !IsStaging(s.grant.value.name))
  }

  lemma ChangeKeepsQuota(s: QuotaState, limits: Limits, c: Change, bound: int)
    requires Allowed(s, limits, c) && limits.maxTotalBytes > 0
    requires Within(s, bound) && limits.maxTotalBytes <= bound
    ensures Within(Changed(s, c), bound)
  {
    match c
    case Checked(name, requested) => PartOfTotal(s.dir);
    case Landed(node) => ReplaceKeeps(s, s.grant.value.name, node, bound);
    case Released =>
    case Created(name, modTime) => ReplaceKeeps(s, name, Regular(Blob([]), modTime), bound);
    case Touched(name, node) => ReplaceKeeps(s, name, node, bound);
    case Removed(name) => RemoveKeeps(s, name, bound);
    case Recorded(name, node) => ReplaceKeeps(s, name, node, bound);
  }

  /** The file of the resize may take any size up to the ceiling, other staging files none
      that is larger than theirs. */
  lemma ReplaceKeeps(s: QuotaState, name: string, node: Node, bound: int)
    requires Within(s, bound)
    requires IsStaging(name) && !(s.grant.Some? && s.grant.value.name == name) ==> SizeOf(node) <= SizeAt(s.dir, name)
    requires IsStaging(name) && s.grant.Some? && s.grant.value.name == name ==>
               SizeOf(node) <= Max(s.grant.value.ceiling, SizeAt(s.dir, name))
    ensures Within(s.(dir := s.dir[name := node]), bound)
  {
    ReplaceStaging(s.dir, name, node);
  }

  lemma RemoveKeeps(s: QuotaState, name: string, bound: int)
    requires Within(s, bound)
    ensures Within(s.(dir := s.dir - {name}), bound)
  {
    ReplaceStaging(s.dir, name, Folder);
    if s.grant.Some? && s.grant.value.name != name {
      assert SizeAt(s.dir - {name}, s.grant.value.name) == SizeAt(s.dir, s.grant.value.name);
      if IsStaging(name) && IsStaging(s.grant.value.name) {
        OtherPart(s.dir, name, s.grant.value.name);
      }
    }
  }

  /** Two staging files together are part of the whole. */
  lemma OtherPart(dir: Directory, a: string, b: string)
    requires a != b && IsStaging(a) && IsStaging(b)
    ensures StagingAt(dir, a) + StagingAt(dir, b) <= StagingBytes(dir)
  {
    ReplaceStaging(dir, a, Folder);
    ReplaceStaging(dir - {a}, b, Folder);
  }

  /** Quota safety: over any run, whatever falls between a check and its writes, staging
      bytes never exceed the larger of what was there at the start and the total limit. */
  lemma TotalNeverExceeded(dir: Directory, limits: Limits, changes: seq<Change>, bound: int)
    requires Run(Unlocked(dir), limits, changes) && limits.maxTotalBytes > 0
    requires bound == Max(StagingBytes(dir), limits.maxTotalBytes)
    ensures StagingBytes(AfterRun(Unlocked(dir), changes).dir) <= bound
  {
    StaysWithin(Unlocked(dir), limits, changes, bound);
  }

  lemma {:induction false} StaysWithin(s: QuotaState, limits: Limits, changes: seq<Change>, bound: int)
    requires Run(s, limits, changes) && limits.maxTotalBytes > 0
    requires Within(s, bound) && limits.maxTotalBytes <= bound
    ensures Within(AfterRun(s, changes), bound)
    decreases |changes|
  {
    if changes != [] {
      ChangeKeepsQuota(s, limits, changes[0], bound);
      StaysWithin(Changed(s, changes[0]), limits, changes[1..], bound);
    }
  }

  /** No staging file ever grows past the per-file limit. */
  lemma FileLimitKept(dir: Directory, limits: Limits, changes: seq<Change>, name: string, bound: int)
    requires Run(Unlocked(dir), limits, changes) && limits.maxFileBytes > 0 && IsStaging(name)
    requires bound == Max(SizeAt(dir, name), limits.maxFileBytes)
    ensures SizeAt(AfterRun(Unlocked(dir), changes).dir, name) <= bound
  {
    FileStaysWithin(Unlocked(dir), limits, changes, name, bound);
  }

  lemma {:induction false} FileStaysWithin(s: QuotaState, limits: Limits, changes: seq<Change>, name: string,
                                           bound: int)
    requires Run(s, limits, changes) && limits.maxFileBytes > 0 && IsStaging(name)
    requires SizeAt(s.dir, name) <= bound && limits.maxFileBytes <= bound
    requires s.grant.Some? && s.grant.value.name == name ==> s.grant.value.ceiling <= bound
    ensures SizeAt(AfterRun(s, changes).dir, name) <= bound
    decreases |changes|
  {
    if changes != [] {
      FileStaysWithin(Changed(s, changes[0]), limits, changes[1..], name, bound);
    }
  }

  /** Both bounds, for every directory that the mount's operations lead to. */
  lemma QuotaRunSafe(before: Directory, limits: Limits, after: Directory, name: string)
    requires QuotaRun(before, limits, after)
    ensures limits.maxTotalBytes > 0 ==> StagingBytes(after) <= Max(StagingBytes(before), limits.maxTotalBytes)
    ensures limits.maxFileBytes > 0 && IsStaging(name) ==>
              SizeAt(after, name) <= Max(SizeAt(before, name), limits.maxFileBytes)
  {
    var changes :| Run(Unlocked(before), limits, changes) && AfterRun(Unlocked(before), changes) == Unlocked(after);
    if limits.maxTotalBytes > 0 {
      TotalNeverExceeded(before, limits, changes, Max(StagingBytes(before), limits.maxTotalBytes));
    }
    if limits.maxFileBytes > 0 && IsStaging(name) {
      FileLimitKept(before, limits, changes, name, Max(SizeAt(before, name), limits.maxFileBytes));
    }
  }

  /** The size a write asks the quota for, in int64 arithmetic: `max(size, offset + len)`. */
  function RequestedSize(size: int, offset: int, length: int): int {
    Max(size, Wrap64(offset + length))
  }

  function TrueSize(size: int, offset: int, length: int): int {
    Max(size, offset + length)
  }

  /** The quota's answer to the wrapped request is the answer to the true one exactly when
      offset + len fits int64, or no limit could have refused the true size anyway. */
  lemma QuotaRequestExact(dir: Directory, limits: Limits, name: string, offset: int, length: int)
    requires 0 <= offset <= INT64_MAX && 0 <= length <= INT64_MAX
    requires HasPrefix(name, STAGING_PREFIX) && (name in dir ==> dir[name].Regular?)
    requires SizeAt(dir, name) <= INT64_MAX
    requires limits.maxFileBytes <= INT64_MAX && limits.maxTotalBytes <= INT64_MAX
    ensures var size := SizeAt(dir, name);
            (Quota(dir, limits, InDirectory(name), RequestedSize(size, offset, length))
             == Quota(dir, limits, InDirectory(name), TrueSize(size, offset, length)))
            <==> (|| offset + length <= INT64_MAX
                  || (limits.maxFileBytes <= 0 && limits.maxTotalBytes <= 0)
                  || (0 < limits.maxFileBytes < size))
  {
    WrapExact(offset + length);
    var size := SizeAt(dir, name);
    if name in dir {
      TotalRemove(dir, name);
    }
  }
}
