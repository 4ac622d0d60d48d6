/** Retrying a preserved upload: the bytes of a recovery item are sent to the path that was
    recorded for them, and the item is never deleted. */
module Retry {
  import opened Wrappers
  import opened Paths
  import opened Errors
  import opened RecoveryStore
  import opened Uploads
  import opened CachedBackend
  import opened Staging
  import C = MetadataCache

  datatype RetryError =
    | NotRetryable
    | OpenFailed
    | CopyFailed
    | PublishFailed
    | CheckFailed(error: Error)
    | SizeMismatch(entry: C.Entry)

  /** OpenRecovery: only a preserved item whose staging is a regular file can be retried. */
  function Retryable(dir: Directory, item: Item): Option<string> {
    if item.metadata.state != Preserved then None
    else
      match SafeStagingPath(item.metadata.stagingPath)
      case None => None
      case Some(staging) => if staging in dir && dir[staging].Regular? then Some(staging) else None
  }

  /** An item can be retried exactly when it says that a preserve has filed a staging file
      of this directory, which is there and regular. */
  lemma RetryableExactly(dir: Directory, item: Item, staging: string)
    ensures Retryable(dir, item) == Some(staging) <==>
              && item.metadata.state == Preserved && item.metadata.stagingPath == InDirectory(staging)
              && "staging-" <= staging && staging in dir && dir[staging].Regular?
  {
  }

  /** The copy loop of the retry. Unlike the loop of a normal upload it refuses a file that
      turns out shorter than it was when opened. */
  method FillExactly(writer: MetadataWrite, content: Bytes, size: nat) returns (ok: bool)
    requires writer.backend.Valid() && writer.Belongs()
    requires !writer.handle.closed && writer.handle.dirty && writer.handle.content == [] && !writer.handle.append
    modifies writer.backend.cache, writer.handle`content, writer.handle`dirty
    ensures writer.backend.Valid() && writer.handle.dirty
    ensures ok ==> size <= |content| && writer.handle.content == content[..size]
    ensures writer.handle.content <= content
  {
    var offset, failed := 0, false;
    while offset < size && !failed
      invariant 0 <= offset <= size && offset <= |content| && writer.backend.Valid() && writer.handle.dirty
      invariant !failed ==> writer.handle.content == content[..offset]
      invariant writer.handle.content <= content
      decreases size - offset, !failed
    {
      var want := if size - offset < CHUNK then size - offset else CHUNK;
      var buffer, error := ReadAt(content, want, offset);
      if (error == EndOfFile && |buffer| != want) || error != NoError {
        failed := true;
      } else {
        var written, wrote := writer.WriteAt(buffer, offset);
        Extends(content, offset, buffer, written);
        if wrote {
          offset := offset + written;
        } else {
          failed := true;
        }
      }
    }
    ok := !failed;
  }

  /** The write half of a retry: open, copy, sync and close. */
  method SendExactly(backend: Backend, remotePath: string, content: Bytes, size: nat)
    returns (ok: bool, error: RetryError)
    requires backend.Valid()
    modifies backend.cache, backend.server
    ensures backend.Valid() && !error.NotRetryable? && !error.SizeMismatch?
    ensures MetadataPath(remotePath).None? ==> !ok && backend.server.View() == old(backend.server.View())
    ensures ok ==>
              && MetadataPath(remotePath).Some? && size <= |content|
              && backend.server.files == old(backend.server.files)[MetadataPath(remotePath).value := content[..size]]
    ensures !ok && MetadataPath(remotePath).Some? ==>
              Torn(old(backend.server.files), backend.server.files, MetadataPath(remotePath).value, content)
  {
    var writer := backend.OpenWrite(remotePath, true, true, false);
    if writer == null {
      return false, OpenFailed;
    }
    ok := FillExactly(writer, content, size);
    error := if ok then PublishFailed else CopyFailed;
    ghost var sent := writer.handle.content;
    assert sent == content[..|sent|] && sent == sent[..|sent|];
    if ok {
      ok := writer.Sync();
      if !ok {
        TornTwice(old(backend.server.files), old(backend.server.files), backend.server.files, writer.handle.name,
                  content, |sent|);
      }
    }
    ghost var synced := backend.server.files;
    var closed;
    ghost var flushed;
    closed, flushed := writer.Close();
    TornTwice(old(backend.server.files), synced, backend.server.files, writer.handle.name, content, |sent|);
    ok := ok && closed;
  }

  /** Success means that the server holds exactly the preserved bytes at the requested path
      and has confirmed their size. The cache directory is never touched. */
  method Upload(store: Store, item: Item, backend: Backend, remotePath: string, now: int)
    returns (r: Result<C.Entry, RetryError>)
    requires store.Valid() && backend.Valid()
    modifies backend.cache, backend.server
    ensures backend.Valid()
    ensures r == Failure(NotRetryable) <==> Retryable(store.dir, item).None?
    ensures r.Failure? && r.error.SizeMismatch? ==>
              Retryable(store.dir, item).Some?
              && (r.error.entry.directory || r.error.entry.size != SizeOf(store.dir[Retryable(store.dir, item).value]))
    ensures Retryable(store.dir, item).None? || MetadataPath(remotePath).None? ==>
              r.Failure? && backend.server.View() == old(backend.server.View())
    ensures r.Success? && IsStagingFile(store.dir, Retryable(store.dir, item).value) ==>
              var bytes := BytesAt(store.dir, Retryable(store.dir, item).value);
              && backend.server.files == old(backend.server.files)[MetadataPath(remotePath).value := bytes]
              && r.value.size == |bytes| && !r.value.directory
    ensures r.Success? ==>
              C.Found(r.value) == StatTruth(backend.server.View(), MetadataPath(remotePath).value)
    ensures r.Failure? && MetadataPath(remotePath).Some? && Retryable(store.dir, item).Some?
            && IsStagingFile(store.dir, Retryable(store.dir, item).value) ==>
              Torn(old(backend.server.files), backend.server.files, MetadataPath(remotePath).value,
                   BytesAt(store.dir, Retryable(store.dir, item).value))
  {
    var staging := Retryable(store.dir, item);
    if staging.None? {
      return Failure(NotRetryable);
    }
    var size := SizeOf(store.dir[staging.value]);
    var content: Bytes := *;
    if store.dir[staging.value].body.Blob? {
      content := store.dir[staging.value].body.bytes;
    }
    assert content[..|content|] == content;
    var ok, error := SendExactly(backend, remotePath, content, size);
    if !ok {
      return Failure(error);
    }
    var outcome := backend.Stat(remotePath, now);
    if outcome.Failed? {
      return Failure(CheckFailed(outcome.error));
    }
    if outcome.entry.directory || outcome.entry.size != size {
      return Failure(SizeMismatch(outcome.entry));
    }
    return Success(outcome.entry);
  }

  /** What a failed close leaves behind leads back to the file: the next scan's item can be
      retried, its recorded path resolves, under the same profile root, to the mount name
      of the file, and the backend files that name where the mount layer reads it. */
  lemma PreservedLeadsBack(dir: Directory, staging: string, bytes: Bytes, profileID: string, root: string,
                           name: string, reason: string)
    requires IsMountName(name) && name != "." && HasPrefix(staging, STAGING_PREFIX)
    requires CleanAbsolute(CleanRooted(root)) == CleanAbsolute(root)
    requires Recoverable(dir, staging, bytes, profileID, RecoveryRemotePath(root, name), reason)
    ensures ItemFor(dir, staging).Some? && Retryable(dir, ItemFor(dir, staging).value) == Some(staging)
    ensures BytesAt(dir, staging) == bytes && ItemFor(dir, staging).value.metadata.profileID == profileID
    ensures RelativePath(root, ItemFor(dir, staging).value.metadata.remotePath) == Success(name)
    ensures MetadataPath(name) == Some(Key(name))
  {
    RecoveryRoundTrip(root, name);
    assert ("/" + name)[1..] == name;
    assert CleanMountPath(name) == name;
    ItemNamesStaging(dir, staging);
  }
}
