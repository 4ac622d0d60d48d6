/** Publishing a file: the local staging handle that the FTP and the WebDAV backend give
    out for writing, and the chunked loops that push a local file through it. */
module Uploads {
  import opened RecoveryStore
  import C = MetadataCache

  const CHUNK := 256 * 1024

  /** What the remote server holds, by resolved name. */
  datatype World = World(files: map<string, Bytes>, times: map<string, int>, folders: set<string>)

  class Server {
    var files: map<string, Bytes>
    var times: map<string, int>
    const folders: set<string>
    ghost var answered: seq<(C.Key, C.Outcome)>  // every Stat and ReadDir, with what came of it

    constructor (folders: set<string>)
      ensures View() == World(map[], map[], folders)
    {
      files, times, answered := map[], map[], [];
      this.folders := folders;
    }

    ghost function View(): World
      reads this
    {
      World(files, times, folders)
    }

    /** STOR or PUT: on failure the server may have kept any beginning of the data. */
    method Store(name: string, data: Bytes) returns (ok: bool)
      modifies this`files, this`times
      ensures ok ==> files == old(files)[name := data]
      ensures !ok ==> Torn(old(files), files, name, data)
      ensures files - {name} == old(files) - {name} && times - {name} == old(times) - {name}
    {
      ok := *;
      ok := ok && name !in folders;
      var applied: bool, arrived: nat, time: int := *, *, *;
      if ok {
        files, times := files[name := data], times[name := time];
      } else if applied && arrived <= |data| && name !in folders {
        files, times := files[name := data[..arrived]], times[name := time];
      }
    }

    method SetModTime(name: string, time: int) returns (ok: bool)
      modifies this`times
      ensures ok ==> times == old(times)[name := time]
      ensures times - {name} == old(times) - {name}
    {
      ok := *;
      var applied: bool := *;
      if ok || applied {
        times := times[name := time];
      }
    }
  }

  /** Nothing but `name` changed, and that to a beginning of `sent` at most. */
  ghost predicate Torn(before: map<string, Bytes>, after: map<string, Bytes>, name: string, sent: Bytes) {
    || after == before
    || exists n :: 0 <= n <= |sent| && after == before[name := sent[..n]]
  }

  lemma TornTwice(a: map<string, Bytes>, b: map<string, Bytes>, c: map<string, Bytes>, name: string, sent: Bytes,
                  n: nat)
    requires n <= |sent|
    requires Torn(a, b, name, sent) && Torn(b, c, name, sent[..n])
    ensures Torn(a, c, name, sent)
  {
    if c != b {
      var k :| 0 <= k <= n && c == b[name := sent[..n][..k]];
      assert sent[..n][..k] == sent[..k];
      assert c == a[name := sent[..k]];
    }
  }

  /** How far an upload came: whether the handle was opened, what had been copied into it, and
      whether the sync and the sync that closing makes went through. */
  datatype Trail = NotOpened | Opened(sent: Bytes, synced: bool, flushed: bool)

  /** What such an upload has left on the server. */
  ghost predicate Followed(before: map<string, Bytes>, after: map<string, Bytes>, name: string, trail: Trail) {
    match trail
    case NotOpened => after == before
    case Opened(sent, synced, flushed) =>
      if synced || flushed then after == before[name := sent] else Torn(before, after, name, sent)
  }

  /** A failed upload can leave exactly this: the server as it was, or any beginning of the
      data, from nothing to the whole. */
  lemma FailureLeavesExactly(before: map<string, Bytes>, after: map<string, Bytes>, name: string, local: Bytes)
    ensures (exists trail: Trail :: (trail.Opened? ==> trail.sent <= local) && Followed(before, after, name, trail))
            <==> Torn(before, after, name, local)
  {
    if trail: Trail :| (trail.Opened? ==> trail.sent <= local) && Followed(before, after, name, trail) {
      if trail.Opened? && after != before {
        SentIsBeginning(before, after, name, trail.sent, local, trail);
      }
    }
    if Torn(before, after, name, local) {
      if after == before {
        assert Followed(before, after, name, NotOpened);
      } else {
        var n :| 0 <= n <= |local| && after == before[name := local[..n]];
        assert Followed(before, after, name, Opened(local[..n], false, true));
      }
    }
  }

  /** Before the call: every upload of these bytes that fails is sure to leave the server as
      it was if and only if there is nothing to send and the server holds an empty file. */
  lemma FailureSparesExactly(before: map<string, Bytes>, name: string, local: Bytes)
    ensures (forall trail: Trail, after ::
               (trail.Opened? ==> trail.sent <= local) && Followed(before, after, name, trail) ==> after == before)
            <==> local == [] && name in before && before[name] == []
  {
    if forall trail: Trail, after ::
         (trail.Opened? ==> trail.sent <= local) && Followed(before, after, name, trail) ==> after == before {
      assert local[..0] == [] && local[..|local|] == local;
      assert Followed(before, before[name := []], name, Opened([], false, true));
      assert Followed(before, before[name := local], name, Opened(local, false, true));
      assert before[name := []][name] == [] && before[name := local][name] == local;
    }
    if local == [] && name in before && before[name] == [] {
      assert before[name := []] == before;
      forall trail: Trail, after | (trail.Opened? ==> trail.sent <= local) && Followed(before, after, name, trail)
        ensures after == before
      {
        FailureLeavesExactly(before, after, name, local);
      }
    }
  }

  lemma SentIsBeginning(before: map<string, Bytes>, after: map<string, Bytes>, name: string, sent: Bytes,
                        local: Bytes, trail: Trail)
    requires trail.Opened? && trail.sent == sent <= local && Followed(before, after, name, trail) && after != before
    ensures Torn(before, after, name, local)
  {
    assert sent == local[..|sent|];
    if trail.synced || trail.flushed {
      assert after == before[name := local[..|sent|]];
    } else {
      var n :| 0 <= n <= |sent| && after == before[name := sent[..n]];
      assert sent[..n] == local[..n];
    }
  }

  /** An upload that came this far is sure to have left the server as it was if and only if
      its handle was never opened, or the server already held what was copied and a sync
      went through or nothing was copied. */
  lemma LeavesServerExactly(before: map<string, Bytes>, name: string, trail: Trail)
    ensures (forall after :: Followed(before, after, name, trail) ==> after == before)
            <==> || trail.NotOpened?
                 || (name in before && before[name] == trail.sent
                     && (trail.synced || trail.flushed || trail.sent == []))
  {
    if trail.Opened? {
      var sent := trail.sent;
      assert sent[..|sent|] == sent && sent[..0] == [];
      assert Followed(before, before[name := sent], name, trail);
      if !(trail.synced || trail.flushed) {
        assert Followed(before, before[name := sent[..0]], name, trail);
      }
      if name in before && before[name] == sent {
        assert before[name := sent] == before;
      } else {
        assert before[name := sent] != before by {
          assert name in before[name := sent] && before[name := sent][name] == sent;
        }
      }
      if !(trail.synced || trail.flushed) && sent != [] {
        assert before[name := sent[..0]] == before && before[name := sent] == before ==> false by {
          assert before[name := sent[..0]][name] == [] && before[name := sent][name] == sent;
        }
      }
    }
  }

  function Zeros(n: nat): (r: Bytes)
    ensures |r| == n && forall i :: 0 <= i < n ==> r[i] == 0
  {
    seq(n, _ => 0 as byte)
  }

  /** The bytes of a file after `data` was written at `at`, gaps reading as zero. */
  function Overwrite(content: Bytes, data: Bytes, at: nat): (r: Bytes)
    ensures data != [] ==> |r| == if at + |data| < |content| then |content| else at + |data|
    ensures data == [] ==> r == content
    ensures forall i :: 0 <= i < |r| ==>
              r[i] == if at <= i < at + |data| then data[i - at] else if i < |content| then content[i] else 0
  {
    if data == [] then content
    else
      var padded := if |content| < at then content + Zeros(at - |content|) else content;
      padded[..at] + data + if at + |data| < |padded| then padded[at + |data|..] else []
  }

  /** uploadHandle of the FTP backend, putHandle of the WebDAV backend. */
  class UploadHandle {
    const server: Server
    const name: string
    const append: bool
    var content: Bytes     // the handle's own temporary file
    var dirty: bool
    var closed: bool

    constructor (server: Server, name: string, append: bool, content: Bytes, dirty: bool)
      ensures this.server == server && this.name == name && this.append == append
      ensures this.content == content && this.dirty == dirty && !closed
    {
      this.server, this.name, this.append := server, name, append;
      this.content, this.dirty, this.closed := content, dirty, false;
    }

    method WriteAt(data: Bytes, offset: int) returns (written: nat, ok: bool)
      modifies this`content, this`dirty
      ensures written <= |data| && (ok ==> written == |data|)
      ensures closed || (!append && offset < 0) ==> written == 0 && !ok
      ensures content == if written == 0 then old(content)
                         else Overwrite(old(content), data[..written], if append then |old(content)| else offset)
      ensures dirty <==> old(dirty) || written > 0
    {
      written := 0;
      if closed {
        return 0, false;
      }
      var at := if append then |content| else offset;
      if at < 0 {
        return 0, false;
      }
      ok := *;
      written := *;
      if ok || written > |data| {
        written := |data|;
      }
      if written > 0 {
        content := Overwrite(content, data[..written], at);
        dirty := true;
      }
    }

    /** A successful sync leaves the server with exactly the handle's bytes. */
    method Sync() returns (ok: bool)
      modifies this`dirty, server
      ensures closed ==> !ok
      ensures ok ==> !dirty
      ensures ok ==> server.files == if old(dirty) then old(server.files)[name := content] else old(server.files)
      ensures !ok ==> dirty == old(dirty) && Torn(old(server.files), server.files, name, content)
      ensures closed || !old(dirty) ==> server.View() == old(server.View())
      ensures server.files - {name} == old(server.files) - {name} && server.times - {name} == old(server.times) - {name}
    {
      if closed {
        return false;
      }
      ok := *;
      if !ok || !dirty {
        return;
      }
      ok := server.Store(name, content);
      if ok {
        dirty := false;
      }
    }

    /** `flushed` tells whether the sync that closing makes went through. */
    method Close() returns (ok: bool, ghost flushed: bool)
      modifies this`dirty, this`closed, server
      ensures closed && (ok ==> flushed)
      ensures flushed && old(dirty) ==> server.files == old(server.files)[name := content]
      ensures old(closed) ==> !ok && dirty == old(dirty)
      ensures ok ==> server.files == if old(dirty) then old(server.files)[name := content] else old(server.files)
      ensures Torn(old(server.files), server.files, name, content)
      ensures old(closed) || !old(dirty) ==> server.View() == old(server.View())
      ensures server.files - {name} == old(server.files) - {name} && server.times - {name} == old(server.times) - {name}
    {
      if closed {
        return false, false;
      }
      ok := Sync();
      flushed := ok;
      assert content[..|content|] == content;
      closed := true;
      var cleaned: bool := *;
      ok := ok && cleaned;
    }
  }

  /** OpenWrite: start from nothing when truncating, else from what the server has. */
  method OpenHandle(server: Server, name: string, create: bool, truncate: bool, append: bool)
    returns (handle: UploadHandle?)
    ensures handle != null ==>
              && fresh(handle) && handle.server == server && handle.name == name && handle.append == append
                 && !handle.closed
              && (name !in server.files ==> create)
              && handle.content == (if truncate || name !in server.files then [] else server.files[name])
              && (handle.dirty <==> truncate || name !in server.files)
  {
    var ok: bool := *;
    if !ok || (name !in server.files && !create) {
      return null;
    }
    var content := if truncate || name !in server.files then [] else server.files[name];
    handle := new UploadHandle(server, name, append, content, truncate || name !in server.files);
  }

  datatype ReadError = NoError | EndOfFile | OtherError

  /** ReadAt's contract: no error means a full buffer, end of file means the file's end. */
  method ReadAt(content: Bytes, want: nat, offset: nat) returns (data: Bytes, error: ReadError)
    ensures |data| <= want
    ensures offset + |data| <= |content| || data == []
    ensures data == [] || data == content[offset..offset + |data|]
    ensures error == NoError ==> |data| == want
    ensures error == EndOfFile ==> (if offset <= |content| then offset + |data| == |content| else data == [])
  {
    var failed: bool := *;
    if failed {
      return [], OtherError;
    }
    if offset + want <= |content| {
      return content[offset..offset + want], NoError;
    } else if offset <= |content| {
      return content[offset..], EndOfFile;
    } else {
      return [], EndOfFile;
    }
  }
}
