/** One connection as the mount layer sees it: the remote server behind the metadata
    cache. Every mutating call is bracketed by an invalidation before and one after. */
module CachedBackend {
  import opened Wrappers
  import opened Paths
  import opened Errors
  import opened RecoveryStore
  import opened Uploads
  import C = MetadataCache
  import P = CacheProtocol

  const REFUSED := C.Failed(Sentinel(Other(1)))

  /** Sizes are reported as int64, longer ones as the largest. */
  function Size64(n: nat): (r: nat)
    ensures r == n <= 9_223_372_036_854_775_807 || r == 9_223_372_036_854_775_807 < n
  {
    if n > INT64_MAX then INT64_MAX else n
  }

  /** What the server answers to Stat of the resolved name. */
  function StatTruth(w: World, n: string): C.Outcome {
    var time := if n in w.times then w.times[n] else ZERO_TIME;
    if n in w.files then C.Found(C.Entry(Base(n), Size64(|w.files[n]|), false, time))
    else if n in w.folders then C.Found(C.Entry(Base(n), 0, true, time))
    else P.ABSENT
  }

  ghost predicate IsEntry(w: World, directory: string, n: string) {
    IsClean(n) && n != "/" && Dir(n) == directory && (n in w.files || n in w.folders)
  }

  /** The listing has every entry of the directory, and what it says of one is what Stat
      of it says. */
  ghost predicate ListsDirectory(entries: seq<C.Entry>, w: World, directory: string) {
    && (forall e :: e in entries && C.Seedable(e.name) ==> StatTruth(w, Join(directory, e.name)) == C.Found(e))
    && (forall n :: IsEntry(w, directory, n) ==> exists e :: e in entries && e.name == Base(n))
  }

  /** A truthful answer to ReadDir of the resolved name. */
  ghost predicate ReportsListing(outcome: C.Outcome, w: World, directory: string) {
    match outcome
    case Listed(entries) => directory in w.folders && ListsDirectory(entries, w, directory)
    case Failed(error) => DefiniteMissing(error) ==> directory !in w.folders
    case Found(_) => false
  }

  ghost predicate IsTrue(k: C.Key, outcome: C.Outcome, w: World) {
    if k.directory then IsClean(k.name) && ReportsListing(outcome, w, k.name)
    else P.Reports(outcome, StatTruth(w, k.name))
  }

  /** Every cached Stat, listing and absence is what the server would say now. */
  ghost predicate Coherent(values: C.Table, w: World) {
    forall k :: k in values ==> IsTrue(k, values[k].outcome, w)
  }

  /** The two worlds agree on what is not n. */
  ghost predicate AgreeExcept(before: World, after: World, n: string) {
    && before.files - {n} == after.files - {n}
    && before.times - {n} == after.times - {n}
    && before.folders == after.folders
  }

  /** After the call and its closing invalidation nothing that the call could have changed
      is left in the cache. */
  lemma BracketCoherent(values: C.Table, name: string, before: World, after: World)
    requires Coherent(values, before)
    requires MetadataPath(name).Some? ==> AgreeExcept(before, after, MetadataPath(name).value)
    ensures Coherent(C.Surviving(C.Surviving(values, [name]), [name]), after)
  {
    var kept := C.Surviving(C.Surviving(values, [name]), [name]);
    C.SurvivesOne(name);
    forall k | k in kept
      ensures IsTrue(k, kept[k].outcome, after)
    {
      assert IsTrue(k, values[k].outcome, before);
      var n := MetadataPath(name).value;
      assert k.name != n && (k.directory ==> k.name != Dir(n));
      hide MetadataPath, C.Surviving, C.Survives, Dir;
      AnswerSpared(k, values[k].outcome, before, after, n);
    }
  }

  /** A change at n spares Stat of every other name and every listing but its parent's. */
  lemma AnswerSpared(k: C.Key, outcome: C.Outcome, before: World, after: World, n: string)
    requires AgreeExcept(before, after, n) && k.name != n && (k.directory ==> k.name != Dir(n))
    requires IsTrue(k, outcome, before)
    ensures IsTrue(k, outcome, after)
  {
    hide Dir, Base;
    if !k.directory {
      StatSpared(before, after, n, k.name);
    } else if outcome.Listed? {
      ListingSpared(outcome.entries, before, after, k.name, n);
    }
  }

  lemma StatSpared(before: World, after: World, n: string, other: string)
    requires AgreeExcept(before, after, n) && other != n
    ensures StatTruth(after, other) == StatTruth(before, other)
    ensures other in after.files <==> other in before.files
  {
    assert other in before.files <==> other in before.files - {n};
    assert other in after.files <==> other in after.files - {n};
    assert other in before.times <==> other in before.times - {n};
    assert other in after.times <==> other in after.times - {n};
  }

  lemma ListingSpared(entries: seq<C.Entry>, before: World, after: World, directory: string, n: string)
    requires AgreeExcept(before, after, n) && IsClean(directory) && directory != Dir(n)
    requires ListsDirectory(entries, before, directory)
    ensures ListsDirectory(entries, after, directory)
  {
    hide IsClean, Dir, Base, Join, StatTruth, C.Seedable;
    forall e | e in entries && C.Seedable(e.name)
      ensures StatTruth(after, Join(directory, e.name)) == C.Found(e)
    {
      SeedableIsProper(e.name);
      JoinTakenApart(directory, e.name);
      StatSpared(before, after, n, Join(directory, e.name));
    }
    forall m | IsEntry(after, directory, m)
      ensures exists e :: e in entries && e.name == Base(m)
    {
      StatSpared(before, after, n, m);
      assert IsEntry(before, directory, m);
    }
  }

  lemma KeyIsClean(name: string)
    requires MetadataPath(name).Some?
    ensures IsClean(MetadataPath(name).value)
  {
    CleanIdempotent(ForwardSlashes(name));
  }

  lemma SeedableIsProper(name: string)
    requires C.Seedable(name)
    ensures IsProper(name)
  {
  }

  /** Filing a true answer, with the children of a listing, leaves nothing but true answers. */
  lemma StoredCoherent(values: C.Table, k: C.Key, outcome: C.Outcome, now: int, w: World)
    requires Coherent(values, w) && C.Storable(outcome) && IsTrue(k, outcome, w)
    ensures Coherent(C.AfterStoring(values, k, outcome, now), w)
  {
    var next := C.AfterStoring(values, k, outcome, now);
    hide C.AfterStoring, StatTruth, IsClean, Dir, Base, Join;
    forall j | j in next
      ensures IsTrue(j, next[j].outcome, w)
    {
      C.StoringAddsOnlyAnswer(values, k, outcome, now, j);
      if j in values && next[j] == values[j] {
        assert IsTrue(j, values[j].outcome, w);
      }
    }
  }

  /** An unexpired value is the answer and the server hears nothing; otherwise it is asked
      once, and what came of that is the answer. */
  ghost predicate AnsweredFor(k: C.Key, outcome: C.Outcome, values: C.Table, now: int,
                              before: seq<(C.Key, C.Outcome)>, after: seq<(C.Key, C.Outcome)>)
  {
    if k in values && now < values[k].expires then outcome == values[k].outcome && after == before
    else after == before + [(k, outcome)]
  }

  /** The answer is an unexpired value of the cache, or what the server said last. */
  ghost predicate BackedBy(k: C.Key, outcome: C.Outcome, values: C.Table, now: int,
                           answered: seq<(C.Key, C.Outcome)>)
  {
    || (k in values && now < values[k].expires && outcome == values[k].outcome)
    || (answered != [] && answered[|answered| - 1] == (k, outcome))
  }

  class Backend {
    const server: Server
    const cache: C.Cache

    constructor (folders: set<string>)
      ensures Valid() && fresh(server) && fresh(cache)
      ensures server.View() == World(map[], map[], folders)
    {
      server := new Server(folders);
      cache := new C.Cache();
    }

    ghost predicate Valid()
      reads this, server, cache
    {
      && cache.Valid() && cache.changing == 0 && !cache.closed && cache.flights == map[]
      && Coherent(cache.values, server.View())
    }

    /** The first half of a query with no other call under way: an unexpired value is a hit,
        otherwise this query leads. */
    method LookUp(k: C.Key, now: int) returns (decision: C.Decision)
      requires Valid()
      modifies cache
      ensures cache.Valid() && cache.changing == 0 && !cache.closed && Coherent(cache.values, server.View())
      ensures decision.Hit? <==> k in old(cache.values) && now < old(cache.values)[k].expires
      ensures decision.Hit? ==>
                Valid() && cache.values == old(cache.values) && decision.outcome == old(cache.values)[k].outcome
      ensures !decision.Hit? ==>
                decision.Lead? && decision.merge
                && cache.flights == map[C.FlightKey(k, decision.generation) := decision.flight]
    {
      hide Coherent, C.Bounded, C.Total;
      CoherentWithout(cache.values, k);
      decision := cache.Enter(k, now);
    }

    lemma CoherentWithout(values: C.Table, k: C.Key)
      requires Coherent(values, server.View())
      ensures Coherent(values - {k}, server.View())
    {
    }

    /** The second half: a true answer is filed, unless the caller gave up, and the flight
        lands. */
    method Land(k: C.Key, lead: C.Decision, outcome: C.Outcome, now: int)
      requires cache.Valid() && cache.changing == 0 && !cache.closed && Coherent(cache.values, server.View())
      requires lead.Lead? && lead.merge && cache.flights == map[C.FlightKey(k, lead.generation) := lead.flight]
      requires IsTrue(k, outcome, server.View())
      modifies cache
      ensures Valid()
    {
      hide Coherent, IsTrue, C.Bounded, C.Total, C.AfterStoring;
      var cancelled: bool := *;
      if C.Storable(outcome) {
        StoredCoherent(cache.values, k, outcome, now, server.View());
      }
      cache.Publish(k, lead, cancelled, outcome, now);
    }

    /** A Stat with no other call under way: a hit, or a call whose answer is filed. */
    method Stat(name: string, now: int) returns (outcome: C.Outcome)
      requires Valid()
      modifies cache, server`answered
      ensures Valid() && !outcome.Listed?
      ensures MetadataPath(name).None? ==> outcome == REFUSED && server.answered == old(server.answered)
      ensures MetadataPath(name).Some? ==> P.Reports(outcome, StatTruth(server.View(), MetadataPath(name).value))
      ensures MetadataPath(name).Some? ==>
                && AnsweredFor(C.Key(MetadataPath(name).value, false), outcome, old(cache.values), now,
                               old(server.answered), server.answered)
                && BackedBy(C.Key(MetadataPath(name).value, false), outcome, cache.values, now, server.answered)
    {
      hide Coherent, StatTruth;
      var n := MetadataPath(name);
      if n.None? {
        return REFUSED;
      }
      var k := C.Key(n.value, false);
      CoherentMeans(k);
      var decision := LookUp(k, now);
      if decision.Hit? {
        return decision.outcome;
      }
      outcome := Ask(n.value);
      Land(k, decision, outcome, now);
    }

    /** A ReadDir with no other call under way; its entries are filed too. */
    method ReadDir(name: string, now: int) returns (outcome: C.Outcome)
      requires Valid()
      modifies cache, server`answered
      ensures Valid()
      ensures MetadataPath(name).None? ==> outcome == REFUSED && server.answered == old(server.answered)
      ensures MetadataPath(name).Some? ==> ReportsListing(outcome, server.View(), MetadataPath(name).value)
      ensures MetadataPath(name).Some? ==>
                AnsweredFor(C.Key(MetadataPath(name).value, true), outcome, old(cache.values), now,
                            old(server.answered), server.answered)
    {
      hide Coherent, ReportsListing, IsClean;
      var n := MetadataPath(name);
      if n.None? {
        return REFUSED;
      }
      KeyIsClean(name);
      var k := C.Key(n.value, true);
      CoherentMeans(k);
      var decision := LookUp(k, now);
      if decision.Hit? {
        return decision.outcome;
      }
      outcome := AskListing(n.value);
      Land(k, decision, outcome, now);
    }

    lemma CoherentMeans(k: C.Key)
      requires Coherent(cache.values, server.View())
      ensures k in cache.values ==> IsTrue(k, cache.values[k].outcome, server.View())
      ensures k in cache.values && !k.directory ==> !cache.values[k].outcome.Listed?
    {
    }

    method AskListing(directory: string) returns (outcome: C.Outcome)
      requires IsClean(directory)
      modifies server`answered
      ensures ReportsListing(outcome, server.View(), directory)
      ensures server.answered == old(server.answered) + [(C.Key(directory, true), outcome)]
    {
      outcome := ListingOf(directory);
      server.answered := server.answered + [(C.Key(directory, true), outcome)];
    }

    /** What comes of the call: every entry of the directory, or a failure. */
    method ListingOf(directory: string) returns (outcome: C.Outcome)
      requires IsClean(directory)
      ensures ReportsListing(outcome, server.View(), directory)
    {
      var failed: bool, error: Error := *, *;
      if failed && !DefiniteMissing(error) {
        return C.Failed(error);
      }
      if directory !in server.folders {
        return P.ABSENT;
      }
      hide IsClean, Dir, Base, Join;
      var rest, entries: seq<C.Entry> := server.files.Keys + server.folders, [];
      while rest != {}
        invariant rest <= server.files.Keys + server.folders
        invariant forall e :: e in entries && C.Seedable(e.name) ==>
                    StatTruth(server.View(), Join(directory, e.name)) == C.Found(e)
        invariant forall n :: IsEntry(server.View(), directory, n) && n !in rest ==>
                    exists e :: e in entries && e.name == Base(n)
        decreases |rest|
      {
        var n :| n in rest;
        rest := rest - {n};
        if IsClean(n) && n != "/" && Dir(n) == directory {
          TakenApartJoins(n);
          var entry := Describe(n);
          entries := entries + [entry];
          assert entry in entries;
        }
      }
      return C.Listed(entries);
    }

    method Describe(n: string) returns (entry: C.Entry)
      requires n in server.files || n in server.folders
      ensures StatTruth(server.View(), n) == C.Found(entry) && entry.name == Base(n)
    {
      var time := if n in server.times then server.times[n] else ZERO_TIME;
      if n in server.files {
        return C.Entry(Base(n), Size64(|server.files[n]|), false, time);
      }
      return C.Entry(Base(n), 0, true, time);
    }

    method Ask(n: string) returns (outcome: C.Outcome)
      modifies server`answered
      ensures P.Reports(outcome, StatTruth(server.View(), n)) && !outcome.Listed?
      ensures server.answered == old(server.answered) + [(C.Key(n, false), outcome)]
    {
      outcome := EntryAt(n);
      server.answered := server.answered + [(C.Key(n, false), outcome)];
    }

    /** What comes of the call: the server tells the truth, or the call fails. */
    method EntryAt(n: string) returns (outcome: C.Outcome)
      ensures P.Reports(outcome, StatTruth(server.View(), n)) && !outcome.Listed?
    {
      var failed: bool, error: Error := *, *;
      if failed && !DefiniteMissing(error) {
        return C.Failed(error);
      }
      if n in server.files || n in server.folders {
        var entry := Describe(n);
        return C.Found(entry);
      }
      return P.ABSENT;
    }

    /** OpenWrite, wrapped so that every later call on the handle is bracketed too. */
    method OpenWrite(name: string, create: bool, truncate: bool, append: bool) returns (w: MetadataWrite?)
      requires Valid()
      modifies cache
      ensures Valid()
      ensures w != null ==>
                && fresh(w) && fresh(w.handle) && w.backend == this && w.name == name && w.Belongs()
                && w.handle.append == append && !w.handle.closed
                && (truncate ==> w.handle.content == [] && w.handle.dirty)
    {
      w := null;
      ghost var values := cache.values;
      cache.Begin([name]);
      var n := MetadataPath(name);
      if n.Some? {
        var handle := OpenHandle(server, n.value, create, truncate, append);
        if handle != null {
          w := new MetadataWrite(this, handle, name);
        }
      }
      cache.Done([name]);
      BracketCoherent(values, name, server.View(), server.View());
    }

    method OpenRead(name: string) returns (content: Option<Bytes>)
      ensures content.Some? ==>
                && MetadataPath(name).Some? && MetadataPath(name).value in server.files
                && content.value == server.files[MetadataPath(name).value]
    {
      var n := MetadataPath(name);
      var ok: bool := *;
      if n.None? || n.value !in server.files || !ok {
        return None;
      }
      return Some(server.files[n.value]);
    }

    method SetModTime(name: string, time: int) returns (ok: bool)
      requires Valid()
      modifies cache, server`times
      ensures Valid()
      ensures MetadataPath(name).None? ==> !ok && server.times == old(server.times)
      ensures MetadataPath(name).Some? ==>
                && server.times - {MetadataPath(name).value} == old(server.times) - {MetadataPath(name).value}
                && (ok ==> server.times == old(server.times)[MetadataPath(name).value := time])
    {
      ghost var values, before := cache.values, server.View();
      cache.Begin([name]);
      var n := MetadataPath(name);
      ok := false;
      if n.Some? {
        ok := server.SetModTime(n.value, time);
      }
      cache.Done([name]);
      BracketCoherent(values, name, before, server.View());
    }
  }

  /** metadataWrite: the backend's handle with an invalidation around every call. */
  class MetadataWrite {
    const backend: Backend
    const handle: UploadHandle
    const name: string

    constructor (backend: Backend, handle: UploadHandle, name: string)
      ensures this.backend == backend && this.handle == handle && this.name == name
    {
      this.backend, this.handle, this.name := backend, handle, name;
    }

    ghost predicate Belongs() {
      MetadataPath(name) == Some(handle.name) && handle.server == backend.server
    }

    method WriteAt(data: Bytes, offset: int) returns (written: nat, ok: bool)
      requires backend.Valid() && Belongs()
      modifies backend.cache, handle`content, handle`dirty
      ensures backend.Valid()
      ensures written <= |data| && (ok ==> written == |data|)
      ensures handle.closed || (!handle.append && offset < 0) ==> written == 0 && !ok
      ensures handle.content
              == if written == 0 then old(handle.content)
                 else Overwrite(old(handle.content), data[..written],
                                if handle.append then |old(handle.content)| else offset)
      ensures handle.dirty <==> old(handle.dirty) || written > 0
    {
      ghost var values := backend.cache.values;
      backend.cache.Begin([name]);
      written, ok := handle.WriteAt(data, offset);
      backend.cache.Done([name]);
      BracketCoherent(values, name, backend.server.View(), backend.server.View());
    }

    method Sync() returns (ok: bool)
      requires backend.Valid() && Belongs()
      modifies backend.cache, backend.server, handle`dirty
      ensures backend.Valid()
      ensures ok ==> !handle.closed && !handle.dirty
      ensures ok && old(handle.dirty) ==>
                backend.server.files == old(backend.server.files)[handle.name := handle.content]
      ensures !ok ==> handle.dirty == old(handle.dirty)
      ensures !ok ==> Torn(old(backend.server.files), backend.server.files, handle.name, handle.content)
      ensures AgreeExcept(old(backend.server.View()), backend.server.View(), handle.name)
    {
      ghost var values, before := backend.cache.values, backend.server.View();
      backend.cache.Begin([name]);
      ok := handle.Sync();
      backend.cache.Done([name]);
      assert AgreeExcept(before, backend.server.View(), handle.name);
      BracketCoherent(values, name, before, backend.server.View());
    }

    method Close() returns (ok: bool, ghost flushed: bool)
      requires backend.Valid() && Belongs()
      modifies backend.cache, backend.server, handle`dirty, handle`closed
      ensures backend.Valid() && handle.closed && (ok ==> flushed)
      ensures flushed && old(handle.dirty) ==>
                backend.server.files == old(backend.server.files)[handle.name := handle.content]
      ensures ok && old(handle.dirty) ==>
                backend.server.files == old(backend.server.files)[handle.name := handle.content]
      ensures !old(handle.dirty) ==> backend.server.View() == old(backend.server.View())
      ensures Torn(old(backend.server.files), backend.server.files, handle.name, handle.content)
      ensures AgreeExcept(old(backend.server.View()), backend.server.View(), handle.name)
    {
      ghost var values, before := backend.cache.values, backend.server.View();
      backend.cache.Begin([name]);
      ok, flushed := handle.Close();
      backend.cache.Done([name]);
      assert AgreeExcept(before, backend.server.View(), handle.name);
      BracketCoherent(values, name, before, backend.server.View());
    }
  }
}
