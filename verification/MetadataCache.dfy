/** The per-connection metadata cache: its table of answers, its byte and entry bounds,
    the invalidation rule, and the sections that `query`, the mutating wrappers and
    `Close` execute while they hold the cache's mutex. */
module MetadataCache {
  import opened Wrappers
  import opened Paths
  import opened Errors

  // Times are in milliseconds.
  const METADATA_TTL := 2000
  const MISSING_TTL := 500
  const METADATA_MAX_ENTRIES := 4096
  const METADATA_MAX_BYTES := 16 * 1024 * 1024

  datatype Entry = Entry(name: string, size: int, directory: bool, modTime: int)

  datatype Key = Key(name: string, directory: bool)

  /** The entry of a Stat, the entries of a ReadDir, or an error. */
  datatype Outcome = Found(entry: Entry) | Listed(entries: seq<Entry>) | Failed(error: Error)

  datatype Value = Value(outcome: Outcome, expires: int, bytes: nat)

  type Table = map<Key, Value>

  // ------------------------------------------------------------- accounting

  function EntriesBytes(entries: seq<Entry>): nat {
    if entries == [] then 0
    else EntriesBytes(entries[..|entries| - 1]) + |entries[|entries| - 1].name| + 64
  }

  function Charge(k: Key, outcome: Outcome): nat {
    |k.name| + 128 + match outcome
                     case Found(entry) => |entry.name|
                     case Listed(entries) => EntriesBytes(entries)
                     case Failed(_) => 0
  }

  ghost function Total(values: Table): nat {
    if values == map[] then 0
    else var k :| k in values; values[k].bytes + Total(values - {k})
  }

  lemma {:induction false} TotalRemove(values: Table, k: Key)
    requires k in values
    ensures Total(values) == values[k].bytes + Total(values - {k})
    decreases |values|
  {
    var picked :| picked in values && Total(values) == values[picked].bytes + Total(values - {picked});
    if picked != k {
      TotalRemove(values - {picked}, k);
      TotalRemove(values - {k}, picked);
      assert values - {picked} - {k} == values - {k} - {picked};
    }
  }

  lemma TotalAdd(values: Table, k: Key, v: Value)
    requires k !in values
    ensures Total(values[k := v]) == Total(values) + v.bytes
    ensures |values[k := v]| == |values| + 1
  {
    hide Total;
    TotalRemove(values[k := v], k);
    assert values[k := v] - {k} == values;
    assert values[k := v].Keys == values.Keys + {k};
  }

  lemma CountRemove(values: Table, k: Key)
    requires k in values
    ensures |values - {k}| == |values| - 1
  {
    assert (values - {k}).Keys == values.Keys - {k};
  }

  lemma {:induction false} TotalSubset(values: Table, keys: set<Key>)
    ensures Total(values - keys) <= Total(values)
    ensures |values - keys| <= |values|
    decreases |values|
  {
    hide Total;
    if k :| k in values && k in keys {
      TotalRemove(values, k);
      CountRemove(values, k);
      TotalSubset(values - {k}, keys);
      assert values - {k} - keys == values - keys;
    } else {
      assert values - keys == values;
    }
  }

  /** What the cache promises about its memory. */
  ghost predicate Bounded(values: Table) {
    && |values| <= METADATA_MAX_ENTRIES
    && Total(values) <= METADATA_MAX_BYTES
    && forall k :: k in values ==> values[k].bytes == Charge(k, values[k].outcome)
  }

  lemma BoundedSubset(values: Table, keys: set<Key>)
    requires Bounded(values)
    ensures Bounded(values - keys)
  {
    TotalSubset(values, keys);
  }

  // ------------------------------------------------------------ invalidation

  /** The test `invalidate` makes on each cached key, for the clean path n. */
  predicate Covered(n: string, k: Key) {
    || k.name == n
    || n == "/"
    || HasPrefix(k.name, n + "/")
    || (k.directory && k.name == Dir(n))
  }

  /** The cached keys that survive `invalidate(names...)`; an invalid name drops them all. */
  predicate Survives(names: seq<string>, k: Key) {
    forall i :: 0 <= i < |names| ==>
      MetadataPath(names[i]).Some? && !Covered(MetadataPath(names[i]).value, k)
  }

  function Surviving(values: Table, names: seq<string>): Table {
    map k | k in values && Survives(names, k) :: values[k]
  }

  /** The string tests drop exactly the subtree of n and its parent's listing. */
  lemma CoveredExact(n: string, k: Key)
    requires IsClean(n) && IsClean(k.name)
    ensures Covered(n, k) <==>
              || Components(n) <= Components(k.name)
              || (k.directory && Components(k.name) == Parent(Components(n)))
  {
    var sn, sk := Components(n), Components(k.name);
    ComponentsProper(n);
    ComponentsProper(k.name);
    RenderInjective(sn, sk);
    RenderInjective(sn, []);
    DirIsParent(sn);
    RenderInjective(sk, Parent(sn));
    if sn != [] {
      PrefixIsComponentwise(sn, sk);
    }
  }

  // ------------------------------------------------------- storing an answer

  /** The table after `put`. */
  ghost function AfterPut(values: Table, k: Key, outcome: Outcome, expires: int): Table {
    var size := Charge(k, outcome);
    var kept := values - {k};
    if size > METADATA_MAX_BYTES then values
    else if |kept| >= METADATA_MAX_ENTRIES || Total(kept) + size > METADATA_MAX_BYTES then
      map[k := Value(outcome, expires, size)]
    else kept[k := Value(outcome, expires, size)]
  }

  /** What an entry is charged for. */
  lemma ChargeExactly(k: Key, e: Entry, entries: seq<Entry>, error: Error)
    ensures Charge(k, Failed(error)) == |k.name| + 128
    ensures Charge(k, Found(e)) == |k.name| + 128 + |e.name|
    ensures Charge(k, Listed([])) == |k.name| + 128
    ensures Charge(k, Listed(entries + [e])) == Charge(k, Listed(entries)) + |e.name| + 64
  {
    assert (entries + [e])[..|entries|] == entries;
  }

  /** What put does: an oversized value changes nothing; any other is in the table afterwards,
      beside all the others if there is room and alone if there is none. */
  lemma PutExactly(values: Table, k: Key, outcome: Outcome, expires: int)
    ensures var next, kept, charge := AfterPut(values, k, outcome, expires), values - {k}, Charge(k, outcome);
            var room := |kept| < 4096 && Total(kept) + charge <= 16 * 1024 * 1024;
            if charge > 16 * 1024 * 1024 then next == values
            else
              && k in next && next[k] == Value(outcome, expires, charge)
              && next - {k} == if room then kept else map[]
  {
    hide Charge, Total;
    var next, kept := AfterPut(values, k, outcome, expires), values - {k};
    assert kept[k := Value(outcome, expires, Charge(k, outcome))] - {k} == kept;
  }

  lemma PutBounded(values: Table, k: Key, outcome: Outcome, expires: int)
    requires Bounded(values)
    ensures Bounded(AfterPut(values, k, outcome, expires))
  {
    var size := Charge(k, outcome);
    var kept := values - {k};
    var v := Value(outcome, expires, size);
    if size <= METADATA_MAX_BYTES {
      if |kept| >= METADATA_MAX_ENTRIES || Total(kept) + size > METADATA_MAX_BYTES {
        SingletonBounded(k, v);
      } else {
        BoundedSubset(values, {k});
        TotalAdd(kept, k, v);
      }
    }
  }

  lemma SingletonBounded(k: Key, v: Value)
    requires v.bytes == Charge(k, v.outcome) <= METADATA_MAX_BYTES
    ensures Bounded(map[k := v]) && Total(map[k := v]) == v.bytes
  {
    var none: Table := map[];
    assert map[k := v] == none[k := v];
    TotalAdd(none, k, v);
  }

  /** A directory entry that may be filed under the directory's own path. */
  predicate Seedable(name: string) {
    name != "" && name != "." && name != ".." && '/' !in name && '\\' !in name
  }

  function ChildKey(directory: string, name: string): Key {
    Key(Join(directory, name), false)
  }

  /** The table after the entries of a listing were filed one by one. */
  ghost function AfterSeeding(values: Table, directory: string, entries: seq<Entry>, expires: int): Table
    decreases |entries|
  {
    if entries == [] then values
    else
      var before := AfterSeeding(values, directory, entries[..|entries| - 1], expires);
      var e := entries[|entries| - 1];
      if Seedable(e.name) then AfterPut(before, ChildKey(directory, e.name), Found(e), expires) else before
  }

  function Lifetime(outcome: Outcome): int {
    if outcome.Failed? then MISSING_TTL else METADATA_TTL
  }

  /** A cached absence carries the plain sentinel, whatever chain the backend returned. */
  function Normalized(outcome: Outcome): Outcome {
    if outcome.Failed? then Failed(Sentinel(NotExist)) else outcome
  }

  ghost function AfterStoring(values: Table, k: Key, response: Outcome, now: int): Table {
    var expires := now + Lifetime(response);
    var stored := AfterPut(values, k, Normalized(response), expires);
    if k.directory && response.Listed? then AfterSeeding(stored, k.name, response.entries, expires)
    else stored
  }

  predicate Storable(response: Outcome) {
    response.Failed? ==> DefiniteMissing(response.error)
  }

  lemma {:induction false} SeedingBounded(values: Table, directory: string, entries: seq<Entry>, expires: int)
    requires Bounded(values)
    ensures Bounded(AfterSeeding(values, directory, entries, expires))
    decreases |entries|
  {
    if entries != [] {
      var front, e := entries[..|entries| - 1], entries[|entries| - 1];
      SeedingBounded(values, directory, front, expires);
      PutBounded(AfterSeeding(values, directory, front, expires), ChildKey(directory, e.name), Found(e), expires);
    }
  }

  lemma StoringBounded(values: Table, k: Key, response: Outcome, now: int)
    requires Bounded(values)
    ensures Bounded(AfterStoring(values, k, response, now))
  {
    var expires := now + Lifetime(response);
    PutBounded(values, k, Normalized(response), expires);
    if k.directory && response.Listed? {
      SeedingBounded(AfterPut(values, k, Normalized(response), expires), k.name, response.entries, expires);
    }
  }

  /** Seeding adds nothing but the listing's own entries, each under its child path and
      with the listing's expiry. */
  lemma {:induction false} SeedingAddsOnlyEntries(values: Table, directory: string, entries: seq<Entry>, expires: int,
                                                  k: Key)
    requires k in AfterSeeding(values, directory, entries, expires)
    ensures var v := AfterSeeding(values, directory, entries, expires)[k];
            || (k in values && v == values[k])
            || (v.expires == expires && FromListing(directory, entries, k, v.outcome))
    decreases |entries|
  {
    if entries != [] {
      var front, last := entries[..|entries| - 1], entries[|entries| - 1];
      var before := AfterSeeding(values, directory, front, expires);
      var v := AfterSeeding(values, directory, entries, expires)[k];
      if k in before && v == before[k] {
        SeedingAddsOnlyEntries(values, directory, front, expires, k);
        if FromListing(directory, front, k, v.outcome) {
          var e :| e in front && Seedable(e.name) && k == ChildKey(directory, e.name) && v.outcome == Found(e);
          assert e in entries;
        }
      } else {
        assert last in entries;
      }
    }
  }

  lemma PutAddsOnlyAnswer(values: Table, k: Key, outcome: Outcome, expires: int, j: Key)
    ensures var next := AfterPut(values, k, outcome, expires);
            j in next ==>
              || (j in values && next[j] == values[j])
              || (j == k && next[j].outcome == outcome && next[j].expires == expires)
  {
    hide Total, Charge;
  }

  /** What the entries of a listing are charged for together. */
  function SeedingCharge(directory: string, entries: seq<Entry>): nat {
    if entries == [] then 0
    else SeedingCharge(directory, entries[..|entries| - 1])
         + Charge(ChildKey(directory, entries[|entries| - 1].name), Found(entries[|entries| - 1]))
  }

  lemma {:induction false} SeedingFits(values: Table, directory: string, entries: seq<Entry>, expires: int)
    ensures |AfterSeeding(values, directory, entries, expires)| <= |values| + |entries|
    ensures Total(AfterSeeding(values, directory, entries, expires))
            <= Total(values) + SeedingCharge(directory, entries)
    decreases |entries|
  {
    hide AfterPut, Total, Charge, Seedable;
    if entries != [] {
      var front, e := entries[..|entries| - 1], entries[|entries| - 1];
      var before := AfterSeeding(values, directory, front, expires);
      SeedingFits(values, directory, front, expires);
      PutFits(before, ChildKey(directory, e.name), Found(e), expires);
    }
  }

  lemma PutFits(values: Table, k: Key, outcome: Outcome, expires: int)
    ensures |AfterPut(values, k, outcome, expires)| <= |values| + 1
    ensures Total(AfterPut(values, k, outcome, expires)) <= Total(values) + Charge(k, outcome)
  {
    hide Total, Charge;
    var kept, v := values - {k}, Value(outcome, expires, Charge(k, outcome));
    var none: Table := map[];
    TotalSubset(values, {k});
    TotalAdd(kept, k, v);
    TotalAdd(none, k, v);
    NothingIsFree();
    assert none[k := v] == map[k := v];
  }

  lemma NothingIsFree()
    ensures Total(map[]) == 0
  {
  }

  /** If the listing fits into the table, every entry with a safe name is filed under its
      path, unless a later entry of the same path replaced it. */
  lemma {:induction false} SeedingFilesEntries(values: Table, directory: string, entries: seq<Entry>, expires: int,
                                               i: nat)
    requires |values| + |entries| <= 4096 && Total(values) + SeedingCharge(directory, entries) <= 16 * 1024 * 1024
    requires i < |entries|
    requires var name := entries[i].name;
             name != "" && name != "." && name != ".." && '/' !in name && '\\' !in name
    requires forall j :: i < j < |entries| ==>
               ChildKey(directory, entries[j].name) != ChildKey(directory, entries[i].name)
    ensures var k := Key(Join(directory, entries[i].name), false);
            var next := AfterSeeding(values, directory, entries, expires);
            k in next && next[k].outcome == Found(entries[i]) && next[k].expires == expires
    decreases |entries|
  {
    hide AfterPut, Total, Charge;
    var front, e := entries[..|entries| - 1], entries[|entries| - 1];
    var before := AfterSeeding(values, directory, front, expires);
    var child := ChildKey(directory, e.name);
    SeedingFits(values, directory, front, expires);
    PutWithRoom(before, child, Found(e), expires);
    if i < |front| {
      SeedingFilesEntries(values, directory, front, expires, i);
      assert Seedable(e.name) ==> ChildKey(directory, entries[i].name) in AfterPut(before, child, Found(e), expires);
    }
  }

  lemma PutWithRoom(values: Table, k: Key, outcome: Outcome, expires: int)
    requires |values| < 4096 && Total(values) + Charge(k, outcome) <= 16 * 1024 * 1024
    ensures var next := AfterPut(values, k, outcome, expires);
            && k in next && next[k].outcome == outcome && next[k].expires == expires
            && forall j :: j in values && j != k ==> j in next && next[j] == values[j]
  {
    hide AfterPut, Total, Charge;
    PutExactly(values, k, outcome, expires);
    TotalSubset(values, {k});
    var next := AfterPut(values, k, outcome, expires);
    forall j | j in values && j != k
      ensures j in next && next[j] == values[j]
    {
      assert j in values - {k} && j in next - {k};
    }
  }

  /** The outcome is an entry of the listing, filed under the entry's own path. */
  ghost predicate FromListing(directory: string, entries: seq<Entry>, k: Key, outcome: Outcome) {
    exists e :: e in entries && Seedable(e.name) && k == ChildKey(directory, e.name) && outcome == Found(e)
  }

  /** Everything in the table after an answer was stored is either what it held before,
      the answer itself, or an entry of the answered listing; what is new expires one
      lifetime after the store. */
  lemma StoringAddsOnlyAnswer(values: Table, k: Key, response: Outcome, now: int, j: Key)
    requires j in AfterStoring(values, k, response, now)
    ensures var v := AfterStoring(values, k, response, now)[j];
            || (j in values && v == values[j])
            || (&& v.expires == now + Lifetime(v.outcome)
                && (|| (j == k && v.outcome == Normalized(response))
                    || (k.directory && response.Listed? && FromListing(k.name, response.entries, j, v.outcome))))
  {
    hide AfterSeeding, AfterPut;
    var expires := now + Lifetime(response);
    var stored := AfterPut(values, k, Normalized(response), expires);
    PutAddsOnlyAnswer(values, k, Normalized(response), expires, j);
    if k.directory && response.Listed? {
      SeedingAddsOnlyEntries(stored, k.name, response.entries, expires, j);
    }
  }

  // ----------------------------------------------------- the shared state

  datatype FlightKey = FlightKey(key: Key, generation: nat)

  /** What the mutex protects. A flight is a number; it appears in `finished` once its
      leader has closed the flight's channel. */
  datatype Shared = Shared(
    values: Table,
    flights: map<FlightKey, nat>,
    finished: map<nat, Outcome>,
    nextFlight: nat,
    generation: nat,
    changing: int,
    closed: bool)

  datatype Decision =
    | Refused                                          // the cache is closed
    | Hit(outcome: Outcome)
    | Await(flight: nat, generation: nat)              // join somebody's call
    | Lead(flight: nat, generation: nat, merge: bool)  // make the call

  predicate Usable(c: Shared, k: Key, now: int) {
    !c.closed && c.changing == 0 && k in c.values && now < c.values[k].expires
  }

  /** The section between the two ends of `query`'s first critical section. */
  function Decide(c: Shared, k: Key, now: int): Decision {
    var fk := FlightKey(k, c.generation);
    if c.closed then Refused
    else if Usable(c, k, now) then Hit(c.values[k].outcome)
    else if c.changing == 0 && fk in c.flights then Await(c.flights[fk], c.generation)
    else Lead(c.nextFlight, c.generation, c.changing == 0)
  }

  function AfterDecide(c: Shared, k: Key, now: int): Shared {
    var d := Decide(c, k, now);
    if d.Refused? || d.Hit? then c
    else
      var kept := if c.changing == 0 then c.values - {k} else c.values;
      if d.Await? then c.(values := kept)
      else c.(values := kept,
              flights := if d.merge then c.flights[FlightKey(k, c.generation) := d.flight] else c.flights,
              nextFlight := c.nextFlight + 1)
  }

  /** What a waiter asks before it takes the outcome of a flight of this generation. */
  predicate StillCurrent(c: Shared, joined: nat) {
    !c.closed && c.generation == joined
  }

  /** Looking an answer up can only lose the queried key's expired value. */
  lemma DecideLosesOnlyKey(c: Shared, k: Key, now: int)
    ensures var next := AfterDecide(c, k, now);
            && next.generation == c.generation && next.changing == c.changing && next.closed == c.closed
            && next.finished == c.finished
            && (next.values == c.values || next.values == c.values - {k})
            && (Bounded(c.values) ==> Bounded(next.values))
  {
    hide Total, Bounded, Charge, Usable;
    var next := AfterDecide(c, k, now);
    if Decide(c, k, now).Refused? || Decide(c, k, now).Hit? || c.changing != 0 {
      assert next.values == c.values;
    } else {
      assert next.values == c.values - {k};
      if Bounded(c.values) {
        BoundedSubset(c.values, {k});
      }
    }
  }

  predicate Stores(c: Shared, generation: nat, cancelled: bool, response: Outcome) {
    !c.closed && c.changing == 0 && c.generation == generation && !cancelled && Storable(response)
  }

  /** The section in which a leader files its answer and wakes its waiters. */
  ghost function AfterPublish(c: Shared, k: Key, lead: Decision, cancelled: bool, response: Outcome, now: int): Shared
    requires lead.Lead?
  {
    c.(values := if Stores(c, lead.generation, cancelled, response)
                 then AfterStoring(c.values, k, response, now) else c.values,
       finished := c.finished[lead.flight := response],
       flights := if lead.merge then c.flights - {FlightKey(k, lead.generation)} else c.flights)
  }

  function AfterInvalidate(c: Shared, names: seq<string>): Shared {
    c.(values := Surviving(c.values, names), generation := c.generation + 1)
  }

  function AfterBegin(c: Shared, names: seq<string>): Shared {
    AfterInvalidate(c, names).(changing := c.changing + 1)
  }

  function AfterDone(c: Shared, names: seq<string>): Shared {
    AfterInvalidate(c, names).(changing := c.changing - 1)
  }

  function AfterClose(c: Shared): Shared {
    c.(values := map[], generation := c.generation + 1, closed := true)
  }

  // -------------------------------------------------------------- the object

  class Cache {
    var values: Table
    var flights: map<FlightKey, nat>
    var finished: map<nat, Outcome>
    var nextFlight: nat
    var generation: nat
    var changing: int
    var closed: bool
    var bytes: int

    ghost function View(): Shared
      reads this
    {
      Shared(values, flights, finished, nextFlight, generation, changing, closed)
    }

    ghost predicate Valid()
      reads this
    {
      Bounded(values) && bytes == Total(values)
    }

    constructor ()
      ensures Valid() && View() == Shared(map[], map[], map[], 0, 0, 0, false)
    {
      values, flights, finished, nextFlight := map[], map[], map[], 0;
      generation, changing, closed, bytes := 0, 0, false, 0;
    }

    method Drop(k: Key)
      requires Valid()
      modifies this`values, this`bytes
      ensures Valid() && values == old(values) - {k}
    {
      if k in values {
        TotalRemove(values, k);
        BoundedSubset(values, {k});
        bytes := bytes - values[k].bytes;
        values := values - {k};
      } else {
        assert values - {k} == values;
      }
    }

    method Put(k: Key, outcome: Outcome, expires: int)
      requires Valid()
      modifies this`values, this`bytes
      ensures Valid() && values == AfterPut(old(values), k, outcome, expires)
    {
      var size := Measure(k, outcome);
      if size > METADATA_MAX_BYTES {
        return;
      }
      Drop(k);
      Insert(k, Value(outcome, expires, size));
    }

    /** The bound is kept without an eviction list: a full table is cleared first. */
    method Insert(k: Key, v: Value)
      requires Valid() && k !in values && v.bytes == Charge(k, v.outcome) <= METADATA_MAX_BYTES
      modifies this`values, this`bytes
      ensures Valid()
      ensures values == if |old(values)| >= METADATA_MAX_ENTRIES || Total(old(values)) + v.bytes > METADATA_MAX_BYTES
                        then map[k := v] else old(values)[k := v]
    {
      if |values| >= METADATA_MAX_ENTRIES || bytes + v.bytes > METADATA_MAX_BYTES {
        SingletonBounded(k, v);
        values := map[];
        bytes := 0;
        assert values[k := v] == map[k := v];
      } else {
        TotalAdd(values, k, v);
      }
      values := values[k := v];
      bytes := bytes + v.bytes;
    }

    method Measure(k: Key, outcome: Outcome) returns (size: nat)
      ensures size == Charge(k, outcome)
    {
      size := |k.name| + 128 + if outcome.Found? then |outcome.entry.name| else 0;
      if outcome.Listed? {
        for i := 0 to |outcome.entries|
          invariant size == |k.name| + 128 + EntriesBytes(outcome.entries[..i])
        {
          assert outcome.entries[..i + 1][..i] == outcome.entries[..i];
          size := size + |outcome.entries[i].name| + 64;
        }
        assert outcome.entries[..|outcome.entries|] == outcome.entries;
      }
    }

    method Invalidate(names: seq<string>)
      requires Valid()
      modifies this`values, this`bytes, this`generation
      ensures Valid() && View() == AfterInvalidate(old(View()), names)
    {
      generation := generation + 1;
      assert Surviving(values, []) == values;
      for i := 0 to |names|
        invariant Valid() && generation == old(generation) + 1
        invariant values == Surviving(old(values), names[..i])
      {
        assert names[..i + 1] == names[..i] + [names[i]];
        InvalidateOne(names[i]);
        SurvivingStep(old(values), names[..i], names[i]);
      }
      assert names[..|names|] == names;
    }

    method InvalidateOne(name: string)
      requires Valid()
      modifies this`values, this`bytes
      ensures Valid() && values == Surviving(old(values), [name])
    {
      SurvivesOne(name);
      var n := MetadataPath(name);
      if n.None? {
        values := map[];
        bytes := 0;
      } else {
        DropCovered(n.value);
      }
    }

    method DropCovered(n: string)
      requires Valid()
      modifies this`values, this`bytes
      ensures Valid()
      ensures forall k :: k in values <==> k in old(values) && !Covered(n, k)
      ensures forall k :: k in values ==> values[k] == old(values)[k]
    {
      hide *;
      var pending := values.Keys;
      while pending != {}
        invariant Valid() && pending <= values.Keys <= old(values).Keys
        invariant forall k :: k in old(values) && k !in values ==> Covered(n, k)
        invariant forall k :: k in values ==> values[k] == old(values)[k]
        invariant forall k :: k in values && k !in pending ==> !Covered(n, k)
        decreases |pending|
      {
        var k :| k in pending;
        pending := pending - {k};
        if Covered(n, k) {
          Drop(k);
        }
      }
    }

    method Begin(names: seq<string>)
      requires Valid()
      modifies this
      ensures Valid() && View() == AfterBegin(old(View()), names)
    {
      changing := changing + 1;
      Invalidate(names);
    }

    method Done(names: seq<string>)
      requires Valid()
      modifies this
      ensures Valid() && View() == AfterDone(old(View()), names)
    {
      Invalidate(names);
      changing := changing - 1;
    }

    /** The first critical section of `query`. */
    method Enter(k: Key, now: int) returns (decision: Decision)
      requires Valid()
      modifies this
      ensures Valid() && decision == Decide(old(View()), k, now) && View() == AfterDecide(old(View()), k, now)
    {
      if closed {
        return Refused;
      }
      if changing == 0 {
        if k in values && now < values[k].expires {
          return Hit(values[k].outcome);
        }
        Drop(k);
      }
      var fk := FlightKey(k, generation);
      if fk in flights && changing == 0 {
        return Await(flights[fk], generation);
      }
      var merge := changing == 0;
      if merge {
        flights := flights[fk := nextFlight];
      }
      decision := Lead(nextFlight, generation, merge);
      nextFlight := nextFlight + 1;
    }

    /** The section in which a waiter checks the flight it joined once that has landed. */
    method Recheck(joined: nat) returns (current: bool)
      ensures current <==> StillCurrent(View(), joined)
    {
      current := !closed && generation == joined;
    }

    /** The second critical section of `query`, after the leader's call returned. */
    method Publish(k: Key, lead: Decision, cancelled: bool, response: Outcome, now: int)
      requires Valid() && lead.Lead?
      modifies this
      ensures Valid() && View() == AfterPublish(old(View()), k, lead, cancelled, response, now)
    {
      hide Bounded, Total, AfterStoring;
      if !closed && changing == 0 && generation == lead.generation && !cancelled
         && (!response.Failed? || DefiniteMissing(response.error)) {
        Store(k, response, now);
      }
      finished := finished[lead.flight := response];
      if lead.merge {
        flights := flights - {FlightKey(k, lead.generation)};
      }
    }

    method Store(k: Key, response: Outcome, now: int)
      requires Valid()
      modifies this`values, this`bytes
      ensures Valid() && values == AfterStoring(old(values), k, response, now)
    {
      var ttl := METADATA_TTL;
      var stored := response;
      if response.Failed? {
        ttl := MISSING_TTL;
        stored := Failed(Sentinel(NotExist));
      }
      Put(k, stored, now + ttl);
      if k.directory && response.Listed? {
        Seed(k.name, response.entries, now + ttl);
      }
    }

    method Seed(directory: string, entries: seq<Entry>, expires: int)
      requires Valid()
      modifies this`values, this`bytes
      ensures Valid() && values == AfterSeeding(old(values), directory, entries, expires)
    {
      for i := 0 to |entries|
        invariant Valid() && values == AfterSeeding(old(values), directory, entries[..i], expires)
      {
        assert entries[..i + 1][..i] == entries[..i];
        if Seedable(entries[i].name) {
          Put(ChildKey(directory, entries[i].name), Found(entries[i]), expires);
        }
      }
      assert entries[..|entries|] == entries;
    }

    method Close()
      requires Valid()
      modifies this
      ensures Valid() && View() == AfterClose(old(View()))
    {
      closed := true;
      generation := generation + 1;
      values := map[];
      bytes := 0;
    }
  }

  lemma SurvivesOne(name: string)
    ensures forall k :: Survives([name], k) <==> MetadataPath(name).Some? && !Covered(MetadataPath(name).value, k)
  {
    forall k
      ensures Survives([name], k) <==> MetadataPath(name).Some? && !Covered(MetadataPath(name).value, k)
    {
      assert [name][0] == name;
    }
  }

  lemma SurvivingStep(values: Table, names: seq<string>, name: string)
    ensures Surviving(Surviving(values, names), [name]) == Surviving(values, names + [name])
  {
    forall k | k in values
      ensures Survives(names + [name], k) <==> Survives(names, k) && Survives([name], k)
    {
      if Survives(names + [name], k) {
        assert (names + [name])[|names|] == name;
        assert forall i :: 0 <= i < |names| ==> (names + [name])[i] == names[i];
      }
    }
  }
}
