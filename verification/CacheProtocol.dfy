/** The metadata cache under concurrency: any number of queries and mutations interleave
    at the granularity of the cache's critical sections, while the backend answers calls
    and mutations take effect at instants of their own choosing.

    A run is a sequence of events. Every event appends a moment to the history, so that
    "at some instant during the query" is a statement about the history alone. */
module CacheProtocol {
  import opened Wrappers
  import opened Paths
  import opened Errors
  import opened MetadataCache

  // ------------------------------------------------------------- the backend

  /** What the backend would answer for each clean key. */
  type Truth = Key -> Outcome

  const ABSENT := Failed(Sentinel(NotExist))

  /** A response never lies: what it claims definitely is what the backend holds. Other
      failures claim nothing. */
  predicate Reports(response: Outcome, truth: Outcome) {
    if response.Failed? then DefiniteMissing(response.error) ==> truth == ABSENT
    else response == truth
  }

  /** Listing assumption: a listing's entry is what Stat of the child answers. */
  ghost predicate WellFormed(truth: Truth) {
    && (forall d: Key, e: Entry :: IsClean(d.name) && ListsChild(truth(d), e) ==>
        truth(ChildKey(d.name, e.name)) == Found(e))
    && (forall d: Key :: truth(d).Listed? ==> d.directory)
  }

  predicate ListsChild(outcome: Outcome, e: Entry) {
    outcome.Listed? && e in outcome.entries && Seedable(e.name)
  }

  /** What a mutation of n may change: Stat of n and below; ReadDir of n, below, and of the
      directory that holds n. */
  predicate Touched(names: seq<string>, k: Key) {
    exists i :: 0 <= i < |names| && MetadataPath(names[i]).Some? && TouchedBy(MetadataPath(names[i]).value, k)
  }

  predicate TouchedBy(n: string, k: Key) {
    || Components(n) <= Components(k.name)
    || (k.directory && Components(k.name) == Parent(Components(n)))
  }

  /** Frame assumption: a mutation changes nothing else. */
  ghost predicate Framed(names: seq<string>, before: Truth, after: Truth) {
    forall k: Key :: IsClean(k.name) && !Touched(names, k) ==> after(k) == before(k)
  }

  // --------------------------------------------------------------- the state

  datatype Moment = Moment(truth: Truth, generation: nat, changing: int, closed: bool, now: int)

  type Leading = d: Decision | d.Lead? witness Lead(0, 0, false)

  datatype Phase =
    | Top                                                        // at the head of the loop
    | Checked                                                    // context was live; about to lock
    | Waiting(flight: nat, generation: nat, since: nat)          // on the flight's channel
    | Landed(flight: nat, generation: nat, since: nat)           // flight done; about to re-lock
    | Calling(lead: Leading, since: nat)                        // inside the backend call
    | Answered(lead: Leading, since: nat, response: Outcome, at: nat) // about to re-lock
    | Finished(result: Outcome, at: nat)

  /** One call of `query`: moments are positions in the history. */
  datatype Query = Query(
    key: Key,
    start: nat,
    context: Option<Kind>,
    phase: Phase,
    turns: nat,        // loop iterations begun
    stale: nat,        // iterations ended because the joined flight's generation had passed
    joins: nat,        // flights joined so far, and which
    joined: set<nat>,
    cancels: set<nat>) // joined flights whose leader had been cancelled

  datatype Flight = Flight(key: Key, generation: nat, since: nat, leader: nat)

  /** How a cached value came about: filed at the moment `at`, from the answer that the
      backend gave about `source` at the moment `answered`. */
  datatype Filing = Filing(source: Key, answered: nat, at: nat)

  type Filings = map<Key, Filing>

  datatype State = State(
    cache: Shared,
    filed: Filings,               // the last filing under each key
    history: seq<Moment>,
    flights: map<nat, Flight>,    // every flight ever led
    landed: map<nat, nat>,        // the moment at which a finished flight's call was answered
    queries: map<nat, Query>,
    mutations: map<nat, seq<string>>)
  {
    ghost function Now(): Moment
      requires history != []
    {
      history[|history| - 1]
    }
  }

  datatype Event =
    | Start(q: nat, name: string, directory: bool)
    | Cancel(q: nat, kind: Kind)
    | Look(q: nat)
    | Enter(q: nat)
    | GiveUp(q: nat)
    | Land(q: nat)
    | Recheck(q: nat)
    | Answer(q: nat, response: Outcome)
    | Publish(q: nat)
    | BeginMutation(m: nat, names: seq<string>)
    | Effect(m: nat, truth: Truth)
    | EndMutation(m: nat)
    | Tick(elapsed: nat)
    | Shut

  predicate WasCancelled(outcome: Outcome) {
    outcome.Failed? && (Is(outcome.error, Cancelled) || Is(outcome.error, DeadlineExceeded))
  }

  ghost predicate InPhase(s: State, q: nat, wanted: Phase -> bool) {
    q in s.queries && wanted(s.queries[q].phase)
  }

  ghost predicate Enabled(s: State, e: Event)
    requires s.history != []
  {
    match e
    case Start(q, name, _) => q !in s.queries && MetadataPath(name).Some?
    case Cancel(q, kind) => q in s.queries && (kind == Cancelled || kind == DeadlineExceeded)
    case Look(q) => q in s.queries && s.queries[q].phase.Top?
    case Enter(q) => q in s.queries && s.queries[q].phase.Checked?
    case GiveUp(q) => q in s.queries && s.queries[q].phase.Waiting? && s.queries[q].context.Some?
    case Land(q) => q in s.queries && s.queries[q].phase.Waiting? && s.queries[q].phase.flight in s.cache.finished
    case Recheck(q) => q in s.queries && s.queries[q].phase.Landed?
    case Answer(q, response) =>
      && q in s.queries && s.queries[q].phase.Calling?
      && Reports(response, s.Now().truth(s.queries[q].key))
    case Publish(q) => q in s.queries && s.queries[q].phase.Answered?
    case BeginMutation(m, _) => m !in s.mutations
    case Effect(m, truth) => m in s.mutations && WellFormed(truth) && Framed(s.mutations[m], s.Now().truth, truth)
    case EndMutation(m) => m in s.mutations
    case Tick(_) => true
    case Shut => true
  }

  // --------------------------------------------------------------- the steps

  /** The new state of the cache and the backend, recorded as the next moment. */
  ghost function Advance(s: State, cache: Shared, truth: Truth, now: int): State {
    s.(cache := cache,
       history := s.history + [Moment(truth, cache.generation, cache.changing, cache.closed, now)])
  }

  ghost function Moved(s: State, q: nat, query: Query): State
    requires s.history != []
  {
    Advance(s, s.cache, s.Now().truth, s.Now().now).(queries := s.queries[q := query])
  }

  ghost function Touchdown(s: State, query: Query): Query
    requires query.phase.Waiting? && query.phase.flight in s.cache.finished
  {
    var Waiting(f, g, since) := query.phase;
    if WasCancelled(s.cache.finished[f]) then
      query.(phase := Top, turns := query.turns + 1, cancels := query.cancels + {f})
    else query.(phase := Landed(f, g, since))
  }

  ghost function Rechecked(s: State, query: Query): Query
    requires s.history != [] && query.phase.Landed?
  {
    var Landed(f, g, _) := query.phase;
    if StillCurrent(s.cache, g) && f in s.cache.finished then
      query.(phase := Finished(s.cache.finished[f], |s.history| - 1))
    else query.(phase := Top, turns := query.turns + 1, stale := query.stale + 1)
  }

  ghost function Looked(s: State, query: Query): Query
    requires s.history != []
  {
    match query.context
    case Some(kind) => query.(phase := Finished(Failed(Sentinel(kind)), |s.history| - 1))
    case None => query.(phase := Checked)
  }

  ghost function Entered(s: State, query: Query): Query
    requires s.history != []
  {
    var here := |s.history| - 1;
    match Decide(s.cache, query.key, s.Now().now)
    case Refused => query.(phase := Finished(Failed(Sentinel(Closed)), here))
    case Hit(outcome) => query.(phase := Finished(outcome, here))
    case Await(f, g) =>
      query.(phase := Waiting(f, g, here), joins := query.joins + 1, joined := query.joined + {f})
    case Lead(f, g, merge) => query.(phase := Calling(Lead(f, g, merge), here))
  }

  ghost function AfterEnter(s: State, q: nat): State
    requires s.history != [] && q in s.queries
  {
    var query, now := s.queries[q], s.Now().now;
    var d := Decide(s.cache, query.key, now);
    var next := Advance(s, AfterDecide(s.cache, query.key, now), s.Now().truth, now)
                .(queries := s.queries[q := Entered(s, query)]);
    if d.Lead? then
      next.(flights := s.flights[d.flight := Flight(query.key, d.generation, |s.history| - 1, q)])
    else next
  }

  // Filings are stamped where `put` writes; an oversized value is not written.

  ghost function FiledByPut(filed: Filings, k: Key, outcome: Outcome, stamp: Filing): Filings {
    if Charge(k, outcome) > METADATA_MAX_BYTES then filed else filed[k := stamp]
  }

  ghost function FiledBySeeding(filed: Filings, directory: string, entries: seq<Entry>, stamp: Filing): Filings
    decreases |entries|
  {
    if entries == [] then filed
    else
      var before := FiledBySeeding(filed, directory, entries[..|entries| - 1], stamp);
      var e := entries[|entries| - 1];
      if Seedable(e.name) then FiledByPut(before, ChildKey(directory, e.name), Found(e), stamp) else before
  }

  ghost function FiledByStoring(filed: Filings, k: Key, response: Outcome, stamp: Filing): Filings {
    var stored := FiledByPut(filed, k, Normalized(response), stamp);
    if k.directory && response.Listed? then FiledBySeeding(stored, k.name, response.entries, stamp) else stored
  }

  /** The filings after q published its answer. */
  ghost function FiledAfter(s: State, q: nat): Filings
    requires s.history != [] && q in s.queries && s.queries[q].phase.Answered?
  {
    var query := s.queries[q];
    var Answered(lead, _, response, at) := query.phase;
    if Stores(s.cache, lead.generation, query.context.Some?, response) then
      FiledByStoring(s.filed, query.key, response, Filing(query.key, at, |s.history| - 1))
    else s.filed
  }

  ghost function AfterPublishing(s: State, q: nat): State
    requires s.history != [] && q in s.queries && s.queries[q].phase.Answered?
  {
    var query, now := s.queries[q], s.Now().now;
    var Answered(lead, _, response, at) := query.phase;
    var cache := AfterPublish(s.cache, query.key, lead, query.context.Some?, response, now);
    Advance(s, cache, s.Now().truth, now)
    .(queries := s.queries[q := query.(phase := Finished(response, at))],
      landed := s.landed[lead.flight := at],
      filed := FiledAfter(s, q))
  }

  ghost function After(s: State, e: Event): State
    requires s.history != [] && Enabled(s, e)
  {
    var here, now := |s.history| - 1, s.Now().now;
    var truth := s.Now().truth;
    match e
    case Start(q, name, directory) =>
      Moved(s, q, Query(Key(MetadataPath(name).value, directory), here, None, Top, 1, 0, 0, {}, {}))
    case Cancel(q, kind) => Moved(s, q, s.queries[q].(context := Some(kind)))
    case Look(q) => Moved(s, q, Looked(s, s.queries[q]))
    case Enter(q) => AfterEnter(s, q)
    case GiveUp(q) =>
      Moved(s, q, s.queries[q].(phase := Finished(Failed(Sentinel(s.queries[q].context.value)), here)))
    case Land(q) => Moved(s, q, Touchdown(s, s.queries[q]))
    case Recheck(q) => Moved(s, q, Rechecked(s, s.queries[q]))
    case Answer(q, response) =>
      var query := s.queries[q];
      Moved(s, q, query.(phase := Answered(query.phase.lead, query.phase.since, response, here)))
    case Publish(q) => AfterPublishing(s, q)
    case BeginMutation(m, names) =>
      Advance(s, AfterBegin(s.cache, names), truth, now).(mutations := s.mutations[m := names])
    case Effect(_, changed) => Advance(s, s.cache, changed, now)
    case EndMutation(m) =>
      Advance(s, AfterDone(s.cache, s.mutations[m]), truth, now).(mutations := s.mutations - {m})
    case Tick(elapsed) => Advance(s, s.cache, truth, now + elapsed)
    case Shut => Advance(s, AfterClose(s.cache), truth, now)
  }

  ghost predicate Initial(s: State) {
    && s.cache == Shared(map[], map[], map[], 0, 0, 0, false) && s.filed == map[]
    && |s.history| == 1 && WellFormed(s.Now().truth)
    && s.Now().generation == 0 && s.Now().changing == 0 && !s.Now().closed
    && s.flights == map[] && s.landed == map[] && s.queries == map[] && s.mutations == map[]
  }

  // ------------------------------------------------------------ the invariant

  /** Between two moments of one generation no mutation began or ended; if none was under
      way, the backend did not change. */
  ghost predicate Follows(a: Moment, b: Moment) {
    && a.generation <= b.generation
    && a.now <= b.now
    && (a.generation == b.generation ==>
          a.changing == b.changing && a.closed == b.closed && (a.changing == 0 ==> a.truth == b.truth))
  }

  ghost predicate Chain(history: seq<Moment>) {
    && history != []
    && (forall i :: 0 <= i < |history| ==> WellFormed(history[i].truth))
    && (forall i, j :: 0 <= i <= j < |history| ==> Follows(history[i], history[j]))
  }

  ghost predicate HistoryOk(s: State) {
    && Chain(s.history)
    && s.Now().generation == s.cache.generation
    && s.Now().changing == s.cache.changing
    && s.Now().closed == s.cache.closed
  }

  /** The value expires one lifetime after its filing, was true when the backend answered,
      and comes from an answer about its own key or from the listing around it. */
  ghost predicate FilingOk(history: seq<Moment>, k: Key, v: Value, f: Filing) {
    && f.answered <= f.at < |history|
    && v.expires == history[f.at].now + Lifetime(v.outcome)
    && Reports(v.outcome, history[f.answered].truth(k))
    && (f.source == k || (v.outcome.Found? && IsChild(f.source, k) && history[f.answered].truth(f.source).Listed?))
  }

  ghost predicate IsChild(directory: Key, k: Key) {
    exists name :: Seedable(name) && k == ChildKey(directory.name, name)
  }

  /** A cached answer is true now, and its filing is on record. */
  ghost predicate ValueOk(s: State, k: Key, v: Value)
    requires s.history != []
  {
    && IsClean(k.name)
    && Storable(v.outcome)
    && Reports(v.outcome, s.Now().truth(k))
    && k in s.filed && FilingOk(s.history, k, v, s.filed[k])
  }

  ghost predicate TableOk(s: State)
    requires s.history != []
  {
    && (forall k :: k in s.cache.values ==> ValueOk(s, k, s.cache.values[k]))
    && (forall k, m :: k in s.cache.values && m in s.mutations ==> Survives(s.mutations[m], k))
    && s.cache.changing == |s.mutations|
    && Bounded(s.cache.values)
  }

  /** The flight was led for this key and generation, at a moment of that generation. */
  ghost predicate LedBy(s: State, f: nat, key: Key, generation: nat) {
    && f in s.flights && s.flights[f].key == key && s.flights[f].generation == generation
    && s.flights[f].since < |s.history| && s.history[s.flights[f].since].generation == generation
  }

  ghost predicate Merged(s: State, f: nat) {
    f in s.flights && s.flights[f].since < |s.history| && s.history[s.flights[f].since].changing == 0
  }

  /** A merged flight is registered from its lead until it lands. */
  ghost predicate Registered(s: State, f: nat) {
    && f in s.flights
    && var fk := FlightKey(s.flights[f].key, s.flights[f].generation);
       fk in s.cache.flights && s.cache.flights[fk] == f
  }

  ghost predicate FlightOk(s: State, f: nat)
    requires f in s.flights
  {
    && LedBy(s, f, s.flights[f].key, s.flights[f].generation)
    && f < s.cache.nextFlight
    && (f in s.cache.finished ==>
          && f in s.landed && s.flights[f].since <= s.landed[f] < |s.history|
          && Reports(s.cache.finished[f], s.history[s.landed[f]].truth(s.flights[f].key)))
    && (f !in s.cache.finished ==> Leads(s, s.flights[f].leader, f))
  }

  ghost predicate Leads(s: State, q: nat, f: nat) {
    && q in s.queries
    && var phase := s.queries[q].phase;
       (phase.Calling? || phase.Answered?) && phase.lead.flight == f
  }

  ghost predicate FlightsOk(s: State) {
    && (forall f :: f in s.flights ==> FlightOk(s, f))
    && s.cache.finished.Keys <= s.flights.Keys
    && (forall fk :: fk in s.cache.flights ==>
          && LedBy(s, s.cache.flights[fk], fk.key, fk.generation)
          && Merged(s, s.cache.flights[fk])
          && s.cache.flights[fk] !in s.cache.finished)
  }

  /** A query in the middle of its own call. */
  ghost predicate LeadOk(s: State, q: nat, lead: Leading, since: nat)
    requires q in s.queries
  {
    && s.queries[q].start <= since < |s.history|
    && lead.flight in s.flights
    && s.flights[lead.flight] == Flight(s.queries[q].key, lead.generation, since, q)
    && s.history[since].generation == lead.generation
    && lead.flight !in s.cache.finished
    && (lead.merge <==> s.history[since].changing == 0)
    && (lead.merge ==> Registered(s, lead.flight))
  }

  /** A query that joined somebody's merged call. */
  ghost predicate JoinOk(s: State, q: nat, f: nat, generation: nat, since: nat)
    requires q in s.queries
  {
    && s.queries[q].start <= since < |s.history|
    && LedBy(s, f, s.queries[q].key, generation)
    && Merged(s, f)
    && s.flights[f].since <= since
    && s.history[since].generation == generation
    && s.history[since].changing == 0
    && !s.history[since].closed
    && (f in s.cache.finished || Registered(s, f))
    && f in s.queries[q].joined
  }

  ghost predicate TurnsOk(s: State, q: nat)
    requires q in s.queries && s.history != [] && s.queries[q].start < |s.history|
  {
    var query, phase := s.queries[q], s.queries[q].phase;
    var reached := if phase.Waiting? || phase.Landed? then phase.generation else s.Now().generation;
    && query.turns == 1 + query.stale + |query.cancels|
    && query.stale + s.history[query.start].generation <= reached
    && query.joins == |query.joined|
    && query.cancels <= query.joined
    && (phase.Waiting? || phase.Landed? ==> phase.flight !in query.cancels)
    && (forall f :: f in query.joined ==>
          f in s.cache.finished || phase.Finished? || (phase.Waiting? && f == phase.flight))
    && (forall f :: f in query.cancels ==> f in s.cache.finished && WasCancelled(s.cache.finished[f]))
  }

  ghost predicate QueryOk(s: State, q: nat)
    requires q in s.queries && s.history != []
  {
    var query := s.queries[q];
    && IsClean(query.key.name)
    && query.start < |s.history|
    && (query.context.Some? ==> query.context.value == Cancelled || query.context.value == DeadlineExceeded)
    && TurnsOk(s, q)
    && match query.phase
       case Top => true
       case Checked => true
       case Waiting(f, g, since) => JoinOk(s, q, f, g, since)
       case Landed(f, g, since) =>
         JoinOk(s, q, f, g, since) && f in s.cache.finished && !WasCancelled(s.cache.finished[f])
       case Calling(lead, since) => LeadOk(s, q, lead, since)
       case Answered(lead, since, response, at) =>
         && LeadOk(s, q, lead, since)
         && since <= at < |s.history|
         && Reports(response, s.history[at].truth(query.key))
       case Finished(result, at) =>
         && query.start <= at < |s.history|
         && Reports(result, s.history[at].truth(query.key))
  }

  ghost predicate Inv(s: State) {
    && HistoryOk(s)
    && TableOk(s)
    && FlightsOk(s)
    && (forall q :: q in s.queries ==> QueryOk(s, q))
  }

  // ------------------------------------------------------- every step keeps it

  lemma ChainGrows(history: seq<Moment>, m: Moment)
    requires Chain(history) && WellFormed(m.truth) && Follows(history[|history| - 1], m)
    ensures Chain(history + [m])
  {
    var longer := history + [m];
    forall i, j | 0 <= i <= j < |longer|
      ensures Follows(longer[i], longer[j])
    {
      if j == |history| && i < j {
        assert Follows(history[i], history[|history| - 1]);
      }
    }
  }

  /** From one state to the next nothing recorded is forgotten; only `landing` lands. */
  ghost predicate Extends(s: State, next: State, landing: set<nat>) {
    && s.history != [] && s.history <= next.history
    && s.Now().generation <= next.Now().generation
    && (forall f :: f in s.flights ==> f in next.flights && next.flights[f] == s.flights[f])
    && (forall f :: f in s.cache.finished ==> f in next.cache.finished && next.cache.finished[f] == s.cache.finished[f])
    && (forall f :: f in s.landed && f !in landing ==> f in next.landed && next.landed[f] == s.landed[f])
    && (forall f :: f in next.cache.finished ==> f in s.cache.finished || f in landing)
    && landing <= next.cache.finished.Keys
    && (forall f :: f in s.flights && Registered(s, f) && f !in landing ==> Registered(next, f))
  }

  lemma QueryKept(s: State, next: State, landing: set<nat>, q: nat)
    requires q in s.queries && q in next.queries && next.queries[q] == s.queries[q]
    requires Extends(s, next, landing) && QueryOk(s, q)
    requires var phase := s.queries[q].phase;
             phase.Calling? || phase.Answered? ==> phase.lead.flight !in landing
    ensures QueryOk(next, q)
  {
    var query := s.queries[q];
    assert forall i :: 0 <= i < |s.history| ==> next.history[i] == s.history[i];
    assert TurnsOk(next, q);
  }

  lemma FlightsKept(s: State, next: State)
    requires FlightsOk(s) && Extends(s, next, {})
    requires next.flights == s.flights && next.cache.flights == s.cache.flights
    requires next.cache.finished == s.cache.finished && next.cache.nextFlight == s.cache.nextFlight
    requires forall q, f :: Leads(s, q, f) ==> Leads(next, q, f)
    ensures FlightsOk(next)
  {
    hide FlightOk;
    forall f | f in next.flights
      ensures FlightOk(next, f)
    {
      assert FlightOk(s, f);
      FlightKept(s, next, f);
    }
  }

  lemma FlightKept(s: State, next: State, f: nat)
    requires f in s.flights && FlightOk(s, f) && Extends(s, next, {})
    requires next.flights == s.flights && next.cache.flights == s.cache.flights
    requires next.cache.finished == s.cache.finished && next.cache.nextFlight == s.cache.nextFlight
    requires forall q :: Leads(s, q, f) ==> Leads(next, q, f)
    ensures FlightOk(next, f)
  {
    assert forall i :: 0 <= i < |s.history| ==> next.history[i] == s.history[i];
  }

  /** Values may leave the table as long as those that stay are still true. */
  lemma TableKept(s: State, next: State)
    requires s.history != [] && s.history <= next.history && TableOk(s) && next.filed == s.filed
    requires forall k :: k in next.cache.values ==>
               && k in s.cache.values && next.cache.values[k] == s.cache.values[k]
               && next.Now().truth(k) == s.Now().truth(k)
    requires forall k, m :: k in next.cache.values && m in next.mutations ==> Survives(next.mutations[m], k)
    requires next.cache.changing == |next.mutations| && Bounded(next.cache.values)
    ensures TableOk(next)
  {
    forall k | k in next.cache.values
      ensures ValueOk(next, k, next.cache.values[k])
    {
      ValuePersists(s, next, k, s.cache.values[k]);
    }
  }

  lemma ValuePersists(s: State, next: State, k: Key, v: Value)
    requires s.history != [] && s.history <= next.history && ValueOk(s, k, v)
    requires next.Now().truth(k) == s.Now().truth(k)
    requires k in next.filed && next.filed[k] == s.filed[k]
    ensures ValueOk(next, k, v)
  {
    var f := s.filed[k];
    assert next.history[f.at] == s.history[f.at] && next.history[f.answered] == s.history[f.answered];
  }

  /** A query's own move changes neither the cache nor the backend. */
  lemma MoveKeepsInv(s: State, q: nat, query: Query)
    requires Inv(s)
    requires q in s.queries && (s.queries[q].phase.Calling? || s.queries[q].phase.Answered?) ==>
               Leads(Moved(s, q, query), q, s.queries[q].phase.lead.flight)
    requires QueryOk(Moved(s, q, query), q)
    ensures Inv(Moved(s, q, query))
  {
    var next := Moved(s, q, query);
    MoveKeepsRecords(s, q, query);
    forall p | p in next.queries
      ensures QueryOk(next, p)
    {
      if p != q {
        hide QueryOk;
        QueryKept(s, next, {}, p);
      }
    }
  }

  lemma MoveKeepsRecords(s: State, q: nat, query: Query)
    requires HistoryOk(s) && TableOk(s) && FlightsOk(s)
    requires q in s.queries && (s.queries[q].phase.Calling? || s.queries[q].phase.Answered?) ==>
               Leads(Moved(s, q, query), q, s.queries[q].phase.lead.flight)
    ensures var next := Moved(s, q, query);
            HistoryOk(next) && TableOk(next) && FlightsOk(next) && Extends(s, next, {})
  {
    var next := Moved(s, q, query);
    ChainGrows(s.history, Moment(s.Now().truth, s.cache.generation, s.cache.changing, s.cache.closed, s.Now().now));
    MoveExtends(s, q, query);
    assert TableOk(next) by {
      hide Chain, FlightsOk, Extends;
      TableKept(s, next);
    }
    assert FlightsOk(next) by {
      hide Chain, TableOk, Extends;
      FlightsKept(s, next);
    }
  }

  lemma MoveExtends(s: State, q: nat, query: Query)
    requires s.history != [] && s.Now().generation == s.cache.generation
    ensures Extends(s, Moved(s, q, query), {})
  {
  }

  /** A query that stands still keeps its own invariant while the history grows by a move. */
  lemma StandsStill(s: State, q: nat)
    requires Inv(s) && q in s.queries
    ensures QueryOk(Moved(s, q, s.queries[q]), q)
  {
    var next := Moved(s, q, s.queries[q]);
    MoveExtends(s, q, s.queries[q]);
    assert QueryOk(s, q);
    QueryKept(s, next, {}, q);
  }

  lemma StartKeepsInv(s: State, q: nat, name: string, directory: bool)
    requires Inv(s) && Enabled(s, Start(q, name, directory))
    ensures Inv(After(s, Start(q, name, directory)))
  {
    var query := Query(Key(MetadataPath(name).value, directory), |s.history| - 1, None, Top, 1, 0, 0, {}, {});
    StartOk(s, q, name, query);
    MoveKeepsInv(s, q, query);
  }

  lemma StartOk(s: State, q: nat, name: string, query: Query)
    requires s.history != [] && q !in s.queries && MetadataPath(name).Some?
    requires s.Now().generation == s.cache.generation
    requires query == Query(Key(MetadataPath(name).value, query.key.directory), |s.history| - 1, None, Top, 1, 0, 0,
                            {}, {})
    ensures QueryOk(Moved(s, q, query), q)
  {
    CleanIdempotent(ForwardSlashes(name));
    assert Moved(s, q, query).history[|s.history| - 1] == s.Now();
  }

  lemma CancelKeepsInv(s: State, q: nat, kind: Kind)
    requires Inv(s) && Enabled(s, Cancel(q, kind))
    ensures Inv(After(s, Cancel(q, kind)))
  {
    StandsStill(s, q);
    CancelOk(s, q, kind);
    MoveKeepsInv(s, q, s.queries[q].(context := Some(kind)));
  }

  lemma CancelOk(s: State, q: nat, kind: Kind)
    requires s.history != [] && q in s.queries && QueryOk(Moved(s, q, s.queries[q]), q)
    requires Enabled(s, Cancel(q, kind))
    ensures QueryOk(Moved(s, q, s.queries[q].(context := Some(kind))), q)
  {
  }

  lemma LookKeepsInv(s: State, q: nat)
    requires Inv(s) && Enabled(s, Look(q))
    ensures Inv(After(s, Look(q)))
  {
    StandsStill(s, q);
    LookOk(s, q);
    MoveKeepsInv(s, q, Looked(s, s.queries[q]));
  }

  lemma LookOk(s: State, q: nat)
    requires s.history != [] && q in s.queries && QueryOk(Moved(s, q, s.queries[q]), q)
    requires Enabled(s, Look(q)) && QueryOk(s, q)
    ensures QueryOk(Moved(s, q, Looked(s, s.queries[q])), q)
  {
  }

  ghost function GivingUp(s: State, q: nat): Query
    requires s.history != [] && q in s.queries && s.queries[q].context.Some?
  {
    s.queries[q].(phase := Finished(Failed(Sentinel(s.queries[q].context.value)), |s.history| - 1))
  }

  lemma GiveUpKeepsInv(s: State, q: nat)
    requires Inv(s) && Enabled(s, GiveUp(q))
    ensures Inv(After(s, GiveUp(q)))
  {
    hide Inv, HistoryOk, TableOk, FlightsOk, QueryOk;
    StandsStill(s, q);
    InvParts(s);
    GenerationPassed(s, q);
    GiveUpOk(s, q);
    MoveKeepsInv(s, q, GivingUp(s, q));
  }

  lemma GenerationPassed(s: State, q: nat)
    requires HistoryOk(s) && q in s.queries && s.queries[q].phase.Waiting? && QueryOk(s, q)
    ensures s.cache.generation >= s.queries[q].phase.generation
  {
    assert Follows(s.history[s.queries[q].phase.since], s.Now());
  }

  lemma GiveUpOk(s: State, q: nat)
    requires s.history != [] && q in s.queries && QueryOk(Moved(s, q, s.queries[q]), q)
    requires Enabled(s, GiveUp(q)) && s.queries[q].start < |s.history|
             && s.cache.generation >= s.queries[q].phase.generation
    ensures QueryOk(Moved(s, q, GivingUp(s, q)), q)
    ensures After(s, GiveUp(q)) == Moved(s, q, GivingUp(s, q))
  {
  }

  lemma LandKeepsInv(s: State, q: nat)
    requires Inv(s) && Enabled(s, Land(q))
    ensures Inv(After(s, Land(q)))
  {
    StandsStill(s, q);
    assert Follows(s.history[s.queries[q].phase.since], s.Now());
    LandOk(s, q);
    MoveKeepsInv(s, q, Touchdown(s, s.queries[q]));
  }

  lemma LandOk(s: State, q: nat)
    requires s.history != [] && q in s.queries && QueryOk(Moved(s, q, s.queries[q]), q)
    requires Enabled(s, Land(q)) && s.cache.generation >= s.queries[q].phase.generation
    ensures QueryOk(Moved(s, q, Touchdown(s, s.queries[q])), q)
  {
    var f := s.queries[q].phase.flight;
    assert f !in s.queries[q].cancels;
  }

  lemma RecheckKeepsInv(s: State, q: nat)
    requires Inv(s) && Enabled(s, Recheck(q))
    ensures Inv(After(s, Recheck(q)))
  {
    StandsStill(s, q);
    var Landed(f, g, since) := s.queries[q].phase;
    assert Follows(s.history[since], s.Now());
    if s.cache.generation == g {
      JoinedStillTrue(s, q);
    }
    RecheckOk(s, q);
    MoveKeepsInv(s, q, Rechecked(s, s.queries[q]));
  }

  /** While the joined generation is current nothing has changed since the flight was led,
      so what it brought back is still true. */
  lemma JoinedStillTrue(s: State, q: nat)
    requires HistoryOk(s) && FlightsOk(s) && q in s.queries && s.queries[q].phase.Landed?
    requires var Landed(f, g, since) := s.queries[q].phase;
             JoinOk(s, q, f, g, since) && f in s.cache.finished && s.cache.generation == g
    ensures Reports(s.cache.finished[s.queries[q].phase.flight], s.Now().truth(s.queries[q].key))
  {
    var Landed(f, g, since) := s.queries[q].phase;
    assert FlightOk(s, f);
    var led, at, here := s.flights[f].since, s.landed[f], |s.history| - 1;
    assert Follows(s.history[led], s.history[at]) && Follows(s.history[at], s.history[here]);
  }

  lemma RecheckOk(s: State, q: nat)
    requires s.history != [] && q in s.queries && QueryOk(Moved(s, q, s.queries[q]), q)
    requires Enabled(s, Recheck(q)) && s.queries[q].start < |s.history|
    requires s.queries[q].phase.flight in s.cache.finished
    requires s.cache.generation >= s.queries[q].phase.generation
    requires s.cache.closed ==> s.cache.generation > s.queries[q].phase.generation
    requires s.cache.generation == s.queries[q].phase.generation ==>
               Reports(s.cache.finished[s.queries[q].phase.flight], s.Now().truth(s.queries[q].key))
    ensures QueryOk(Moved(s, q, Rechecked(s, s.queries[q])), q)
  {
    assert Moved(s, q, s.queries[q]).history[|s.history| - 1] == s.Now();
  }

  ghost function Answering(s: State, q: nat, response: Outcome): Query
    requires s.history != [] && q in s.queries && s.queries[q].phase.Calling?
  {
    var query := s.queries[q];
    query.(phase := Answered(query.phase.lead, query.phase.since, response, |s.history| - 1))
  }

  lemma AnswerKeepsInv(s: State, q: nat, response: Outcome)
    requires Inv(s) && Enabled(s, Answer(q, response))
    ensures Inv(After(s, Answer(q, response)))
  {
    hide Inv, HistoryOk, TableOk, FlightsOk, QueryOk;
    StandsStill(s, q);
    InvParts(s);
    AnswerOk(s, q, response);
    MoveKeepsInv(s, q, Answering(s, q, response));
  }

  lemma AnswerOk(s: State, q: nat, response: Outcome)
    requires s.history != [] && q in s.queries && QueryOk(Moved(s, q, s.queries[q]), q)
    requires Enabled(s, Answer(q, response)) && QueryOk(s, q)
    ensures QueryOk(Moved(s, q, Answering(s, q, response)), q)
    ensures Leads(Moved(s, q, Answering(s, q, response)), q, s.queries[q].phase.lead.flight)
    ensures After(s, Answer(q, response)) == Moved(s, q, Answering(s, q, response))
  {
    assert Moved(s, q, s.queries[q]).history[|s.history| - 1] == s.Now();
  }

  // ------------------------------------------------ mutations and the clock

  /** Steps of mutations, of the clock and of Close touch no query and no flight. */
  lemma EnvironmentKeepsInv(s: State, next: State)
    requires Inv(s) && HistoryOk(next) && TableOk(next)
    requires s.history <= next.history && s.Now().generation <= next.Now().generation
    requires next.queries == s.queries && next.flights == s.flights && next.landed == s.landed
    requires next.cache.flights == s.cache.flights && next.cache.finished == s.cache.finished
    requires next.cache.nextFlight == s.cache.nextFlight
    ensures Inv(next)
  {
    EnvironmentExtends(s, next);
    FlightsKept(s, next);
    QueriesKept(s, next);
  }

  lemma EnvironmentExtends(s: State, next: State)
    requires s.history != [] && s.history <= next.history && s.Now().generation <= next.Now().generation
    requires next.flights == s.flights && next.landed == s.landed
    requires next.cache.flights == s.cache.flights && next.cache.finished == s.cache.finished
    ensures Extends(s, next, {})
  {
  }

  lemma QueriesKept(s: State, next: State)
    requires Extends(s, next, {}) && next.queries == s.queries
    requires forall q :: q in s.queries ==> QueryOk(s, q)
    ensures forall q :: q in next.queries ==> QueryOk(next, q)
  {
    forall q | q in next.queries
      ensures QueryOk(next, q)
    {
      QueryKept(s, next, {}, q);
    }
  }

  lemma SurvivingBounded(values: Table, names: seq<string>)
    requires Bounded(values)
    ensures Bounded(Surviving(values, names))
  {
    var dropped := set k | k in values && !Survives(names, k);
    assert Surviving(values, names) == values - dropped;
    BoundedSubset(values, dropped);
  }

  /** What `invalidate` spares, the mutation does not touch. */
  lemma SurvivorsUntouched(names: seq<string>, k: Key)
    requires IsClean(k.name) && Survives(names, k)
    ensures !Touched(names, k)
  {
    if i :| 0 <= i < |names| && MetadataPath(names[i]).Some? && TouchedBy(MetadataPath(names[i]).value, k) {
      CleanIdempotent(ForwardSlashes(names[i]));
      CoveredExact(MetadataPath(names[i]).value, k);
      assert false;
    }
  }

  lemma BeginKeepsInv(s: State, m: nat, names: seq<string>)
    requires Inv(s) && Enabled(s, BeginMutation(m, names))
    ensures Inv(After(s, BeginMutation(m, names)))
  {
    var next := After(s, BeginMutation(m, names));
    ChainGrows(s.history, next.Now());
    BeginTable(s, m, names);
    EnvironmentKeepsInv(s, next);
  }

  lemma BeginTable(s: State, m: nat, names: seq<string>)
    requires s.history != [] && TableOk(s) && Enabled(s, BeginMutation(m, names))
    ensures TableOk(After(s, BeginMutation(m, names)))
  {
    var next := After(s, BeginMutation(m, names));
    assert next.cache.values == Surviving(s.cache.values, names) && next.mutations == s.mutations[m := names];
    assert next.filed == s.filed && next.Now().truth == s.Now().truth && s.history <= next.history;
    hide After, Enabled, ValueOk, Bounded, Survives;
    SurvivingBounded(s.cache.values, names);
    TableKept(s, next);
  }

  lemma EndKeepsInv(s: State, m: nat)
    requires Inv(s) && Enabled(s, EndMutation(m))
    ensures Inv(After(s, EndMutation(m)))
  {
    var next := After(s, EndMutation(m));
    ChainGrows(s.history, next.Now());
    EndTable(s, m);
    EnvironmentKeepsInv(s, next);
  }

  lemma EndTable(s: State, m: nat)
    requires s.history != [] && TableOk(s) && Enabled(s, EndMutation(m))
    ensures TableOk(After(s, EndMutation(m)))
  {
    var next := After(s, EndMutation(m));
    EndShape(s, m);
    hide After, Enabled, ValueOk, Bounded, Survives, Surviving;
    TableKept(s, next);
  }

  lemma EndShape(s: State, m: nat)
    requires s.history != [] && Enabled(s, EndMutation(m)) && Bounded(s.cache.values)
    ensures var next := After(s, EndMutation(m));
            && m in s.mutations && next.mutations == s.mutations - {m} && |next.mutations| == |s.mutations| - 1
            && next.cache.changing == s.cache.changing - 1
            && (forall k :: k in next.cache.values ==> k in s.cache.values && next.cache.values[k] == s.cache.values[k])
            && next.filed == s.filed && next.Now().truth == s.Now().truth && s.history <= next.history
            && Bounded(next.cache.values)
  {
    SurvivingBounded(s.cache.values, s.mutations[m]);
    hide Bounded, Survives;
    assert (s.mutations - {m}).Keys == s.mutations.Keys - {m};
  }

  lemma EffectKeepsInv(s: State, m: nat, truth: Truth)
    requires Inv(s) && Enabled(s, Effect(m, truth))
    ensures Inv(After(s, Effect(m, truth)))
  {
    var next := After(s, Effect(m, truth));
    assert s.cache.changing != 0 by {
      assert m in s.mutations.Keys;
    }
    ChainGrows(s.history, next.Now());
    EffectTable(s, m, truth);
    EnvironmentKeepsInv(s, next);
  }

  lemma EffectTable(s: State, m: nat, truth: Truth)
    requires s.history != [] && TableOk(s) && Enabled(s, Effect(m, truth))
    ensures TableOk(After(s, Effect(m, truth)))
  {
    hide After, Enabled, Bounded, ValueOk, Survives, Framed, TableOk;
    EffectIs(s, m, truth);
    TableParts(s);
    CachedUntouched(s, m, truth);
    TableKept(s, After(s, Effect(m, truth)));
  }

  lemma EffectIs(s: State, m: nat, truth: Truth)
    requires s.history != [] && Enabled(s, Effect(m, truth))
    ensures m in s.mutations && Framed(s.mutations[m], s.Now().truth, truth)
    ensures var next := After(s, Effect(m, truth));
            && next.cache == s.cache && next.mutations == s.mutations && next.filed == s.filed
            && s.history < next.history && next.Now().truth == truth
  {
  }

  lemma TableParts(s: State)
    requires s.history != [] && TableOk(s)
    ensures forall k, m :: k in s.cache.values && m in s.mutations ==> Survives(s.mutations[m], k)
    ensures s.cache.changing == |s.mutations| && Bounded(s.cache.values)
  {
  }

  lemma CachedUntouched(s: State, m: nat, truth: Truth)
    requires s.history != [] && TableOk(s) && m in s.mutations && Framed(s.mutations[m], s.Now().truth, truth)
    ensures forall k :: k in s.cache.values ==> truth(k) == s.Now().truth(k)
  {
    hide Survives, Touched, Bounded;
    forall k | k in s.cache.values
      ensures truth(k) == s.Now().truth(k)
    {
      assert ValueOk(s, k, s.cache.values[k]);
      SurvivorsUntouched(s.mutations[m], k);
    }
  }

  lemma TickKeepsInv(s: State, elapsed: nat)
    requires Inv(s)
    ensures Inv(After(s, Tick(elapsed)))
  {
    var next := After(s, Tick(elapsed));
    ChainGrows(s.history, next.Now());
    TickTable(s, next);
    EnvironmentKeepsInv(s, next);
  }

  lemma TickTable(s: State, next: State)
    requires s.history != [] && s.history <= next.history && TableOk(s)
    requires next.cache == s.cache && next.mutations == s.mutations && next.filed == s.filed
    requires next.Now().truth == s.Now().truth
    ensures TableOk(next)
  {
    hide ValueOk, Bounded, Survives;
    TableKept(s, next);
  }

  lemma ShutKeepsInv(s: State)
    requires Inv(s)
    ensures Inv(After(s, Shut))
  {
    var next := After(s, Shut);
    ChainGrows(s.history, next.Now());
    ShutTable(s);
    EnvironmentKeepsInv(s, next);
  }

  lemma ShutTable(s: State)
    requires s.history != [] && TableOk(s)
    ensures TableOk(After(s, Shut))
  {
    var next := After(s, Shut);
    assert s.cache.values - s.cache.values.Keys == next.cache.values;
    BoundedSubset(s.cache.values, s.cache.values.Keys);
    hide ValueOk, Bounded, Survives;
    TableKept(s, next);
  }

  // --------------------------------------------------- entering the section

  lemma InvParts(s: State)
    requires Inv(s)
    ensures s.history != [] && HistoryOk(s) && TableOk(s) && FlightsOk(s)
    ensures s.Now().generation == s.cache.generation
    ensures forall q :: q in s.queries ==> QueryOk(s, q) && s.queries[q].start < |s.history|
  {
  }

  lemma EnterKeepsInv(s: State, q: nat)
    requires Inv(s) && Enabled(s, Enter(q))
    ensures Inv(After(s, Enter(q)))
  {
    StandsStill(s, q);
    match Decide(s.cache, s.queries[q].key, s.Now().now)
    case Refused =>
      ReturnsAtOnce(s, q);
    case Hit(outcome) =>
      assert ValueOk(s, s.queries[q].key, s.cache.values[s.queries[q].key]);
      ReturnsAtOnce(s, q);
    case Await(_, _) =>
      AwaitKeepsInv(s, q);
    case Lead(_, _, _) =>
      LeadKeepsInv(s, q);
  }

  lemma ReturnsAtOnce(s: State, q: nat)
    requires Inv(s) && Enabled(s, Enter(q)) && QueryOk(Moved(s, q, s.queries[q]), q)
    requires var d := Decide(s.cache, s.queries[q].key, s.Now().now);
             d.Refused? || (d.Hit? && Reports(d.outcome, s.Now().truth(s.queries[q].key)))
    ensures Inv(After(s, Enter(q)))
  {
    var query := Entered(s, s.queries[q]);
    assert AfterEnter(s, q) == Moved(s, q, query);
    ReturnOk(s, q);
    MoveKeepsInv(s, q, query);
  }

  lemma ReturnOk(s: State, q: nat)
    requires s.history != [] && Enabled(s, Enter(q)) && QueryOk(Moved(s, q, s.queries[q]), q)
    requires s.queries[q].start < |s.history|
    requires var d := Decide(s.cache, s.queries[q].key, s.Now().now);
             d.Refused? || (d.Hit? && Reports(d.outcome, s.Now().truth(s.queries[q].key)))
    ensures QueryOk(Moved(s, q, Entered(s, s.queries[q])), q)
  {
    assert Moved(s, q, s.queries[q]).history[|s.history| - 1] == s.Now();
  }

  /** All queries but q are as they were, and q was not in the middle of a call. */
  ghost predicate OnlyMoves(s: State, next: State, q: nat) {
    q in s.queries && q in next.queries && next.queries == s.queries[q := next.queries[q]]
  }

  /** The new moment repeats the backend, the clock and the fences of the last one. */
  ghost predicate SameInstant(s: State, next: State)
    requires s.history != []
  {
    && next.history == s.history
       + [Moment(s.Now().truth, s.cache.generation, s.cache.changing, s.cache.closed, s.Now().now)]
    && next.cache.generation == s.cache.generation
    && next.cache.changing == s.cache.changing
    && next.cache.closed == s.cache.closed
    && next.mutations == s.mutations
  }

  lemma InstantHistory(s: State, next: State)
    requires HistoryOk(s) && SameInstant(s, next)
    ensures HistoryOk(next) && s.history <= next.history
  {
    ChainGrows(s.history, next.Now());
  }

  /** What entering the section changes when the query neither returns nor is refused. */
  ghost predicate EnterShape(s: State, next: State, q: nat)
    requires s.history != [] && q in s.queries
  {
    var query := s.queries[q];
    && SameInstant(s, next) && OnlyMoves(s, next, q)
    && next.landed == s.landed && next.cache.finished == s.cache.finished && next.filed == s.filed
    && (next.cache.values == s.cache.values || next.cache.values == s.cache.values - {query.key})
    && (Bounded(s.cache.values) ==> Bounded(next.cache.values))
    && next.queries[q] == Entered(s, query)
  }

  lemma EnterShapes(s: State, q: nat)
    requires s.history != [] && Enabled(s, Enter(q))
    ensures EnterShape(s, AfterEnter(s, q), q)
    ensures AfterEnter(s, q) == After(s, Enter(q))
  {
    EnterIs(s, q);
    assert q in s.queries;
    hide After, Enabled;
    CacheShape(s, q);
    EnterKeeps(s, q);
    hide AfterEnter, AfterDecide, Bounded, Entered, Decide;
  }

  lemma EnterIs(s: State, q: nat)
    requires s.history != [] && Enabled(s, Enter(q))
    ensures q in s.queries && AfterEnter(s, q) == After(s, Enter(q))
  {
    hide AfterEnter;
  }

  lemma EnterKeeps(s: State, q: nat)
    requires s.history != [] && q in s.queries
    ensures var next := AfterEnter(s, q);
            && next.landed == s.landed && next.filed == s.filed && next.mutations == s.mutations
            && next.queries == s.queries[q := Entered(s, s.queries[q])]
            && next.history == s.history
               + [Moment(s.Now().truth, next.cache.generation, next.cache.changing, next.cache.closed,
                                                   s.Now().now)]
  {
    hide AfterDecide, Entered, Decide;
  }

  lemma CacheShape(s: State, q: nat)
    requires s.history != [] && q in s.queries
    ensures var next := AfterDecide(s.cache, s.queries[q].key, s.Now().now);
            && AfterEnter(s, q).cache == next
            && next.generation == s.cache.generation && next.changing == s.cache.changing
            && next.closed == s.cache.closed && next.finished == s.cache.finished
            && (next.values == s.cache.values || next.values == s.cache.values - {s.queries[q].key})
            && (Bounded(s.cache.values) ==> Bounded(next.values))
  {
    hide AfterDecide, Bounded, Entered;
    DecideLosesOnlyKey(s.cache, s.queries[q].key, s.Now().now);
  }

  lemma EnterTable(s: State, next: State, q: nat)
    requires s.history != [] && TableOk(s) && q in s.queries && EnterShape(s, next, q)
    ensures TableOk(next)
  {
    hide ValueOk, Survives, Bounded, Entered;
    TableKept(s, next);
  }

  ghost predicate Joins(s: State, q: nat)
    requires s.history != []
  {
    q in s.queries && s.queries[q].phase.Checked? && Decide(s.cache, s.queries[q].key, s.Now().now).Await?
  }

  lemma JoinFlights(s: State, q: nat)
    requires s.history != [] && Joins(s, q)
    ensures AfterEnter(s, q).flights == s.flights
    ensures AfterEnter(s, q).cache.flights == s.cache.flights
    ensures AfterEnter(s, q).cache.nextFlight == s.cache.nextFlight
  {
  }

  lemma AwaitKeepsInv(s: State, q: nat)
    requires Inv(s) && Enabled(s, Enter(q)) && s.history != [] && Joins(s, q)
    ensures Inv(After(s, Enter(q)))
  {
    var next := AfterEnter(s, q);
    InvParts(s);
    EnterShapes(s, q);
    JoinFlights(s, q);
    InstantHistory(s, next);
    EnvironmentExtends(s, next);
    EnterTable(s, next, q);
    StillLeads(s, next, q);
    JoinOkNow(s, next, q);
    hide HistoryOk, TableOk, FlightsOk, QueryOk, Extends, EnterShape, AfterEnter, Joins, After, Enabled, SameInstant;
    FlightsKept(s, next);
    OthersKept(s, next, q, {});
  }

  lemma StillLeads(s: State, next: State, q: nat)
    requires OnlyMoves(s, next, q) && !s.queries[q].phase.Calling? && !s.queries[q].phase.Answered?
    ensures forall p, f :: Leads(s, p, f) ==> Leads(next, p, f)
  {
  }

  lemma JoinOkNow(s: State, next: State, q: nat)
    requires HistoryOk(s) && FlightsOk(s) && Joins(s, q) && QueryOk(s, q)
    requires EnterShape(s, next, q) && next.flights == s.flights && next.cache.flights == s.cache.flights
    ensures QueryOk(next, q)
  {
    hide HistoryOk, FlightsOk, TurnsOk, JoinOk, Bounded, Decide, LedBy, Merged, Registered;
    JoinsRegistered(s, q);
    JoinTurns(s, next, q);
    JoinedOk(s, next, q);
    EntersWaiting(s, q);
  }

  lemma JoinedOk(s: State, next: State, q: nat)
    requires s.history != [] && Joins(s, q) && s.queries[q].start < |s.history| && EnterShape(s, next, q)
    requires next.flights == s.flights && next.cache.flights == s.cache.flights
    requires s.Now().generation == s.cache.generation && s.Now().changing == s.cache.changing
             && s.Now().closed == s.cache.closed
    requires var Await(f, g) := Decide(s.cache, s.queries[q].key, s.Now().now);
             && g == s.cache.generation && s.cache.changing == 0 && !s.cache.closed
             && LedBy(s, f, s.queries[q].key, g) && Merged(s, f) && Registered(s, f)
    ensures var Await(f, g) := Decide(s.cache, s.queries[q].key, s.Now().now);
            JoinOk(next, q, f, g, |s.history| - 1)
  {
    var Await(f, g) := Decide(s.cache, s.queries[q].key, s.Now().now);
    hide Decide, Bounded;
    assert next.history[s.flights[f].since] == s.history[s.flights[f].since];
  }

  lemma EntersWaiting(s: State, q: nat)
    requires s.history != [] && Joins(s, q)
    ensures var d := Decide(s.cache, s.queries[q].key, s.Now().now);
            Entered(s, s.queries[q]).phase == Waiting(d.flight, d.generation, |s.history| - 1)
  {
  }

  lemma JoinsRegistered(s: State, q: nat)
    requires HistoryOk(s) && FlightsOk(s) && Joins(s, q)
    ensures s.Now().generation == s.cache.generation && s.Now().changing == s.cache.changing
    ensures s.Now().closed == s.cache.closed
    ensures var Await(f, g) := Decide(s.cache, s.queries[q].key, s.Now().now);
            && g == s.cache.generation && s.cache.changing == 0 && !s.cache.closed
            && LedBy(s, f, s.queries[q].key, g) && Merged(s, f) && Registered(s, f) && f !in s.cache.finished
  {
    var Await(f, g) := Decide(s.cache, s.queries[q].key, s.Now().now);
    var fk := FlightKey(s.queries[q].key, g);
    assert fk in s.cache.flights && s.cache.flights[fk] == f;
    hide Decide, Chain;
    assert LedBy(s, s.cache.flights[fk], fk.key, fk.generation);
    assert s.cache.flights[fk] !in s.cache.finished;
  }

  lemma JoinTurns(s: State, next: State, q: nat)
    requires s.history != [] && Joins(s, q) && QueryOk(s, q) && EnterShape(s, next, q)
    requires s.Now().generation == s.cache.generation
    requires var d := Decide(s.cache, s.queries[q].key, s.Now().now);
             d.flight !in s.cache.finished && d.generation == s.cache.generation
    ensures TurnsOk(next, q)
  {
    var query := s.queries[q];
    var f := Decide(s.cache, query.key, s.Now().now).flight;
    assert f !in query.joined;
    assert |query.joined + {f}| == |query.joined| + 1;
    assert next.history[query.start] == s.history[query.start];
  }

  lemma OthersKept(s: State, next: State, q: nat, landing: set<nat>)
    requires Extends(s, next, landing) && OnlyMoves(s, next, q)
    requires forall p :: p in s.queries ==> QueryOk(s, p)
    requires forall p :: p in s.queries && p != q ==> !CallsFor(s.queries[p], landing)
    requires QueryOk(next, q)
    ensures forall p :: p in next.queries ==> QueryOk(next, p)
  {
    forall p | p in next.queries
      ensures QueryOk(next, p)
    {
      if p != q {
        QueryKept(s, next, landing, p);
      }
    }
  }

  predicate CallsFor(query: Query, landing: set<nat>) {
    (query.phase.Calling? || query.phase.Answered?) && query.phase.lead.flight in landing
  }

  ghost predicate Departs(s: State, q: nat)
    requires s.history != []
  {
    q in s.queries && s.queries[q].phase.Checked? && Decide(s.cache, s.queries[q].key, s.Now().now).Lead?
  }

  /** A new flight takes the next number; a merged one is registered under a free key. */
  ghost predicate DepartShape(s: State, next: State, q: nat)
    requires s.history != []
  {
    var f, merge, here := s.cache.nextFlight, s.cache.changing == 0, |s.history| - 1;
    && q in s.queries && q in next.queries
    && var fk := FlightKey(s.queries[q].key, s.cache.generation);
    && next.cache.nextFlight == f + 1
    && next.flights == s.flights[f := Flight(fk.key, fk.generation, here, q)]
    && (merge ==> fk !in s.cache.flights)
    && next.cache.flights == (if merge then s.cache.flights[fk := f] else s.cache.flights)
    && next.queries[q] == s.queries[q].(phase := Calling(Lead(f, s.cache.generation, merge), here))
  }

  lemma DepartShapes(s: State, q: nat)
    requires s.history != [] && Departs(s, q)
    ensures DepartShape(s, AfterEnter(s, q), q)
  {
  }

  lemma LeadKeepsInv(s: State, q: nat)
    requires Inv(s) && Enabled(s, Enter(q)) && s.history != [] && Departs(s, q)
    ensures Inv(After(s, Enter(q)))
  {
    var next := AfterEnter(s, q);
    InvParts(s);
    EnterShapes(s, q);
    DepartShapes(s, q);
    InstantHistory(s, next);
    EnterTable(s, next, q);
    NumberIsNew(s);
    StillLeads(s, next, q);
    LeadExtends(s, next, q);
    LeaderOk(s, next, q);
    LeadFlights(s, next, q);
    hide HistoryOk, TableOk, FlightsOk, QueryOk, Extends, EnterShape, DepartShape, AfterEnter, Departs, After,
         Enabled, SameInstant;
    OthersKept(s, next, q, {});
  }

  lemma NumberIsNew(s: State)
    requires FlightsOk(s)
    ensures s.cache.nextFlight !in s.flights && s.cache.nextFlight !in s.cache.finished
  {
    assert forall f :: f in s.flights ==> FlightOk(s, f);
  }

  lemma LeadExtends(s: State, next: State, q: nat)
    requires s.history != [] && s.Now().generation == s.cache.generation
    requires q in s.queries && EnterShape(s, next, q) && DepartShape(s, next, q) && s.cache.nextFlight !in s.flights
    ensures Extends(s, next, {})
  {
    forall f | f in s.flights && Registered(s, f)
      ensures Registered(next, f)
    {
      assert next.flights[f] == s.flights[f];
    }
  }

  lemma LeadFlights(s: State, next: State, q: nat)
    requires HistoryOk(s) && FlightsOk(s) && s.cache.nextFlight !in s.flights
    requires q in s.queries && EnterShape(s, next, q) && DepartShape(s, next, q)
    requires forall p, f :: Leads(s, p, f) ==> Leads(next, p, f)
    ensures FlightsOk(next)
  {
    forall f | f in next.flights
      ensures FlightOk(next, f)
    {
      if f in s.flights {
        EarlierFlightOk(s, next, q, f);
      } else {
        NewFlightOk(s, next, q);
      }
    }
    forall fk | fk in next.cache.flights
      ensures LedBy(next, next.cache.flights[fk], fk.key, fk.generation)
      ensures Merged(next, next.cache.flights[fk])
      ensures next.cache.flights[fk] !in next.cache.finished
    {
      RegisteredOk(s, next, q, fk);
    }
  }

  lemma EarlierFlightOk(s: State, next: State, q: nat, f: nat)
    requires s.history != [] && f in s.flights && FlightOk(s, f) && f != s.cache.nextFlight
    requires q in s.queries && EnterShape(s, next, q) && DepartShape(s, next, q)
    requires forall p, f :: Leads(s, p, f) ==> Leads(next, p, f)
    ensures FlightOk(next, f)
  {
    assert forall i :: 0 <= i < |s.history| ==> next.history[i] == s.history[i];
  }

  lemma NewFlightOk(s: State, next: State, q: nat)
    requires HistoryOk(s) && s.cache.nextFlight !in s.cache.finished
    requires q in s.queries && EnterShape(s, next, q) && DepartShape(s, next, q)
    ensures FlightOk(next, s.cache.nextFlight)
  {
    assert next.history[|s.history| - 1] == s.Now();
  }

  lemma RegisteredOk(s: State, next: State, q: nat, fk: FlightKey)
    requires HistoryOk(s) && FlightsOk(s) && s.cache.nextFlight !in s.flights
    requires q in s.queries && EnterShape(s, next, q) && DepartShape(s, next, q)
    requires fk in next.cache.flights
    ensures LedBy(next, next.cache.flights[fk], fk.key, fk.generation)
    ensures Merged(next, next.cache.flights[fk])
    ensures next.cache.flights[fk] !in next.cache.finished
  {
    assert next.history[|s.history| - 1] == s.Now();
    if fk in s.cache.flights {
      var f := s.cache.flights[fk];
      assert LedBy(s, f, fk.key, fk.generation) && Merged(s, f) && f !in s.cache.finished;
      assert next.history[s.flights[f].since] == s.history[s.flights[f].since];
    }
  }

  lemma LeaderOk(s: State, next: State, q: nat)
    requires HistoryOk(s) && q in s.queries && s.queries[q].phase.Checked? && QueryOk(s, q)
    requires EnterShape(s, next, q) && DepartShape(s, next, q)
    requires s.cache.nextFlight !in s.cache.finished
    ensures QueryOk(next, q)
  {
    assert forall i :: 0 <= i < |s.history| ==> next.history[i] == s.history[i];
    assert TurnsOk(next, q);
  }

  // -------------------------------------------------------------- publishing

  /** An answer whose generation is still current, with no mutation under way, is still
      what the backend holds: no mutation overlapped the call. */
  lemma AnswerStillTrue(s: State, q: nat)
    requires HistoryOk(s) && q in s.queries && s.queries[q].phase.Answered? && QueryOk(s, q)
    requires s.cache.generation == s.queries[q].phase.lead.generation && s.cache.changing == 0
    ensures Reports(s.queries[q].phase.response, s.Now().truth(s.queries[q].key))
    ensures forall i :: s.queries[q].phase.since <= i < |s.history| ==> s.history[i].changing == 0
  {
    var Answered(lead, since, response, at) := s.queries[q].phase;
    var here := |s.history| - 1;
    assert Follows(s.history[since], s.history[here]) && Follows(s.history[at], s.history[here]);
    forall i | since <= i < |s.history|
      ensures s.history[i].changing == 0
    {
      assert Follows(s.history[since], s.history[i]) && Follows(s.history[i], s.history[here]);
    }
    assert Follows(s.history[since], s.history[at]);
  }

  lemma PutStamps(values: Table, filed: Filings, k: Key, outcome: Outcome, expires: int, stamp: Filing, j: Key)
    ensures var next, after := AfterPut(values, k, outcome, expires), FiledByPut(filed, k, outcome, stamp);
            && (j in next && !(j == k && Charge(k, outcome) <= METADATA_MAX_BYTES) ==>
                  j in values && next[j] == values[j])
            && (j == k && Charge(k, outcome) <= METADATA_MAX_BYTES ==>
                  && j in next && next[j].outcome == outcome && next[j].expires == expires
                  && j in after && after[j] == stamp)
            && (!(j == k && Charge(k, outcome) <= METADATA_MAX_BYTES) && j in filed ==>
                  j in after && after[j] == filed[j])
  {
    hide Charge, Total;
  }

  lemma PutKeys(values: Table, filed: Filings, k: Key, outcome: Outcome, expires: int, stamp: Filing)
    requires values.Keys <= filed.Keys
    ensures AfterPut(values, k, outcome, expires).Keys <= FiledByPut(filed, k, outcome, stamp).Keys
  {
    hide Charge, Total;
  }

  /** What seeding leaves under a key was there before with its filing, or is a listed
      entry with the new stamp. */
  lemma {:induction false} SeedingStamps(values: Table, filed: Filings, directory: string, entries: seq<Entry>,
                                         expires: int, stamp: Filing, k: Key)
    requires values.Keys <= filed.Keys && k in AfterSeeding(values, directory, entries, expires)
    ensures var v := AfterSeeding(values, directory, entries, expires)[k];
            var after := FiledBySeeding(filed, directory, entries, stamp);
            && k in after
            && (|| (k in values && v == values[k] && after[k] == filed[k])
                || (v.expires == expires && FromListing(directory, entries, k, v.outcome) && after[k] == stamp))
    decreases |entries|
  {
    hide AfterPut, FiledByPut, Seedable;
    if entries != [] {
      var front, last := entries[..|entries| - 1], entries[|entries| - 1];
      var before := AfterSeeding(values, directory, front, expires);
      var marked := FiledBySeeding(filed, directory, front, stamp);
      var v := AfterSeeding(values, directory, entries, expires)[k];
      var child := ChildKey(directory, last.name);
      PutStamps(before, marked, child, Found(last), expires, stamp, k);
      if Seedable(last.name) && k == child && Charge(k, Found(last)) <= METADATA_MAX_BYTES {
        assert last in entries && v.outcome == Found(last);
      } else {
        assert k in before && v == before[k];
        SeedingStamps(values, filed, directory, front, expires, stamp, k);
        if FromListing(directory, front, k, v.outcome) {
          var e :| e in front && Seedable(e.name) && k == ChildKey(directory, e.name) && v.outcome == Found(e);
          assert e in entries;
        }
      }
    }
  }

  lemma StoringStamps(values: Table, filed: Filings, k: Key, response: Outcome, now: int, stamp: Filing, j: Key)
    requires values.Keys <= filed.Keys && j in AfterStoring(values, k, response, now)
    ensures var v, after := AfterStoring(values, k, response, now)[j], FiledByStoring(filed, k, response, stamp);
            && j in after
            && (|| (j in values && v == values[j] && after[j] == filed[j])
                || (&& v.expires == now + Lifetime(v.outcome) && after[j] == stamp
                    && (|| (j == k && v.outcome == Normalized(response))
                        || (k.directory && response.Listed? && FromListing(k.name, response.entries, j, v.outcome)))))
  {
    hide AfterPut, FiledByPut, AfterSeeding, FiledBySeeding;
    var expires := now + Lifetime(response);
    var stored := AfterPut(values, k, Normalized(response), expires);
    var marked := FiledByPut(filed, k, Normalized(response), stamp);
    PutStamps(values, filed, k, Normalized(response), expires, stamp, j);
    PutKeys(values, filed, k, Normalized(response), expires, stamp);
    if k.directory && response.Listed? {
      SeedingStamps(stored, marked, k.name, response.entries, expires, stamp, j);
    }
  }

  lemma StoredOk(s: State, next: State, k: Key, response: Outcome, stamp: Filing, j: Key)
    requires s.history != [] && s.history <= next.history && next.Now().truth == s.Now().truth
    requires WellFormed(s.Now().truth)
    requires forall i :: i in s.cache.values ==> ValueOk(s, i, s.cache.values[i])
    requires IsClean(k.name) && Storable(response) && Reports(response, s.Now().truth(k))
    requires stamp == Filing(k, stamp.answered, |s.history| - 1) && stamp.answered < |s.history|
    requires WellFormed(s.history[stamp.answered].truth) && Reports(response, s.history[stamp.answered].truth(k))
    requires next.filed == FiledByStoring(s.filed, k, response, stamp)
    requires j in AfterStoring(s.cache.values, k, response, s.Now().now)
    ensures ValueOk(next, j, AfterStoring(s.cache.values, k, response, s.Now().now)[j])
  {
    var v := AfterStoring(s.cache.values, k, response, s.Now().now)[j];
    StoringStamps(s.cache.values, s.filed, k, response, s.Now().now, stamp, j);
    hide AfterStoring, FiledByStoring;
    if j in s.cache.values && v == s.cache.values[j] && next.filed[j] == s.filed[j] {
      ValuePersists(s, next, j, v);
    } else {
      NewValueOk(s, next, k, response, stamp, j, v);
    }
  }

  lemma NewValueOk(s: State, next: State, k: Key, response: Outcome, stamp: Filing, j: Key, v: Value)
    requires s.history != [] && s.history <= next.history && next.Now().truth == s.Now().truth
    requires WellFormed(s.Now().truth)
    requires IsClean(k.name) && Storable(response) && Reports(response, s.Now().truth(k))
    requires stamp == Filing(k, stamp.answered, |s.history| - 1) && stamp.answered < |s.history|
    requires WellFormed(s.history[stamp.answered].truth) && Reports(response, s.history[stamp.answered].truth(k))
    requires j in next.filed && next.filed[j] == stamp && v.expires == s.Now().now + Lifetime(v.outcome)
    requires || (j == k && v.outcome == Normalized(response))
             || (response.Listed? && FromListing(k.name, response.entries, j, v.outcome))
    ensures ValueOk(next, j, v)
  {
    assert next.history[stamp.at] == s.Now() && next.history[stamp.answered] == s.history[stamp.answered];
    if !(j == k && v.outcome == Normalized(response)) {
      EntryOk(s, stamp, response, j, v.outcome);
    }
  }

  /** A listed entry is what Stat of the child answers, then and now. */
  lemma EntryOk(s: State, stamp: Filing, response: Outcome, j: Key, outcome: Outcome)
    requires s.history != [] && stamp.answered < |s.history|
    requires WellFormed(s.Now().truth) && WellFormed(s.history[stamp.answered].truth)
    requires IsClean(stamp.source.name) && response.Listed?
    requires response == s.Now().truth(stamp.source) == s.history[stamp.answered].truth(stamp.source)
    requires FromListing(stamp.source.name, response.entries, j, outcome)
    ensures IsClean(j.name) && outcome.Found? && IsChild(stamp.source, j)
    ensures outcome == s.Now().truth(j) == s.history[stamp.answered].truth(j)
  {
    var d := stamp.source;
    var e :| e in response.entries && Seedable(e.name) && j == ChildKey(d.name, e.name) && outcome == Found(e);
    assert ListsChild(s.Now().truth(d), e) && ListsChild(s.history[stamp.answered].truth(d), e);
    ChildKeyClean(d.name, e.name);
  }

  lemma ChildKeyClean(directory: string, name: string)
    ensures IsClean(ChildKey(directory, name).name)
  {
    CleanIdempotent(directory);
    CleanIdempotent(directory + "/" + name);
  }

  ghost predicate Publishes(s: State, q: nat) {
    q in s.queries && s.queries[q].phase.Answered?
  }

  ghost predicate PublishShape(s: State, next: State, q: nat)
    requires s.history != [] && Publishes(s, q)
  {
    var Answered(lead, since, response, at) := s.queries[q].phase;
    var fk := FlightKey(s.queries[q].key, lead.generation);
    && SameInstant(s, next) && OnlyMoves(s, next, q)
    && next.flights == s.flights && next.cache.nextFlight == s.cache.nextFlight
    && next.landed == s.landed[lead.flight := at]
    && next.cache.finished == s.cache.finished[lead.flight := response]
    && next.cache.flights == (if lead.merge then s.cache.flights - {fk} else s.cache.flights)
    && next.queries[q] == s.queries[q].(phase := Finished(response, at))
    && next.filed == FiledAfter(s, q)
    && next.cache.values == if Stores(s.cache, lead.generation, s.queries[q].context.Some?, response)
                            then AfterStoring(s.cache.values, s.queries[q].key, response, s.Now().now)
                            else s.cache.values
  }

  lemma PublishShapes(s: State, q: nat)
    requires s.history != [] && Publishes(s, q)
    ensures PublishShape(s, AfterPublishing(s, q), q)
  {
    hide AfterStoring, Stores, FiledAfter;
  }

  lemma PublishKeepsInv(s: State, q: nat)
    requires Inv(s) && Enabled(s, Publish(q))
    ensures Inv(After(s, Publish(q)))
  {
    var next, f := AfterPublishing(s, q), s.queries[q].phase.lead.flight;
    assert next == After(s, Publish(q)) && Publishes(s, q);
    InvParts(s);
    PublishShapes(s, q);
    assert SameInstant(s, next) && OnlyMoves(s, next, q);
    InstantHistory(s, next);
    PublishTable(s, next, q);
    PublishExtends(s, next, q);
    PublishFlights(s, next, q);
    PublisherOk(s, next, q);
    OneFlightEach(s, q);
    hide HistoryOk, TableOk, FlightsOk, QueryOk, Extends, PublishShape, AfterPublishing, Publishes, After, Enabled,
         SameInstant, CallsFor;
    OthersKept(s, next, q, {f});
  }

  lemma OneFlightEach(s: State, q: nat)
    requires s.history != [] && Publishes(s, q)
    requires forall p :: p in s.queries ==> QueryOk(s, p)
    ensures forall p :: p in s.queries && p != q ==> !CallsFor(s.queries[p], {s.queries[q].phase.lead.flight})
  {
    assert QueryOk(s, q);
    forall p | p in s.queries && p != q
      ensures !CallsFor(s.queries[p], {s.queries[q].phase.lead.flight})
    {
      assert QueryOk(s, p);
    }
  }

  lemma PublishTable(s: State, next: State, q: nat)
    requires s.history != [] && HistoryOk(s) && TableOk(s)
    requires Publishes(s, q) && QueryOk(s, q) && PublishShape(s, next, q)
    ensures TableOk(next)
  {
    hide HistoryOk, TableOk, QueryOk, ValueOk, Bounded, Survives, Stores, AfterStoring, FiledByStoring;
    if Stores(s.cache, s.queries[q].phase.lead.generation, s.queries[q].context.Some?, s.queries[q].phase.response) {
      StoringTable(s, next, q);
    } else {
      TableParts(s);
      TableKept(s, next);
    }
  }

  lemma StoringTable(s: State, next: State, q: nat)
    requires HistoryOk(s) && TableOk(s) && Publishes(s, q) && QueryOk(s, q) && PublishShape(s, next, q)
    requires Stores(s.cache, s.queries[q].phase.lead.generation, s.queries[q].context.Some?,
                    s.queries[q].phase.response)
    ensures TableOk(next)
  {
    hide TableOk, ValueOk, AfterStoring, FiledByStoring, FlightsOk;
    var query := s.queries[q];
    AnswerStillTrue(s, q);
    assert WellFormed(s.history[query.phase.at].truth) && WellFormed(s.Now().truth);
    assert s.history <= next.history && next.Now().truth == s.Now().truth;
    FiledTable(s, next, query.key, query.phase.response, Filing(query.key, query.phase.at, |s.history| - 1));
  }

  /** The table after an answer was filed while no mutation was under way. */
  lemma FiledTable(s: State, next: State, k: Key, response: Outcome, stamp: Filing)
    requires s.history != [] && s.history <= next.history && next.Now().truth == s.Now().truth
    requires TableOk(s) && s.cache.changing == 0 && WellFormed(s.Now().truth)
    requires next.cache.changing == 0 && next.mutations == s.mutations
    requires IsClean(k.name) && Storable(response) && Reports(response, s.Now().truth(k))
    requires stamp == Filing(k, stamp.answered, |s.history| - 1) && stamp.answered < |s.history|
    requires WellFormed(s.history[stamp.answered].truth) && Reports(response, s.history[stamp.answered].truth(k))
    requires next.filed == FiledByStoring(s.filed, k, response, stamp)
    requires next.cache.values == AfterStoring(s.cache.values, k, response, s.Now().now)
    ensures TableOk(next)
  {
    StoringBounded(s.cache.values, k, response, s.Now().now);
    assert s.mutations == map[] && |next.mutations| == 0;
    forall j | j in next.cache.values
      ensures ValueOk(next, j, next.cache.values[j])
    {
      hide AfterStoring, FiledByStoring, Bounded, WellFormed, Reports, Storable, ValueOk;
      StoredOk(s, next, k, response, stamp, j);
    }
    hide AfterStoring, FiledByStoring, Bounded, WellFormed, Reports, Storable, ValueOk;
  }

  lemma PublishExtends(s: State, next: State, q: nat)
    requires HistoryOk(s) && FlightsOk(s) && Publishes(s, q) && QueryOk(s, q) && PublishShape(s, next, q)
    ensures Extends(s, next, {s.queries[q].phase.lead.flight})
  {
    var f := s.queries[q].phase.lead.flight;
    forall g | g in s.flights && Registered(s, g) && g != f
      ensures Registered(next, g)
    {
      OthersStayRegistered(s, next, q, g);
    }
    LandingExtends(s, next, q);
  }

  lemma LandingExtends(s: State, next: State, q: nat)
    requires s.history != [] && Publishes(s, q) && PublishShape(s, next, q)
    requires s.Now().generation == s.cache.generation && s.queries[q].phase.lead.flight !in s.cache.finished
    requires forall g :: g in s.flights && Registered(s, g) && g != s.queries[q].phase.lead.flight ==>
               Registered(next, g)
    ensures Extends(s, next, {s.queries[q].phase.lead.flight})
  {
  }

  lemma OthersStayRegistered(s: State, next: State, q: nat, g: nat)
    requires s.history != [] && Publishes(s, q) && QueryOk(s, q) && PublishShape(s, next, q)
    requires g in s.flights && Registered(s, g) && g != s.queries[q].phase.lead.flight
    ensures Registered(next, g)
  {
    var f := s.queries[q].phase.lead.flight;
    var fk := FlightKey(s.queries[q].key, s.queries[q].phase.lead.generation);
    assert s.flights[f].key == fk.key && s.flights[f].generation == fk.generation;
  }

  lemma PublishFlights(s: State, next: State, q: nat)
    requires HistoryOk(s) && FlightsOk(s) && Publishes(s, q) && QueryOk(s, q) && PublishShape(s, next, q)
    ensures FlightsOk(next)
  {
    forall g | g in next.flights
      ensures FlightOk(next, g)
    {
      LandsOk(s, next, q, g);
    }
    forall fk | fk in next.cache.flights
      ensures LedBy(next, next.cache.flights[fk], fk.key, fk.generation)
      ensures Merged(next, next.cache.flights[fk])
      ensures next.cache.flights[fk] !in next.cache.finished
    {
      StaysUp(s, next, q, fk);
    }
  }

  lemma LandsOk(s: State, next: State, q: nat, g: nat)
    requires s.history != [] && Publishes(s, q) && QueryOk(s, q) && PublishShape(s, next, q)
    requires g in s.flights && FlightOk(s, g)
    ensures FlightOk(next, g)
  {
    assert forall i :: 0 <= i < |s.history| ==> next.history[i] == s.history[i];
  }

  /** A flight that stays registered is not the one that lands. */
  lemma StaysUp(s: State, next: State, q: nat, fk: FlightKey)
    requires s.history != [] && FlightsOk(s) && Publishes(s, q) && QueryOk(s, q) && PublishShape(s, next, q)
    requires fk in next.cache.flights
    ensures LedBy(next, next.cache.flights[fk], fk.key, fk.generation)
    ensures Merged(next, next.cache.flights[fk])
    ensures next.cache.flights[fk] !in next.cache.finished
  {
    var f, g := s.queries[q].phase.lead.flight, s.cache.flights[fk];
    assert fk in s.cache.flights && next.cache.flights[fk] == g;
    assert LedBy(s, g, fk.key, fk.generation) && Merged(s, g) && g !in s.cache.finished;
    assert next.history[s.flights[g].since] == s.history[s.flights[g].since];
  }

  lemma PublisherOk(s: State, next: State, q: nat)
    requires HistoryOk(s) && Publishes(s, q) && QueryOk(s, q) && PublishShape(s, next, q)
    ensures QueryOk(next, q)
  {
    assert forall i :: 0 <= i < |s.history| ==> next.history[i] == s.history[i];
    assert TurnsOk(next, q);
  }

  // --------------------------------------------------------------------- runs

  ghost predicate Legal(s: State, es: seq<Event>)
    decreases |es|
  {
    && s.history != []
    && (es != [] ==> Enabled(s, es[0]) && Legal(After(s, es[0]), es[1..]))
  }

  ghost function AfterAll(s: State, es: seq<Event>): State
    requires Legal(s, es)
    decreases |es|
  {
    if es == [] then s else AfterAll(After(s, es[0]), es[1..])
  }

  ghost predicate Reachable(s: State) {
    exists s0, es :: Initial(s0) && Legal(s0, es) && s == AfterAll(s0, es)
  }

  lemma StepKeepsInv(s: State, e: Event)
    requires Inv(s) && Enabled(s, e)
    ensures Inv(After(s, e))
  {
    match e
    case Start(q, name, directory) => StartKeepsInv(s, q, name, directory);
    case Cancel(q, kind) => CancelKeepsInv(s, q, kind);
    case Look(q) => LookKeepsInv(s, q);
    case Enter(q) => EnterKeepsInv(s, q);
    case GiveUp(q) => GiveUpKeepsInv(s, q);
    case Land(q) => LandKeepsInv(s, q);
    case Recheck(q) => RecheckKeepsInv(s, q);
    case Answer(q, response) => AnswerKeepsInv(s, q, response);
    case Publish(q) => PublishKeepsInv(s, q);
    case BeginMutation(m, names) => BeginKeepsInv(s, m, names);
    case Effect(m, truth) => EffectKeepsInv(s, m, truth);
    case EndMutation(m) => EndKeepsInv(s, m);
    case Tick(elapsed) => TickKeepsInv(s, elapsed);
    case Shut => ShutKeepsInv(s);
  }

  lemma InitialInv(s: State)
    requires Initial(s)
    ensures Inv(s)
  {
    InitialTable(s);
    InitialFlights(s);
    hide WellFormed, TableOk, FlightsOk, Follows;
    assert Follows(s.Now(), s.Now()) by {
      AlwaysFollows(s.Now());
    }
  }

  lemma AlwaysFollows(m: Moment)
    ensures Follows(m, m)
  {
  }

  lemma InitialTable(s: State)
    requires Initial(s)
    ensures TableOk(s)
  {
    NothingCached();
    hide WellFormed, Bounded, ValueOk;
  }

  lemma InitialFlights(s: State)
    requires Initial(s)
    ensures FlightsOk(s)
  {
    hide WellFormed, FlightOk;
  }

  lemma NothingCached()
    ensures Bounded(map[])
  {
  }

  lemma {:induction false} RunKeepsInv(s: State, es: seq<Event>)
    requires Inv(s) && Legal(s, es)
    ensures Inv(AfterAll(s, es))
    decreases |es|
  {
    hide Inv, After, Enabled;
    if es != [] {
      StepKeepsInv(s, es[0]);
      RunKeepsInv(After(s, es[0]), es[1..]);
    }
  }

  lemma ReachableInv(s: State)
    requires Reachable(s)
    ensures Inv(s)
  {
    hide Inv, After, Enabled, Initial;
    var s0, es :| Initial(s0) && Legal(s0, es) && s == AfterAll(s0, es);
    InitialInv(s0);
    RunKeepsInv(s0, es);
  }

  // ----------------------------------------------------------- main theorems

  /** Coherence: in every reachable state, every cached Stat, listing and absence is what
      the backend would answer now, and the table is within its bounds. */
  lemma CacheCoherent(s: State, k: Key)
    requires Reachable(s)
    ensures s.history != [] && Bounded(s.cache.values)
    ensures |s.cache.values| <= 4096 && Total(s.cache.values) <= 16 * 1024 * 1024
    ensures k in s.cache.values ==> Reports(s.cache.values[k].outcome, s.Now().truth(k))
    ensures k in s.cache.values && s.cache.values[k].outcome.Failed? ==> s.Now().truth(k) == ABSENT
  {
    ReachableInv(s);
    if k in s.cache.values {
      assert ValueOk(s, k, s.cache.values[k]);
    }
  }

  /** No answer whose call overlapped a mutation is ever stored. */
  lemma OverlappedAnswerNotStored(s: State, q: nat, i: nat)
    requires Reachable(s) && s.history != [] && Enabled(s, Publish(q))
    requires s.queries[q].phase.since <= i < |s.history| && s.history[i].changing != 0
    ensures After(s, Publish(q)).cache.values == s.cache.values
  {
    ReachableInv(s);
    assert QueryOk(s, q);
    if s.cache.generation == s.queries[q].phase.lead.generation && s.cache.changing == 0 {
      AnswerStillTrue(s, q);
    }
  }

  /** Linearizability: a query's result, whether a hit, a joined flight or its own call, is
      what the backend answered at an instant between the query's start and its end. */
  lemma QueriesLinearizable(s: State, e: Event, q: nat)
    requires Reachable(s) && s.history != [] && Enabled(s, e)
    requires q in s.queries && !s.queries[q].phase.Finished?
    requires q in After(s, e).queries && After(s, e).queries[q].phase.Finished?
    ensures var query := After(s, e).queries[q];
            && query.key == s.queries[q].key
            && s.queries[q].start <= query.phase.at < |s.history|
            && Reports(query.phase.result, s.history[query.phase.at].truth(query.key))
  {
    ReachableInv(s);
    InvParts(s);
    FinishesInThePast(s, e, q);
    StepKeepsInv(s, e);
    InvParts(After(s, e));
    hide Inv, After, Enabled, Reachable, QueryOk;
    FinishedTrue(s, After(s, e), q);
  }

  lemma FinishedTrue(s: State, next: State, q: nat)
    requires s.history <= next.history && next.history != []
    requires q in s.queries && q in next.queries && next.queries[q].phase.Finished? && QueryOk(next, q)
    requires next.queries[q].phase.at < |s.history| && next.queries[q].start == s.queries[q].start
    ensures var query := next.queries[q];
            && s.queries[q].start <= query.phase.at < |s.history|
            && Reports(query.phase.result, s.history[query.phase.at].truth(query.key))
  {
    assert next.history[next.queries[q].phase.at] == s.history[next.queries[q].phase.at];
  }

  lemma FinishesInThePast(s: State, e: Event, q: nat)
    requires s.history != [] && Enabled(s, e)
    requires q in s.queries && !s.queries[q].phase.Finished? && QueryOk(s, q)
    requires q in After(s, e).queries && After(s, e).queries[q].phase.Finished?
    ensures After(s, e).queries[q].phase.at < |s.history| && s.history <= After(s, e).history
    ensures After(s, e).queries[q].key == s.queries[q].key
    ensures After(s, e).queries[q].start == s.queries[q].start
  {
    match e {
      case Enter(p) => EnterFinishes(s, p, q);
      case Publish(p) => PublishFinishes(s, p, q);
      case _ => OthersFinish(s, e, q);
    }
  }

  lemma EnterFinishes(s: State, p: nat, q: nat)
    requires s.history != [] && Enabled(s, Enter(p)) && q in s.queries && !s.queries[q].phase.Finished?
    ensures var next := After(s, Enter(p));
            && q in next.queries && s.history <= next.history
            && next.queries[q].key == s.queries[q].key && next.queries[q].start == s.queries[q].start
            && (next.queries[q].phase.Finished? ==> next.queries[q].phase.at < |s.history|)
  {
    EnterShapes(s, p);
    hide After, AfterEnter, Enabled, Decide, Bounded;
  }

  lemma PublishFinishes(s: State, p: nat, q: nat)
    requires s.history != [] && Enabled(s, Publish(p)) && q in s.queries && !s.queries[q].phase.Finished?
             && QueryOk(s, q)
    ensures var next := After(s, Publish(p));
            && q in next.queries && s.history <= next.history
            && next.queries[q].key == s.queries[q].key && next.queries[q].start == s.queries[q].start
            && (next.queries[q].phase.Finished? ==> next.queries[q].phase.at < |s.history|)
  {
    PublishShapes(s, p);
    assert After(s, Publish(p)) == AfterPublishing(s, p);
    assert Publishes(s, p) && (s.queries[q].phase.Answered? ==> s.queries[q].phase.at < |s.history|);
    hide After, AfterPublishing, Enabled, QueryOk, AfterStoring, Stores, FiledAfter;
  }

  lemma OthersFinish(s: State, e: Event, q: nat)
    requires s.history != [] && Enabled(s, e) && !e.Enter? && !e.Publish?
    requires q in s.queries && !s.queries[q].phase.Finished?
    ensures var next := After(s, e);
            && q in next.queries && s.history <= next.history
            && next.queries[q].key == s.queries[q].key && next.queries[q].start == s.queries[q].start
            && (next.queries[q].phase.Finished? ==> next.queries[q].phase.at < |s.history|)
  {
    hide Reports, WasCancelled;
  }

  /** No stale reads: whatever happens to the key later, a query that started at or after
      the moment `mutated` returns the backend's answer of a moment at or after it. In
      particular, if the answer has been the same since, the query returns it. */
  lemma NoStaleReads(s: State, e: Event, q: nat, mutated: nat)
    requires Reachable(s) && s.history != [] && Enabled(s, e)
    requires q in s.queries && !s.queries[q].phase.Finished?
    requires q in After(s, e).queries && After(s, e).queries[q].phase.Finished?
    requires mutated <= s.queries[q].start
    ensures exists i :: mutated <= i < |s.history|
                        && Reports(After(s, e).queries[q].phase.result, s.history[i].truth(s.queries[q].key))
    ensures (forall i :: mutated <= i < |s.history| ==>
             s.history[i].truth(s.queries[q].key) == s.Now().truth(s.queries[q].key))
            ==> Reports(After(s, e).queries[q].phase.result, s.Now().truth(s.queries[q].key))
  {
    QueriesLinearizable(s, e, q);
    hide After, Enabled, Reachable;
  }

  /** A leader's cancellation does not cancel a live waiter: a query whose own context is
      live ends with a cancellation only if its own backend call returned one. */
  lemma LiveWaiterNotCancelled(s: State, e: Event, q: nat)
    requires Reachable(s) && s.history != [] && Enabled(s, e)
    requires q in s.queries && !s.queries[q].phase.Finished? && s.queries[q].context.None?
    requires q in After(s, e).queries && After(s, e).queries[q].phase.Finished? && e != Publish(q)
    ensures var result := After(s, e).queries[q].phase.result;
            result.Failed? ==> !Is(result.error, Cancelled) && !Is(result.error, DeadlineExceeded)
  {
    ReachableInv(s);
    InvParts(s);
    hide Inv, HistoryOk, FlightsOk, Reachable, Bounded;
    match e
    case Enter(p) => EntersUncancelled(s, p, q);
    case Publish(p) => PublishesOwn(s, p, q);
    case Recheck(p) => RechecksUncancelled(s, p, q);
    case _ => NoOtherEnd(s, e, q);
  }

  lemma EntersUncancelled(s: State, p: nat, q: nat)
    requires s.history != [] && TableOk(s) && Enabled(s, Enter(p)) && q in s.queries && !s.queries[q].phase.Finished?
    ensures var next := After(s, Enter(p));
            q in next.queries && next.queries[q].phase.Finished? ==> !WasCancelled(next.queries[q].phase.result)
  {
    var d := Decide(s.cache, s.queries[p].key, s.Now().now);
    if d.Hit? {
      assert ValueOk(s, s.queries[p].key, s.cache.values[s.queries[p].key]);
      StorableIsNotCancelled(d.outcome);
    }
    EnterShapes(s, p);
    assert After(s, Enter(p)) == AfterEnter(s, p);
    hide After, AfterEnter, Enabled, TableOk, ValueOk, Decide;
  }

  lemma StorableIsNotCancelled(outcome: Outcome)
    requires Storable(outcome)
    ensures !WasCancelled(outcome)
  {
    if outcome.Failed? {
      MissingIsNotCancelled(outcome.error);
    }
  }

  lemma PublishesOwn(s: State, p: nat, q: nat)
    requires s.history != [] && Enabled(s, Publish(p)) && q in s.queries && !s.queries[q].phase.Finished? && p != q
    ensures q in After(s, Publish(p)).queries && !After(s, Publish(p)).queries[q].phase.Finished?
  {
    PublishShapes(s, p);
    assert After(s, Publish(p)) == AfterPublishing(s, p);
    hide After, AfterPublishing, Enabled, AfterStoring, Stores, FiledAfter;
  }

  lemma RechecksUncancelled(s: State, p: nat, q: nat)
    requires s.history != [] && Enabled(s, Recheck(p)) && q in s.queries && !s.queries[q].phase.Finished?
    requires QueryOk(s, q)
    ensures var next := After(s, Recheck(p));
            q in next.queries && next.queries[q].phase.Finished? ==> !WasCancelled(next.queries[q].phase.result)
  {
    hide TurnsOk, JoinOk, LeadOk, Reports, WasCancelled;
  }

  lemma NoOtherEnd(s: State, e: Event, q: nat)
    requires s.history != [] && Enabled(s, e) && !e.Enter? && !e.Publish? && !e.Recheck?
    requires q in s.queries && !s.queries[q].phase.Finished? && s.queries[q].context.None?
    ensures q in After(s, e).queries && !After(s, e).queries[q].phase.Finished?
  {
    hide Reports, WasCancelled;
  }

  /** Where a result may come from: the query's own cancellation, the closed cache, a value
      that was usable at that moment, the answer to its own backend call, or, for a query
      that had joined a flight, the result with which the flight's leader ended. */
  ghost predicate HasSource(s: State, q: nat, result: Outcome)
    requires s.history != [] && q in s.queries
  {
    var query, k := s.queries[q], s.queries[q].key;
    || (query.context.Some? && result == Failed(Sentinel(query.context.value)))
    || (s.cache.closed && result == Failed(Sentinel(Closed)))
    || (&& !s.cache.closed && s.cache.changing == 0 && k in s.cache.values
        && result == s.cache.values[k].outcome && s.Now().now < s.cache.values[k].expires)
    || (query.phase.Answered? && result == query.phase.response)
    || (&& query.phase.Landed? && query.phase.flight in s.flights
        && LeaderGot(s, query.phase.flight, result) && s.flights[query.phase.flight].key == k)
  }

  /** The leader of the flight, a query for its key, ended with this result. */
  ghost predicate LeaderGot(s: State, f: nat, result: Outcome)
    requires f in s.flights
  {
    var leader := s.flights[f].leader;
    && leader in s.queries && s.queries[leader].key == s.flights[f].key
    && s.queries[leader].phase.Finished? && s.queries[leader].phase.result == result
  }

  /** Every landed flight brought back what its leader ended with. */
  ghost predicate Credited(s: State) {
    forall f :: f in s.cache.finished ==> f in s.flights && LeaderGot(s, f, s.cache.finished[f])
  }

  /** Nobody fails a query, or answers it, out of nothing. */
  lemma ResultHasSource(s: State, e: Event, q: nat)
    requires Reachable(s) && s.history != [] && Enabled(s, e)
    requires q in s.queries && !s.queries[q].phase.Finished?
    requires q in After(s, e).queries && After(s, e).queries[q].phase.Finished?
    ensures HasSource(s, q, After(s, e).queries[q].phase.result)
  {
    ReachableInv(s);
    InvParts(s);
    ReachableCredited(s);
    hide Inv, HistoryOk, FlightsOk, TableOk, Reachable, Bounded, HasSource;
    match e
    case Enter(p) => EntersWithSource(s, p, q);
    case Publish(p) => PublishesWithSource(s, p, q);
    case Recheck(p) => RechecksWithSource(s, p, q);
    case _ => EndsCancelled(s, e, q);
  }

  lemma EntersWithSource(s: State, p: nat, q: nat)
    requires s.history != [] && Enabled(s, Enter(p)) && q in s.queries && !s.queries[q].phase.Finished?
    ensures var next := After(s, Enter(p));
            q in next.queries && next.queries[q].phase.Finished? ==> HasSource(s, q, next.queries[q].phase.result)
  {
    EnterShapes(s, p);
    assert After(s, Enter(p)) == AfterEnter(s, p);
    hide After, AfterEnter, Enabled, Bounded;
  }

  lemma PublishesWithSource(s: State, p: nat, q: nat)
    requires s.history != [] && Enabled(s, Publish(p)) && q in s.queries && !s.queries[q].phase.Finished?
    ensures var next := After(s, Publish(p));
            q in next.queries && next.queries[q].phase.Finished? ==> HasSource(s, q, next.queries[q].phase.result)
  {
    PublishShapes(s, p);
    assert After(s, Publish(p)) == AfterPublishing(s, p);
    hide After, AfterPublishing, Enabled, AfterStoring, Stores, FiledAfter;
  }

  lemma RechecksWithSource(s: State, p: nat, q: nat)
    requires s.history != [] && Enabled(s, Recheck(p)) && q in s.queries && !s.queries[q].phase.Finished?
    requires QueryOk(s, q) && Credited(s)
    ensures var next := After(s, Recheck(p));
            q in next.queries && next.queries[q].phase.Finished? ==> HasSource(s, q, next.queries[q].phase.result)
  {
    hide TurnsOk, LeadOk, Reports, WasCancelled;
  }

  lemma EndsCancelled(s: State, e: Event, q: nat)
    requires s.history != [] && Enabled(s, e) && !e.Enter? && !e.Publish? && !e.Recheck?
    requires q in s.queries && !s.queries[q].phase.Finished?
    ensures var next := After(s, e);
            q in next.queries && next.queries[q].phase.Finished? ==> HasSource(s, q, next.queries[q].phase.result)
  {
    hide Reports, WasCancelled;
  }

  lemma ReachableCredited(s: State)
    requires Reachable(s)
    ensures Credited(s)
  {
    hide Inv, After, Enabled, Credited;
    var s0, es :| Initial(s0) && Legal(s0, es) && s == AfterAll(s0, es);
    InitialInv(s0);
    NoFlightYet(s0);
    RunKeepsCredit(s0, es);
  }

  lemma NoFlightYet(s: State)
    requires Initial(s)
    ensures Credited(s)
  {
  }

  lemma {:induction false} RunKeepsCredit(s: State, es: seq<Event>)
    requires Inv(s) && Credited(s) && Legal(s, es)
    ensures Credited(AfterAll(s, es))
    decreases |es|
  {
    hide Inv, After, Enabled, Credited;
    if es != [] {
      StepKeepsInv(s, es[0]);
      StepKeepsCredit(s, es[0]);
      RunKeepsCredit(After(s, es[0]), es[1..]);
    }
  }

  lemma StepKeepsCredit(s: State, e: Event)
    requires Inv(s) && s.history != [] && Enabled(s, e) && Credited(s)
    ensures Credited(After(s, e))
  {
    InvParts(s);
    hide Inv, HistoryOk, TableOk, Bounded, Credited;
    match e
    case Enter(p) => EnterKeepsCredit(s, p);
    case Publish(p) => PublishKeepsCredit(s, p);
    case _ => OthersKeepCredit(s, e);
  }

  lemma EnterKeepsCredit(s: State, p: nat)
    requires s.history != [] && Enabled(s, Enter(p)) && Credited(s) && FlightsOk(s)
    ensures Credited(After(s, Enter(p)))
  {
    hide After, AfterEnter, Credited, EnterShape, FlightsOk;
    EnterShapes(s, p);
    EnterAddsFlights(s, p);
    ShapeMeans(s, AfterEnter(s, p), p);
    CreditStays(s, AfterEnter(s, p), p);
  }

  lemma EnterAddsFlights(s: State, p: nat)
    requires s.history != [] && p in s.queries && FlightsOk(s)
    ensures forall f :: f in s.flights ==> f in AfterEnter(s, p).flights && AfterEnter(s, p).flights[f] == s.flights[f]
  {
    hide LedBy, Reports, Leads, Merged;
    assert forall f :: f in s.flights ==> FlightOk(s, f);
    hide FlightOk, FlightsOk, AfterDecide, Entered;
  }

  lemma ShapeMeans(s: State, next: State, p: nat)
    requires s.history != [] && p in s.queries && EnterShape(s, next, p)
    ensures next.cache.finished == s.cache.finished
    ensures forall q :: q in s.queries && q != p ==> q in next.queries && next.queries[q] == s.queries[q]
  {
    hide Entered, Bounded;
  }

  lemma CreditStays(s: State, next: State, p: nat)
    requires Credited(s) && p in s.queries && !s.queries[p].phase.Finished?
    requires next.cache.finished == s.cache.finished
    requires forall f :: f in s.flights ==> f in next.flights && next.flights[f] == s.flights[f]
    requires forall q :: q in s.queries && q != p ==> q in next.queries && next.queries[q] == s.queries[q]
    ensures Credited(next)
  {
    forall f | f in next.cache.finished
      ensures f in next.flights && LeaderGot(next, f, next.cache.finished[f])
    {
      assert LeaderGot(s, f, s.cache.finished[f]);
    }
  }

  lemma PublishKeepsCredit(s: State, p: nat)
    requires s.history != [] && Enabled(s, Publish(p)) && Credited(s)
    requires forall q :: q in s.queries ==> QueryOk(s, q)
    ensures Credited(After(s, Publish(p)))
  {
    hide After, AfterPublishing, Credited, TurnsOk, Reports, Registered, LeaderGot;
    var f := s.queries[p].phase.lead.flight;
    assert QueryOk(s, p);
    PublishBrings(s, p);
    CreditGrows(s, After(s, Publish(p)), p, f);
  }

  lemma PublishBrings(s: State, p: nat)
    requires s.history != [] && Enabled(s, Publish(p))
    ensures var next, query := After(s, Publish(p)), s.queries[p];
            && next.flights == s.flights
            && next.queries == s.queries[p := query.(phase := Finished(query.phase.response, query.phase.at))]
            && next.cache.finished == s.cache.finished[query.phase.lead.flight := query.phase.response]
  {
    hide Enabled, AfterStoring, Stores, FiledAfter;
  }

  lemma CreditGrows(s: State, next: State, p: nat, f: nat)
    requires Credited(s) && p in s.queries && s.queries[p].phase.Answered?
    requires f in s.flights && s.flights[f].leader == p && s.flights[f].key == s.queries[p].key
    requires var query := s.queries[p];
             && next.flights == s.flights
             && next.queries == s.queries[p := query.(phase := Finished(query.phase.response, query.phase.at))]
             && next.cache.finished == s.cache.finished[f := query.phase.response]
    ensures Credited(next)
  {
    var query := s.queries[p];
    forall g | g in next.cache.finished
      ensures g in next.flights && LeaderGot(next, g, next.cache.finished[g])
    {
      assert g != f ==> LeaderGot(s, g, s.cache.finished[g]);
    }
  }

  lemma OthersKeepCredit(s: State, e: Event)
    requires s.history != [] && Enabled(s, e) && Credited(s) && !e.Enter? && !e.Publish?
    ensures Credited(After(s, e))
  {
    hide Reports, WasCancelled, WellFormed, Framed;
  }

  /** What the head of the loop does: a query whose context is gone ends with that, and
      makes no call. */
  lemma LookExactly(s: State, q: nat)
    requires s.history != [] && Enabled(s, Look(q))
    ensures var next := After(s, Look(q));
            && q in next.queries && next.cache == s.cache
            && match s.queries[q].context
               case Some(kind) =>
                 next.queries[q].phase.Finished? && next.queries[q].phase.result == Failed(Sentinel(kind))
               case None => next.queries[q].phase.Checked?
  {
  }

  /** What the first critical section does: an open cache without mutations under way serves
      an unexpired value, else lets the query wait for the flight of its key and generation;
      otherwise the query makes a call of its own. */
  lemma EnterExactly(s: State, q: nat)
    requires s.history != [] && Enabled(s, Enter(q))
    ensures var next, k := After(s, Enter(q)), s.queries[q].key;
            var usable := s.cache.changing == 0 && k in s.cache.values && s.Now().now < s.cache.values[k].expires;
            var fk := FlightKey(k, s.cache.generation);
            && q in next.queries
            && var phase := next.queries[q].phase;
               if s.cache.closed then phase.Finished? && phase.result == Failed(Sentinel(Closed))
               else if usable then phase.Finished? && phase.result == s.cache.values[k].outcome
               else if s.cache.changing == 0 && fk in s.cache.flights then
                 phase.Waiting? && phase.flight == s.cache.flights[fk]
               else phase.Calling? && (s.cache.changing == 0 ==> fk in next.cache.flights)
  {
    EnterIs(s, q);
    hide After, Enabled;
  }

  /** What the second critical section files: if the cache is open, of the call's generation
      and without mutations under way, the query's context is live and the answer is no
      doubtful failure, then the answer, an absence as the plain sentinel, for 2000 or 500 ms;
      otherwise nothing. */
  lemma PublishExactly(s: State, q: nat)
    requires s.history != [] && Enabled(s, Publish(q))
    ensures var Answered(lead, _, response, at) := s.queries[q].phase;
            var next, k, now := After(s, Publish(q)), s.queries[q].key, s.Now().now;
            var filed := if response.Failed? then ABSENT else response;
            var stores := && !s.cache.closed && s.cache.changing == 0 && s.cache.generation == lead.generation
                          && s.queries[q].context.None? && (response.Failed? ==> DefiniteMissing(response.error));
            && q in next.queries && next.queries[q].phase == Finished(response, at)
            && lead.flight in next.cache.finished && next.cache.finished[lead.flight] == response
            && (!stores ==> next.cache.values == s.cache.values)
            && (stores && !k.directory && Charge(k, filed) <= 16 * 1024 * 1024 ==>
                  && k in next.cache.values && next.cache.values[k].outcome == filed
                  && next.cache.values[k].expires == now + (if filed.Failed? then 500 else 2000))
  {
    PublishShapes(s, q);
    assert After(s, Publish(q)) == AfterPublishing(s, q);
    PutExactly(s.cache.values, s.queries[q].key, Normalized(s.queries[q].phase.response),
               s.Now().now + Lifetime(s.queries[q].phase.response));
    hide After, AfterPublishing, Enabled, AfterPut, FiledAfter, Charge, Total;
  }

  /** Single flight: of the calls that began while no mutation was under way, one at most is
      live for a key and generation. */
  lemma SingleFlight(s: State, p: nat, q: nat)
    requires Reachable(s)
    requires p in s.queries && (s.queries[p].phase.Calling? || s.queries[p].phase.Answered?)
    requires q in s.queries && (s.queries[q].phase.Calling? || s.queries[q].phase.Answered?)
    requires s.queries[p].phase.since < |s.history| && s.history[s.queries[p].phase.since].changing == 0
    requires s.queries[q].phase.since < |s.history| && s.history[s.queries[q].phase.since].changing == 0
    requires s.queries[p].key == s.queries[q].key
    requires s.queries[p].phase.lead.generation == s.queries[q].phase.lead.generation
    ensures p == q
  {
    ReachableInv(s);
    assert QueryOk(s, p) && QueryOk(s, q);
  }

  /** A registered flight is neither overwritten nor removed by anyone but its leader. */
  lemma FlightOnlyLandsByLeader(s: State, e: Event, f: nat)
    requires Reachable(s) && s.history != [] && Enabled(s, e)
    requires f in s.flights && Registered(s, f)
    requires e != Publish(s.flights[f].leader)
    ensures Registered(After(s, e), f) && f !in After(s, e).cache.finished
  {
    ReachableInv(s);
    var fk := FlightKey(s.flights[f].key, s.flights[f].generation);
    assert f !in s.cache.finished by {
      assert s.cache.flights[fk] !in s.cache.finished;
    }
    match e {
      case Enter(q) => EnterSparesFlight(s, q, f);
      case Publish(q) => PublishSparesFlight(s, q, f);
      case _ => OtherEventsSpareFlight(s, e, f);
    }
  }

  lemma EnterSparesFlight(s: State, q: nat, f: nat)
    requires HistoryOk(s) && FlightsOk(s) && Enabled(s, Enter(q))
    requires f in s.flights && Registered(s, f) && f !in s.cache.finished
    ensures Registered(AfterEnter(s, q), f) && f !in AfterEnter(s, q).cache.finished
  {
    EnterShapes(s, q);
    NumberIsNew(s);
    if Departs(s, q) {
      DepartShapes(s, q);
      hide *;
      SparedByDeparture(s, AfterEnter(s, q), q, f);
    } else {
      NoDeparture(s, q);
      StandingFlights(s, q);
      hide HistoryOk, FlightsOk, AfterEnter, After, Enabled, Decide, Entered, Bounded;
    }
  }

  lemma NoDeparture(s: State, q: nat)
    requires s.history != [] && Enabled(s, Enter(q)) && !Departs(s, q)
    ensures q in s.queries && !Decide(s.cache, s.queries[q].key, s.Now().now).Lead?
  {
  }

  lemma SparedByDeparture(s: State, next: State, q: nat, f: nat)
    requires s.history != [] && q in s.queries && EnterShape(s, next, q) && DepartShape(s, next, q)
    requires s.cache.nextFlight !in s.flights
    requires f in s.flights && Registered(s, f) && f !in s.cache.finished
    ensures Registered(next, f) && f !in next.cache.finished
  {
    hide Entered, Bounded;
  }

  lemma StandingFlights(s: State, q: nat)
    requires s.history != [] && q in s.queries && !Decide(s.cache, s.queries[q].key, s.Now().now).Lead?
    ensures AfterEnter(s, q).flights == s.flights && AfterEnter(s, q).cache.flights == s.cache.flights
  {
  }

  lemma PublishSparesFlight(s: State, q: nat, f: nat)
    requires Inv(s) && s.history != [] && Publishes(s, q)
    requires f in s.flights && Registered(s, f) && f !in s.cache.finished && q != s.flights[f].leader
    ensures Registered(AfterPublishing(s, q), f) && f !in AfterPublishing(s, q).cache.finished
  {
    var next := AfterPublishing(s, q);
    InvParts(s);
    PublishShapes(s, q);
    PublishExtends(s, next, q);
    assert s.queries[q].phase.lead.flight != f by {
      assert QueryOk(s, q);
    }
    hide Inv, HistoryOk, TableOk, FlightsOk, QueryOk, AfterPublishing, PublishShape;
  }

  lemma OtherEventsSpareFlight(s: State, e: Event, f: nat)
    requires s.history != [] && Enabled(s, e) && !e.Enter? && !e.Publish?
    ensures After(s, e).flights == s.flights
    ensures After(s, e).cache.flights == s.cache.flights && After(s, e).cache.finished == s.cache.finished
  {
  }

  /** A query's loop ends: its turns are bounded by one, plus the generations that passed,
      plus the cancelled leaders it waited for; and it never joins one flight twice. */
  lemma TurnsBounded(s: State, q: nat)
    requires Reachable(s) && q in s.queries
    ensures s.queries[q].start < |s.history| && s.history != []
    ensures s.history[s.queries[q].start].generation <= s.Now().generation
    ensures s.queries[q].turns <=
              1 + (s.Now().generation - s.history[s.queries[q].start].generation) + |s.queries[q].cancels|
    ensures s.queries[q].joins == |s.queries[q].joined|
    ensures forall f :: f in s.queries[q].cancels ==>
              f in s.queries[q].joined && f in s.cache.finished && WasCancelled(s.cache.finished[f])
  {
    ReachableInv(s);
    assert QueryOk(s, q);
    var query := s.queries[q];
    assert Follows(s.history[query.start], s.Now());
    if query.phase.Waiting? || query.phase.Landed? {
      assert Follows(s.history[query.phase.since], s.Now());
    }
  }

  /** A hit is served less than its lifetime after it was filed: two seconds for entries and
      listings, half a second for an absence. The filing is the one on record for the key,
      and what is served was the backend's answer at the moment recorded with it. */
  lemma HitsAreFresh(s: State, q: nat)
    requires Reachable(s) && s.history != [] && Enabled(s, Enter(q))
    requires Decide(s.cache, s.queries[q].key, s.Now().now).Hit?
    ensures var k := s.queries[q].key;
            var outcome := Decide(s.cache, k, s.Now().now).outcome;
            && k in s.filed
            && var f := s.filed[k];
               && f.answered <= f.at < |s.history|
               && s.Now().now - s.history[f.at].now < (if outcome.Failed? then 500 else 2000)
               && Reports(outcome, s.history[f.answered].truth(k))
               && (f.source == k || IsChild(f.source, k))
  {
    ReachableInv(s);
    var k := s.queries[q].key;
    assert ValueOk(s, k, s.cache.values[k]);
  }

  /** If the value may still be served so much later, it is younger than its lifetime then,
      counted from the backend's answer. */
  ghost predicate ServedInTime(s: State, k: Key, elapsed: nat)
    requires s.history != [] && k in s.cache.values && k in s.filed && s.filed[k].answered < |s.history|
  {
    var later := s.Now().now + elapsed;
    Usable(s.cache, k, later) ==> later - s.history[s.filed[k].answered].now < Lifetime(s.cache.values[k].outcome)
  }

  /** Counted from the backend's answer instead, a hit may be older than its lifetime: a value
      that may be served now will never be served too late if and only if no time passed
      between the backend's answer and its filing. */
  lemma HitAgeExact(s: State, k: Key)
    requires Reachable(s) && s.history != [] && k in s.cache.values && Usable(s.cache, k, s.Now().now)
    ensures k in s.filed && s.filed[k].answered <= s.filed[k].at < |s.history|
    ensures (forall elapsed: nat :: ServedInTime(s, k, elapsed))
            <==> s.history[s.filed[k].at].now == s.history[s.filed[k].answered].now
  {
    ReachableInv(s);
    InvParts(s);
    var v, f := s.cache.values[k], s.filed[k];
    assert ValueOk(s, k, v);
    assert Follows(s.history[f.answered], s.history[f.at]);
    hide *;
    AgeAtExpiry(s, k, v.expires - 1 - s.Now().now);
  }

  lemma AgeAtExpiry(s: State, k: Key, last: int)
    requires s.history != [] && k in s.cache.values && k in s.filed && Usable(s.cache, k, s.Now().now)
    requires last == s.cache.values[k].expires - 1 - s.Now().now
    requires var f := s.filed[k];
             && f.answered <= f.at < |s.history| && s.history[f.answered].now <= s.history[f.at].now
             && s.cache.values[k].expires == s.history[f.at].now + Lifetime(s.cache.values[k].outcome)
    ensures (forall elapsed: nat :: ServedInTime(s, k, elapsed))
            <==> s.history[s.filed[k].at].now == s.history[s.filed[k].answered].now
  {
    if forall elapsed: nat :: ServedInTime(s, k, elapsed) {
      assert last >= 0 && ServedInTime(s, k, last);
    }
  }

  /** Such a delay does occur: the clock may move between an answer and its filing. */
  lemma FilingsAreDelayed()
    ensures exists s, k :: Reachable(s) && s.history != [] && k in s.cache.values && Usable(s.cache, k, s.Now().now)
                           && k in s.filed && s.filed[k].answered < s.filed[k].at < |s.history|
                           && s.history[s.filed[k].answered].now < s.history[s.filed[k].at].now
  {
    var s0 := State(Shared(map[], map[], map[], 0, 0, 0, false), map[], [Moment((k: Key) => ABSENT, 0, 0, false, 0)],
                    map[], map[], map[], map[]);
    EmptyIsReachable(s0);
    hide *;
    var s1 := StartsAsking(s0);
    var s2 := LooksAround(s1);
    var s3 := EntersFirst(s2);
    var s4 := HearsAbsent(s3);
    var s5 := FilesLater(s4);
  }

  /** A reachable state in which nothing has been filed yet. */
  ghost predicate NoneFiled(s: State) {
    && Reachable(s) && s.history != [] && s.cache.values == map[]
    && s.cache.changing == 0 && !s.cache.closed
    && s.Now().truth(Key("/", false)) == ABSENT
  }

  /** The first query asks for the Stat of the root. */
  ghost predicate Asks(s: State) {
    NoneFiled(s) && 0 in s.queries && s.queries[0].key == Key("/", false) && s.queries[0].context.None?
  }

  lemma EmptyIsReachable(s: State)
    requires Initial(s) && s.Now().truth(Key("/", false)) == ABSENT
    ensures NoneFiled(s) && s.queries == map[] && s.cache.flights == map[]
  {
    assert Legal(s, []) && AfterAll(s, []) == s;
  }

  lemma StartsAsking(s: State) returns (next: State)
    requires NoneFiled(s) && s.queries == map[] && s.cache.flights == map[]
    ensures Asks(next) && next.queries[0].phase.Top? && next.cache.flights == map[]
  {
    assert MetadataPath("") == Some("/") by {
      assert ForwardSlashes("") == "" && Split("") == [""] && Components("") == [];
    }
    ReachableExtends(s, Start(0, "", false));
    next := After(s, Start(0, "", false));
  }

  lemma LooksAround(s: State) returns (next: State)
    requires Asks(s) && s.queries[0].phase.Top? && s.cache.flights == map[]
    ensures Asks(next) && next.queries[0].phase.Checked? && next.cache.flights == map[]
  {
    ReachableExtends(s, Look(0));
    next := After(s, Look(0));
  }

  lemma EntersFirst(s: State) returns (next: State)
    requires Asks(s) && s.queries[0].phase.Checked? && s.cache.flights == map[]
    ensures Asks(next) && next.queries[0].phase.Calling?
    ensures next.queries[0].phase.lead.generation == next.cache.generation
  {
    ReachableExtends(s, Enter(0));
    next := After(s, Enter(0));
    assert Decide(s.cache, s.queries[0].key, s.Now().now).Lead?;
  }

  lemma HearsAbsent(s: State) returns (next: State)
    requires Asks(s) && s.queries[0].phase.Calling? && s.queries[0].phase.lead.generation == s.cache.generation
    ensures Asks(next) && next.queries[0].phase.Answered? && next.queries[0].phase.response == ABSENT
    ensures next.queries[0].phase.lead.generation == next.cache.generation
    ensures next.queries[0].phase.at < |next.history| && next.history[next.queries[0].phase.at].now == next.Now().now
  {
    ReachableExtends(s, Answer(0, ABSENT));
    next := After(s, Answer(0, ABSENT));
  }

  lemma FilesLater(s: State) returns (next: State)
    requires Asks(s) && s.queries[0].phase.Answered? && s.queries[0].phase.response == ABSENT
    requires s.queries[0].phase.lead.generation == s.cache.generation
    requires s.queries[0].phase.at < |s.history| && s.history[s.queries[0].phase.at].now == s.Now().now
    ensures Reachable(next) && next.history != [] && Key("/", false) in next.cache.values
    ensures Usable(next.cache, Key("/", false), next.Now().now) && Key("/", false) in next.filed
    ensures var f := next.filed[Key("/", false)];
            f.answered < f.at < |next.history| && next.history[f.answered].now < next.history[f.at].now
  {
    ReachableExtends(s, Tick(1));
    var waited := After(s, Tick(1));
    TickIs(s);
    ReachableExtends(waited, Publish(0));
    next := After(waited, Publish(0));
    hide *;
    FilesAbsent(waited);
  }

  lemma TickIs(s: State)
    requires s.history != []
    ensures var next := After(s, Tick(1));
            && next.queries == s.queries && next.cache == s.cache && next.filed == s.filed
            && |next.history| == |s.history| + 1 && next.history[..|s.history|] == s.history
            && next.Now().now == s.Now().now + 1
            && (0 in s.queries && s.queries[0].phase.Answered? ==> Enabled(next, Publish(0)))
  {
  }

  /** An absence is filed in an empty table. */
  lemma FilesAbsent(s: State)
    requires s.history != [] && Enabled(s, Publish(0)) && s.cache.values == map[]
    requires s.cache.changing == 0 && !s.cache.closed && s.queries[0].context.None?
    requires s.queries[0].key == Key("/", false) && s.queries[0].phase.response == ABSENT
    requires s.queries[0].phase.lead.generation == s.cache.generation
    ensures var next, k := After(s, Publish(0)), Key("/", false);
            && k in next.cache.values && |next.history| == |s.history| + 1 && next.history[..|s.history|] == s.history
            && Usable(next.cache, k, next.Now().now)
            && k in next.filed && next.filed[k] == Filing(k, s.queries[0].phase.at, |s.history| - 1)
  {
    var k := Key("/", false);
    PublishShapes(s, 0);
    assert After(s, Publish(0)) == AfterPublishing(s, 0);
    assert Stores(s.cache, s.queries[0].phase.lead.generation, false, ABSENT);
    AbsenceIsSmall(k, s.Now().now);
    FiledAbsence(s.filed, k, Filing(k, s.queries[0].phase.at, |s.history| - 1));
    hide AfterStoring, FiledByStoring, Charge, Total;
  }

  lemma AbsenceIsSmall(k: Key, now: int)
    requires k == Key("/", false)
    ensures var stored := AfterStoring(map[], k, ABSENT, now);
            k in stored && now < stored[k].expires
  {
    assert Charge(k, ABSENT) == |k.name| + 128;
  }

  lemma FiledAbsence(filed: Filings, k: Key, stamp: Filing)
    requires k == Key("/", false)
    ensures k in FiledByStoring(filed, k, ABSENT, stamp) && FiledByStoring(filed, k, ABSENT, stamp)[k] == stamp
  {
    assert Charge(k, ABSENT) == |k.name| + 128;
  }

  lemma ReachableExtends(s: State, e: Event)
    requires Reachable(s) && s.history != [] && Enabled(s, e)
    ensures Reachable(After(s, e)) && After(s, e).history != []
  {
    hide After, Enabled, Initial;
    var s0, es :| Initial(s0) && Legal(s0, es) && s == AfterAll(s0, es);
    HistoryGrows(s, e);
    OneMoreEvent(s0, es, e);
  }

  lemma HistoryGrows(s: State, e: Event)
    requires s.history != [] && Enabled(s, e)
    ensures After(s, e).history != []
  {
    hide Bounded, Reports, Framed, WellFormed, AfterDecide, AfterPublish, FiledAfter;
  }

  lemma {:induction false} OneMoreEvent(s: State, es: seq<Event>, e: Event)
    requires Legal(s, es) && AfterAll(s, es).history != [] && Enabled(AfterAll(s, es), e)
    requires After(AfterAll(s, es), e).history != []
    ensures Legal(s, es + [e]) && AfterAll(s, es + [e]) == After(AfterAll(s, es), e)
    decreases |es|
  {
    hide After, Enabled;
    if es == [] {
      assert es + [e] == [e] && [e][1..] == [];
      assert Legal(After(s, e), []);
    } else {
      assert (es + [e])[1..] == es[1..] + [e];
      OneMoreEvent(After(s, es[0]), es[1..], e);
    }
  }

  /** A child that was seeded from a listing expires with it, to the millisecond. */
  lemma SeededWithListing(s: State, d: Key, k: Key)
    requires Reachable(s)
    requires k in s.cache.values && d in s.cache.values && k != d
    requires k in s.filed && d in s.filed && s.filed[k] == s.filed[d] && s.filed[d].source == d
    ensures IsChild(d, k) && s.cache.values[k].expires == s.cache.values[d].expires
  {
    ReachableInv(s);
    InvParts(s);
    hide Inv, HistoryOk, FlightsOk, Reachable;
    assert ValueOk(s, k, s.cache.values[k]) && ValueOk(s, d, s.cache.values[d]);
    hide TableOk;
  }

  // ------------------------------------------------- how exact the frame is

  ghost predicate AllTrue(values: Table, truth: Truth) {
    forall k :: k in values ==>
      && IsClean(k.name) && Storable(values[k].outcome) && Reports(values[k].outcome, truth(k))
  }

  /** `invalidate` spares a clean key exactly when no valid name touches it, all being valid. */
  lemma SurvivesExact(names: seq<string>, k: Key)
    requires IsClean(k.name)
    ensures Survives(names, k) <==>
              !Touched(names, k) && forall i :: 0 <= i < |names| ==> MetadataPath(names[i]).Some?
  {
    if Survives(names, k) {
      SurvivorsUntouched(names, k);
    } else {
      var i :| 0 <= i < |names|
               && !(MetadataPath(names[i]).Some? && !Covered(MetadataPath(names[i]).value, k));
      if MetadataPath(names[i]).Some? {
        CleanIdempotent(ForwardSlashes(names[i]));
        CoveredExact(MetadataPath(names[i]).value, k);
        assert TouchedBy(MetadataPath(names[i]).value, k);
      }
    }
  }

  /** A true answer for this key may be in a table and survive the invalidation. */
  ghost predicate MaySurvive(names: seq<string>, truth: Truth, k: Key) {
    IsClean(k.name) && Survives(names, k) && Storable(truth(k)) && truth(k) == Normalized(truth(k))
  }

  /** The frame assumption is exactly what the cache needs: invalidation keeps every
      coherent table coherent across a change if and only if the change leaves alone each
      cacheable answer that `invalidate` spares. */
  lemma FrameExact(names: seq<string>, before: Truth, after: Truth)
    ensures (forall values: Table :: AllTrue(values, before) ==> AllTrue(Surviving(values, names), after))
            <==> (forall k: Key :: MaySurvive(names, before, k) ==> after(k) == before(k))
  {
    if forall values: Table :: AllTrue(values, before) ==> AllTrue(Surviving(values, names), after) {
      forall k: Key | MaySurvive(names, before, k)
        ensures after(k) == before(k)
      {
        var values: Table := map[k := Value(before(k), 0, 0)];
        assert AllTrue(values, before);
        assert k in Surviving(values, names);
      }
    }
    if forall k: Key :: MaySurvive(names, before, k) ==> after(k) == before(k) {
      forall values: Table | AllTrue(values, before)
        ensures AllTrue(Surviving(values, names), after)
      {
        forall k | k in Surviving(values, names)
          ensures Reports(values[k].outcome, after(k))
        {
          assert Reports(values[k].outcome, before(k));
        }
      }
    }
  }

  /** It does not hold of a directory's own Stat: creating or deleting n leaves the cached
      entry of the directory around it in place, until it expires. */
  lemma ParentStatIsSpared(name: string)
    requires MetadataPath(name).Some? && MetadataPath(name).value != "/"
    ensures Survives([name], Key(Dir(MetadataPath(name).value), false))
  {
    var n := MetadataPath(name).value;
    CleanIdempotent(ForwardSlashes(name));
    var segments := Components(n);
    ComponentsProper(n);
    DirIsParent(segments);
    assert AllProper(Parent(segments));
    RenderRoundTrip(Parent(segments));
    CoveredExact(n, Key(Dir(n), false));
    RenderInjective(segments, []);
    SurvivesOne(name);
  }
}
