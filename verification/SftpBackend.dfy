/** Reconnecting the SFTP backend: any number of operations share one client; those whose
    connection broke race to replace it, and each of them is tried once more. */
module SftpBackend {
  /** What the mutex protects. Clients are numbered; `history` lists them by generation and
      `shut` holds those whose Close was called. */
  datatype Shared = Shared(client: nat, generation: nat, closed: bool, next: nat, shut: set<nat>, history: seq<nat>)

  /** A client together with the generation under which it was handed out. */
  datatype Lease = Lease(client: nat, generation: nat)

  datatype Outcome = Leased(lease: Lease) | BackendClosed | DialFailed

  function SessionOf(s: Shared): Outcome {
    if s.closed then BackendClosed else Leased(Lease(s.client, s.generation))
  }

  /** Whether reconnect replaces the client, or finds that another operation already has. */
  predicate Replaces(s: Shared, failed: nat, dialled: bool) {
    !s.closed && s.generation == failed && dialled
  }

  function AfterReconnect(s: Shared, failed: nat, dialled: bool): Shared {
    if Replaces(s, failed, dialled) then
      Shared(s.next, s.generation + 1, false, s.next + 1, s.shut + {s.client}, s.history + [s.next])
    else s
  }

  function ReconnectOutcome(s: Shared, failed: nat, dialled: bool): Outcome {
    if s.closed then BackendClosed
    else if s.generation != failed then Leased(Lease(s.client, s.generation))
    else if !dialled then DialFailed
    else Leased(Lease(s.next, s.generation + 1))
  }

  function AfterClose(s: Shared): Shared {
    if s.closed then s else s.(closed := true, shut := s.shut + {s.client})
  }

  ghost predicate SharedOk(s: Shared) {
    && |s.history| == s.generation + 1 && s.history[s.generation] == s.client
    && (forall i :: 0 <= i < |s.history| ==> s.history[i] < s.next)
    && (forall i, j :: 0 <= i < j < |s.history| ==> s.history[i] != s.history[j])
    && (forall i :: 0 <= i < s.generation ==> s.history[i] in s.shut)
    && (s.closed <==> s.client in s.shut)
    && (forall c :: c in s.shut ==> c < s.next)
  }

  /** The object, whose methods are the critical sections. */
  class Backend {
    var client: nat
    var generation: nat
    var closed: bool
    var next: nat
    var shut: set<nat>
    ghost var history: seq<nat>

    ghost function View(): Shared
      reads this
    {
      Shared(client, generation, closed, next, shut, history)
    }

    constructor ()
      ensures SharedOk(View()) && View() == Shared(0, 0, false, 1, {}, [0])
    {
      client, generation, closed, next, shut, history := 0, 0, false, 1, {}, [0];
    }

    method Session() returns (r: Outcome)
      ensures r == SessionOf(View())
    {
      if closed {
        return BackendClosed;
      }
      return Leased(Lease(client, generation));
    }

    /** At most one caller replaces a broken client; the others get its replacement. The
        mutex is held while dialling. */
    method Reconnect(failed: nat) returns (r: Outcome, ghost dialled: bool)
      requires SharedOk(View())
      modifies this
      ensures SharedOk(View())
      ensures r == ReconnectOutcome(old(View()), failed, dialled)
      ensures View() == AfterReconnect(old(View()), failed, dialled)
    {
      var dials: bool := *;
      dialled := dials;
      ReconnectOk(View(), failed, dialled);
      if closed {
        return BackendClosed, dialled;
      }
      if generation != failed {
        return Leased(Lease(client, generation)), dialled;
      }
      if !dials {
        return DialFailed, dialled;
      }
      var superseded := client;
      client, next, history := next, next + 1, history + [next];
      generation := generation + 1;
      shut := shut + {superseded};
      r := Leased(Lease(client, generation));
    }

    method Close()
      requires SharedOk(View())
      modifies this
      ensures SharedOk(View()) && View() == AfterClose(old(View()))
    {
      if closed {
        return;
      }
      closed := true;
      shut := shut + {client};
    }
  }

  lemma ReconnectOk(s: Shared, failed: nat, dialled: bool)
    requires SharedOk(s)
    ensures SharedOk(AfterReconnect(s, failed, dialled))
  {
    if Replaces(s, failed, dialled) {
      var n := AfterReconnect(s, failed, dialled);
      assert forall i :: 0 <= i < |s.history| ==> n.history[i] == s.history[i];
    }
  }

  // ---------------------------------------------------------------- whole runs

  datatype Phase =
    | Waiting                    // before session()
    | Trying                     // the operation runs on its first lease
    | Reconnecting               // it ended with a connection error
    | Retrying                   // it runs again
    | Done

  /** One call of withReconnect, with the leases it executed on and how often the server
      carried it out. */
  datatype Operation = Operation(phase: Phase, runs: seq<Lease>, applied: nat)

  datatype State = State(shared: Shared, operations: seq<Operation>)

  datatype Event =
    | Start                                  // a new call
    | Session(op: nat)
    | Finish(op: nat, broken: bool, applied: bool) // it returned; the server may have carried it out
    | Reconnect(op: nat, dialled: bool)
    | Close

  predicate InPhase(s: State, op: nat, phase: Phase) {
    op < |s.operations| && s.operations[op].phase == phase
  }

  predicate Enabled(s: State, e: Event) {
    match e
    case Start => true
    case Session(op) => InPhase(s, op, Waiting)
    case Finish(op, _, _) => InPhase(s, op, Trying) || InPhase(s, op, Retrying)
    case Reconnect(op, _) => InPhase(s, op, Reconnecting)
    case Close => true
  }

  /** The operation runs on the lease it was given, or returns the error. */
  function Proceed(o: Operation, outcome: Outcome, phase: Phase): Operation {
    if outcome.Leased? then o.(phase := phase, runs := o.runs + [outcome.lease]) else o.(phase := Done)
  }

  function Returned(o: Operation, broken: bool, applied: bool): Operation {
    o.(phase := if broken && o.phase == Trying then Reconnecting else Done,
       applied := if applied then o.applied + 1 else o.applied)
  }

  function Failed(o: Operation): nat
    requires o.runs != []
  {
    o.runs[0].generation
  }

  function After(s: State, e: Event): State
    requires Enabled(s, e) && OperationsOk(s)
  {
    match e
    case Start => s.(operations := s.operations + [Operation(Waiting, [], 0)])
    case Session(op) =>
      s.(operations := s.operations[op := Proceed(s.operations[op], SessionOf(s.shared), Trying)])
    case Finish(op, broken, applied) =>
      s.(operations := s.operations[op := Returned(s.operations[op], broken, applied)])
    case Reconnect(op, dialled) =>
      var failed := Failed(s.operations[op]);
      State(AfterReconnect(s.shared, failed, dialled),
            s.operations[op := Proceed(s.operations[op], ReconnectOutcome(s.shared, failed, dialled), Retrying)])
    case Close => s.(shared := AfterClose(s.shared))
  }

  /** No run is carried out twice. */
  predicate RunsOk(o: Operation) {
    match o.phase
    case Waiting => o.runs == [] && o.applied == 0
    case Trying => |o.runs| == 1 && o.applied == 0
    case Reconnecting => |o.runs| == 1 && o.applied <= 1
    case Retrying => |o.runs| == 2 && o.applied <= 1
    case Done => o.applied <= |o.runs| <= 2
  }

  predicate OperationsOk(s: State) {
    forall op :: 0 <= op < |s.operations| ==> RunsOk(s.operations[op])
  }

  /** Every lease names the client of its generation, and a second run is of a later one. */
  ghost predicate LeasesOk(shared: Shared, o: Operation) {
    && (forall i :: 0 <= i < |o.runs| ==>
          o.runs[i].generation < |shared.history| && shared.history[o.runs[i].generation] == o.runs[i].client)
    && (|o.runs| == 2 ==> o.runs[0].generation < o.runs[1].generation)
  }

  ghost predicate Inv(s: State) {
    && SharedOk(s.shared) && OperationsOk(s)
    && forall op :: 0 <= op < |s.operations| ==> LeasesOk(s.shared, s.operations[op])
  }

  lemma StepKeepsInv(s: State, e: Event)
    requires Inv(s) && Enabled(s, e)
    ensures Inv(After(s, e))
    ensures After(s, e).shared.generation >= s.shared.generation && s.shared.history <= After(s, e).shared.history
  {
    var next := After(s, e);
    if e.Reconnect? {
      ReconnectOk(s.shared, Failed(s.operations[e.op]), e.dialled);
    }
    forall op | 0 <= op < |next.operations|
      ensures RunsOk(next.operations[op]) && LeasesOk(next.shared, next.operations[op])
    {
      if op < |s.operations| {
        OperationKept(s, e, op);
      }
    }
  }

  lemma OperationKept(s: State, e: Event, op: nat)
    requires Inv(s) && Enabled(s, e) && op < |s.operations|
    ensures RunsOk(After(s, e).operations[op]) && LeasesOk(After(s, e).shared, After(s, e).operations[op])
  {
    var o, next := s.operations[op], After(s, e);
    assert RunsOk(o) && LeasesOk(s.shared, o);
    LeasesStay(s.shared, next.shared, o);
  }

  lemma LeasesStay(shared: Shared, next: Shared, o: Operation)
    requires LeasesOk(shared, o) && shared.history <= next.history
    ensures LeasesOk(next, o)
  {
  }

  ghost predicate Legal(s: State, es: seq<Event>)
    requires Inv(s)
    decreases |es|
  {
    es != [] ==> Enabled(s, es[0]) && (StepKeepsInv(s, es[0]); Legal(After(s, es[0]), es[1..]))
  }

  ghost function AfterAll(s: State, es: seq<Event>): State
    requires Inv(s) && Legal(s, es)
    decreases |es|
  {
    if es == [] then s else StepKeepsInv(s, es[0]); AfterAll(After(s, es[0]), es[1..])
  }

  /** Whether this event is a reconnect after a failure on the given generation that
      installs a new client. */
  ghost predicate Installs(s: State, e: Event, failed: nat)
    requires Inv(s) && Enabled(s, e)
  {
    e.Reconnect? && Failed(s.operations[e.op]) == failed && After(s, e).shared != s.shared
  }

  /** How many clients a run installs for failures on the given generation. */
  ghost function InstalledFor(s: State, es: seq<Event>, failed: nat): nat
    requires Inv(s) && Legal(s, es)
    decreases |es|
  {
    if es == [] then 0
    else
      StepKeepsInv(s, es[0]);
      (if Installs(s, es[0], failed) then 1 else 0) + InstalledFor(After(s, es[0]), es[1..], failed)
  }

  /** However many operations fail on a generation, at most one of them installs a new
      client, and none does once a later generation is current. */
  lemma {:induction false} OneReplacementEach(s: State, es: seq<Event>, failed: nat)
    requires Inv(s) && Legal(s, es)
    ensures InstalledFor(s, es, failed) <= if s.shared.generation <= failed then 1 else 0
    decreases |es|
  {
    if es != [] {
      StepKeepsInv(s, es[0]);
      OneReplacementEach(After(s, es[0]), es[1..], failed);
    }
  }

  /** A reconnect installs a client exactly if its failure was on the current generation,
      the backend is open and dialling succeeded; only then is a client closed, and it is
      the one that failed. */
  lemma InstallsExactly(s: State, e: Event)
    requires Inv(s) && Enabled(s, e) && e.Reconnect?
    ensures var next, lease := After(s, e).shared, s.operations[e.op].runs[0];
            && (next != s.shared <==> !s.shared.closed && lease.generation == s.shared.generation && e.dialled)
            && next.shut == (if next != s.shared then s.shared.shut + {lease.client} else s.shared.shut)
            && |next.history| == |s.shared.history| + (if next != s.shared then 1 else 0)
  {
    assert RunsOk(s.operations[e.op]) && LeasesOk(s.shared, s.operations[e.op]);
  }

  /** Over any run the invariant holds, no installed client is ever forgotten, and once the
      backend is closed no client is installed again. */
  lemma {:induction false} RunsAreSafe(s: State, es: seq<Event>)
    requires Inv(s) && Legal(s, es)
    ensures var end := AfterAll(s, es);
            && Inv(end) && s.shared.history <= end.shared.history
            && (s.shared.closed ==> end.shared == s.shared)
    decreases |es|
  {
    if es != [] {
      StepKeepsInv(s, es[0]);
      RunsAreSafe(After(s, es[0]), es[1..]);
    }
  }

  /** What a returned operation goes on to: only a first run that broke leads to a reconnect. */
  lemma FinishExactly(s: State, op: nat, broken: bool, applied: bool)
    requires Inv(s) && Enabled(s, Finish(op, broken, applied))
    ensures var before, after := s.operations[op], After(s, Finish(op, broken, applied)).operations[op];
            && after.runs == before.runs && after.applied == before.applied + (if applied then 1 else 0)
            && after.phase == if |before.runs| == 1 && broken then Reconnecting else Done
  {
    assert RunsOk(s.operations[op]);
  }

  /** An operation whose first run did not break, or whose second is over, is never run
      again. */
  lemma {:induction false} DoneStays(s: State, es: seq<Event>, op: nat)
    requires Inv(s) && Legal(s, es) && op < |s.operations| && s.operations[op].phase == Done
    ensures op < |AfterAll(s, es).operations| && AfterAll(s, es).operations[op] == s.operations[op]
    decreases |es|
  {
    if es != [] {
      StepKeepsInv(s, es[0]);
      DoneStays(After(s, es[0]), es[1..], op);
    }
  }

  /** In every such state an operation has executed at most twice, the second time on another
      client of a later generation; every superseded client has been closed, and after
      Close so has the last. */
  lemma InvariantMeans(s: State, op: nat, i: nat)
    requires Inv(s) && op < |s.operations| && i < s.shared.generation
    ensures s.operations[op].applied <= |s.operations[op].runs| <= 2
    ensures |s.operations[op].runs| == 2 ==>
              && s.operations[op].runs[0].generation < s.operations[op].runs[1].generation
              && s.operations[op].runs[0].client != s.operations[op].runs[1].client
    ensures s.shared.history[i] in s.shared.shut
    ensures s.shared.closed ==> forall j :: 0 <= j < |s.shared.history| ==> s.shared.history[j] in s.shared.shut
  {
    assert RunsOk(s.operations[op]) && LeasesOk(s.shared, s.operations[op]);
  }

  /** An operation is only ever handed a client that is still open. */
  lemma LeasesAreOpen(s: State, e: Event, op: nat)
    requires Inv(s) && Enabled(s, e) && op < |s.operations|
    ensures var before, after := s.operations[op].runs, After(s, e).operations[op].runs;
            after != before ==> |after| == |before| + 1 && after[|before|].client !in After(s, e).shared.shut
  {
    StepKeepsInv(s, e);
    assert RunsOk(s.operations[op]);
  }

  /** A mutation can be carried out twice: the connection breaks after the server applied
      it, and the retry sends it again. */
  lemma MutationIsReplayed()
    ensures exists s, es :: Inv(s) && s.operations == [] && Legal(s, es)
                            && |AfterAll(s, es).operations| == 1 && AfterAll(s, es).operations[0].applied == 2
  {
    var first, second := Lease(0, 0), Lease(1, 1);
    var dialled, redialled := Shared(0, 0, false, 1, {}, [0]), Shared(1, 1, false, 2, {0}, [0, 1]);
    var s0 := State(dialled, []);
    var s1 := State(dialled, [Operation(Waiting, [], 0)]);
    var s2 := State(dialled, [Operation(Trying, [first], 0)]);
    var s3 := State(dialled, [Operation(Reconnecting, [first], 1)]);
    var s4 := State(redialled, [Operation(Retrying, [first, second], 1)]);
    var s5 := State(redialled, [Operation(Done, [first, second], 2)]);
    hide *;
    DialledTwice(dialled, redialled, first, second);
    ReplayStarts(s0, s1);
    ReplayRuns(s1, s2, first);
    ReplayBreaks(s2, s3, first);
    ReplayReconnects(s3, s4, first, second);
    ReplayEnds(s4, s5, first, second);
    var retry := [Reconnect(0, true)] + ([Finish(0, false, true)] + []);
    Leads(s4, Finish(0, false, true), s5, [], s5);
    Leads(s3, Reconnect(0, true), s4, [Finish(0, false, true)] + [], s5);
    Leads(s2, Finish(0, true, true), s3, retry, s5);
    Leads(s1, Session(0), s2, [Finish(0, true, true)] + retry, s5);
    Leads(s0, Start, s1, [Session(0)] + ([Finish(0, true, true)] + retry), s5);
    Witness(s0, [Start] + ([Session(0)] + ([Finish(0, true, true)] + retry)), s5);
  }

  lemma Witness(s: State, es: seq<Event>, end: State)
    requires Inv(s) && s.operations == [] && Legal(s, es) && AfterAll(s, es) == end
    requires |end.operations| == 1 && end.operations[0].applied == 2
    ensures exists s, es :: Inv(s) && s.operations == [] && Legal(s, es)
                            && |AfterAll(s, es).operations| == 1 && AfterAll(s, es).operations[0].applied == 2
  {
  }

  lemma DialledTwice(dialled: Shared, redialled: Shared, first: Lease, second: Lease)
    requires first == Lease(0, 0) && second == Lease(1, 1)
    requires dialled == Shared(0, 0, false, 1, {}, [0]) && redialled == Shared(1, 1, false, 2, {0}, [0, 1])
    ensures SessionOf(dialled) == Leased(first) && Replaces(dialled, first.generation, true)
    ensures AfterReconnect(dialled, first.generation, true) == redialled
    ensures ReconnectOutcome(dialled, first.generation, true) == Leased(second)
  {
  }

  lemma ReplayStarts(s: State, next: State)
    requires s == State(Shared(0, 0, false, 1, {}, [0]), []) && next == s.(operations := [Operation(Waiting, [], 0)])
    ensures Inv(s) && Enabled(s, Start) && After(s, Start) == next
  {
  }

  lemma ReplayRuns(s: State, next: State, first: Lease)
    requires Inv(s) && s.operations == [Operation(Waiting, [], 0)] && SessionOf(s.shared) == Leased(first)
    requires next == s.(operations := [Operation(Trying, [first], 0)])
    ensures Enabled(s, Session(0)) && After(s, Session(0)) == next && Inv(next)
  {
    assert Proceed(Operation(Waiting, [], 0), Leased(first), Trying) == Operation(Trying, [first], 0);
    assert s.operations[0 := next.operations[0]] == next.operations;
    StepKeepsInv(s, Session(0));
  }

  lemma ReplayBreaks(s: State, next: State, first: Lease)
    requires Inv(s) && s.operations == [Operation(Trying, [first], 0)]
    requires next == s.(operations := [Operation(Reconnecting, [first], 1)])
    ensures Enabled(s, Finish(0, true, true)) && After(s, Finish(0, true, true)) == next && Inv(next)
  {
    assert s.operations[0 := next.operations[0]] == next.operations;
    StepKeepsInv(s, Finish(0, true, true));
  }

  lemma ReplayReconnects(s: State, next: State, first: Lease, second: Lease)
    requires Inv(s) && s.operations == [Operation(Reconnecting, [first], 1)]
    requires Replaces(s.shared, first.generation, true)
    requires next == State(AfterReconnect(s.shared, first.generation, true),
                           [Operation(Retrying, [first, second], 1)])
    requires ReconnectOutcome(s.shared, first.generation, true) == Leased(second)
    ensures Enabled(s, Reconnect(0, true)) && After(s, Reconnect(0, true)) == next && Inv(next)
  {
    assert [first] + [second] == [first, second];
    assert s.operations[0 := next.operations[0]] == next.operations;
    StepKeepsInv(s, Reconnect(0, true));
  }

  lemma ReplayEnds(s: State, next: State, first: Lease, second: Lease)
    requires Inv(s) && s.operations == [Operation(Retrying, [first, second], 1)]
    requires next == s.(operations := [Operation(Done, [first, second], 2)])
    ensures Enabled(s, Finish(0, false, true)) && After(s, Finish(0, false, true)) == next && Inv(next)
    ensures Legal(next, []) && AfterAll(next, []) == next
  {
    assert s.operations[0 := next.operations[0]] == next.operations;
    StepKeepsInv(s, Finish(0, false, true));
  }

  /** One event in front of a run. */
  lemma Leads(s: State, e: Event, next: State, es: seq<Event>, end: State)
    requires Inv(s) && Enabled(s, e) && After(s, e) == next && Inv(next) && Legal(next, es) && AfterAll(next, es) == end
    ensures Legal(s, [e] + es) && AfterAll(s, [e] + es) == end
  {
    assert ([e] + es)[1..] == es;
  }

  /** It is executed only once exactly when, after its connection broke, the backend was
      closed meanwhile, or nobody had replaced the client and dialling failed. */
  lemma ExecutesOnceExactly(s: State, op: nat, dialled: bool)
    requires Inv(s) && Enabled(s, Reconnect(op, dialled))
    ensures |After(s, Reconnect(op, dialled)).operations[op].runs| == 1
            <==> s.shared.closed || (s.shared.generation == s.operations[op].runs[0].generation && !dialled)
  {
    assert RunsOk(s.operations[op]);
  }
}
