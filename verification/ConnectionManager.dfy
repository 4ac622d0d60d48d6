/** The connection manager: which profiles are connecting, connected or being closed, with
    the slow work (dialling, closing) done outside its mutex. */
module ConnectionManager {
  import opened Wrappers

  datatype Status = Connecting | Connected | Closing

  /** Sessions are numbered in the order in which the factory produced them. */
  datatype Entry = Entry(drive: string, status: Status, session: Option<nat>)

  type Table = map<string, Entry>

  predicate IsLower(c: char) {
    'a' <= c <= 'z'
  }

  /** strings.ToUpper, for the drive letters that a valid profile may name. */
  function Upper(s: string): (r: string)
    ensures |r| == |s| && (forall c :: c in r ==> !IsLower(c)) && ((forall c :: c in s ==> !IsLower(c)) ==> r == s)
  {
    seq(|s|, i requires 0 <= i < |s| => if IsLower(s[i]) then s[i] - 'a' + 'A' else s[i])
  }

  // ------------------------------------------- what the critical sections do

  predicate CanReserve(t: Table, id: string, drive: string) {
    id != "" && id !in t && forall j :: j in t ==> t[j].drive != Upper(drive)
  }

  function Reserved(t: Table, id: string, drive: string): Table {
    t[id := Entry(Upper(drive), Connecting, None)]
  }

  function Installed(t: Table, id: string, session: Option<nat>): Table
    requires id in t
  {
    if session.None? then t - {id} else t[id := t[id].(status := Connected, session := session)]
  }

  predicate CanClose(t: Table, id: string) {
    id in t && t[id].status == Connected
  }

  function CloseBegun(t: Table, id: string): Table
    requires id in t
  {
    t[id := t[id].(status := Closing)]
  }

  function CloseEnded(t: Table, id: string, ok: bool): Table
    requires id in t
  {
    if ok then t - {id} else t[id := t[id].(status := Connected)]
  }

  /** What the manager promises about its table at every moment. */
  ghost predicate TableOk(t: Table) {
    && (forall i, j :: i in t && j in t && i != j ==> t[i].drive != t[j].drive)
    && (forall i :: i in t ==> Upper(t[i].drive) == t[i].drive)
    && (forall i :: i in t ==> (t[i].status == Connecting <==> t[i].session.None?))
    && (forall i, j :: i in t && j in t && i != j && t[i].session.Some? ==> t[i].session != t[j].session)
  }

  // --------------------------------------------------------------- whole runs

  /** A call of Connect or Disconnect between its critical sections. */
  datatype Call =
    | Dialling(id: string)                              // the factory is at work
    | Dialled(id: string, result: Option<nat>)          // it returned a session or an error
    | InClose(id: string, session: nat)                 // Close or ForceClose is running
    | AfterClose(id: string, session: nat, ok: bool)
    | Returned

  datatype State = State(table: Table, calls: seq<Call>, produced: nat, closedOk: set<nat>)

  datatype Event =
    | Connect(id: string, drive: string)
    | FactoryReturns(call: nat, success: bool)
    | Install(call: nat)
    | Disconnect(id: string)                            // normal or forced
    | CloseReturns(call: nat, ok: bool)
    | EndClose(call: nat)

  predicate Enabled(s: State, e: Event) {
    match e
    case Connect(_, _) => true
    case FactoryReturns(c, _) => c < |s.calls| && s.calls[c].Dialling?
    case Install(c) => c < |s.calls| && s.calls[c].Dialled?
    case Disconnect(_) => true
    case CloseReturns(c, _) => c < |s.calls| && s.calls[c].InClose?
    case EndClose(c) => c < |s.calls| && s.calls[c].AfterClose?
  }

  ghost function After(s: State, e: Event): State
    requires Enabled(s, e) && Inv(s)
  {
    match e
    case Connect(id, drive) =>
      if CanReserve(s.table, id, drive) then
        s.(table := Reserved(s.table, id, drive), calls := s.calls + [Dialling(id)])
      else s.(calls := s.calls + [Returned])
    case FactoryReturns(c, success) =>
      s.(calls := s.calls[c := Dialled(s.calls[c].id, if success then Some(s.produced) else None)],
         produced := if success then s.produced + 1 else s.produced)
    case Install(c) =>
      WorksOnEntry(s, c);
      s.(table := Installed(s.table, s.calls[c].id, s.calls[c].result), calls := s.calls[c := Returned])
    case Disconnect(id) =>
      if CanClose(s.table, id) then
        s.(table := CloseBegun(s.table, id), calls := s.calls + [InClose(id, s.table[id].session.value)])
      else s.(calls := s.calls + [Returned])
    case CloseReturns(c, ok) =>
      s.(calls := s.calls[c := AfterClose(s.calls[c].id, s.calls[c].session, ok)],
         closedOk := if ok then s.closedOk + {s.calls[c].session} else s.closedOk)
    case EndClose(c) =>
      WorksOnEntry(s, c);
      s.(table := CloseEnded(s.table, s.calls[c].id, s.calls[c].ok), calls := s.calls[c := Returned])
  }

  /** The call fits the entry it works on. */
  predicate CallOk(t: Table, c: Call) {
    match c
    case Dialling(id) => id in t && t[id].status == Connecting
    case Dialled(id, _) => id in t && t[id].status == Connecting
    case InClose(id, session) => id in t && t[id].status == Closing && t[id].session == Some(session)
    case AfterClose(id, session, _) => id in t && t[id].status == Closing && t[id].session == Some(session)
    case Returned => true
  }

  predicate IsBusy(s: State, c: nat, id: string) {
    c < |s.calls| && !s.calls[c].Returned? && s.calls[c].id == id
  }

  /** The session is in the map, or on its way there. */
  ghost predicate Held(s: State, session: nat) {
    || (exists i :: i in s.table && s.table[i].session == Some(session))
    || (exists c :: 0 <= c < |s.calls| && s.calls[c].Dialled? && s.calls[c].result == Some(session))
  }

  ghost predicate Inv(s: State) {
    TableOk(s.table) && CallsOk(s) && SessionsOk(s)
  }

  ghost predicate SessionsOk(s: State) {
    && (forall i :: i in s.table && s.table[i].session.Some? ==> s.table[i].session.value < s.produced)
    && (forall c :: 0 <= c < |s.calls| && s.calls[c].Dialled? && s.calls[c].result.Some? ==>
          s.calls[c].result.value < s.produced
          && (forall i :: i in s.table ==> s.table[i].session != s.calls[c].result)
          && (forall b :: 0 <= b < |s.calls| && s.calls[b].Dialled? && b != c ==>
              s.calls[b].result != s.calls[c].result))
    && (forall c :: 0 <= c < |s.calls| && s.calls[c].AfterClose? && s.calls[c].ok ==> s.calls[c].session in s.closedOk)
    && (forall n: nat :: n < s.produced ==> n in s.closedOk || Held(s, n))
  }

  lemma WorksOnEntry(s: State, c: nat)
    requires Inv(s) && c < |s.calls| && !s.calls[c].Returned?
    ensures s.calls[c].id in s.table && CallOk(s.table, s.calls[c])
  {
    assert CallOk(s.table, s.calls[c]);
  }

  // -------------------------------------------------- every event keeps the invariant

  /** Every session known afterwards was known before, and none is lost that was not
      closed. */
  ghost predicate SameSessions(s: State, next: State) {
    && next.produced == s.produced && s.closedOk <= next.closedOk
    && (forall i :: i in next.table && next.table[i].session.Some? ==>
          i in s.table && next.table[i].session == s.table[i].session)
    && (forall c :: 0 <= c < |next.calls| && next.calls[c].Dialled? ==> c < |s.calls| && next.calls[c] == s.calls[c])
    && (forall c :: 0 <= c < |next.calls| && next.calls[c].AfterClose? && next.calls[c].ok ==>
          next.calls[c].session in next.closedOk)
    && (forall n: nat :: Held(s, n) ==> n in next.closedOk || Held(next, n))
  }

  lemma SessionsKept(s: State, next: State)
    requires SessionsOk(s) && SameSessions(s, next)
    ensures SessionsOk(next)
  {
    hide Held;
  }

  /** The part of the invariant that is about calls and entries. */
  ghost predicate CallsOk(s: State) {
    && (forall c :: 0 <= c < |s.calls| ==> CallOk(s.table, s.calls[c]))
    && (forall b, c, id :: IsBusy(s, b, id) && IsBusy(s, c, id) ==> b == c)
  }

  lemma ConnectKeepsInv(s: State, id: string, drive: string)
    requires Inv(s)
    ensures Inv(After(s, Connect(id, drive)))
  {
    hide SessionsOk, Held, TableOk, CallsOk, CanReserve, Reserved, IsBusy, CallOk;
    var next := After(s, Connect(id, drive));
    if CanReserve(s.table, id, drive) {
      ReservedTable(s.table, id, drive);
      ReservedCalls(s, next, id, drive);
    } else {
      RefusedCalls(s, next);
    }
    SessionsKept(s, next);
  }

  lemma ReservedTable(t: Table, id: string, drive: string)
    requires TableOk(t) && CanReserve(t, id, drive)
    ensures TableOk(Reserved(t, id, drive))
  {
  }

  lemma ReservedCalls(s: State, next: State, id: string, drive: string)
    requires CallsOk(s) && SessionsOk(s) && CanReserve(s.table, id, drive)
    requires next == s.(table := Reserved(s.table, id, drive), calls := s.calls + [Dialling(id)])
    ensures CallsOk(next) && SameSessions(s, next)
  {
    CallsGrow(s, next);
    forall c | 0 <= c < |s.calls|
      ensures CallOk(next.table, next.calls[c]) && !IsBusy(s, c, id)
    {
      assert CallOk(s.table, s.calls[c]);
    }
    HeldKept(s, next);
  }

  /** A refused call changes nothing. */
  lemma RefusedCalls(s: State, next: State)
    requires CallsOk(s) && SessionsOk(s) && next == s.(calls := s.calls + [Returned])
    ensures CallsOk(next) && SameSessions(s, next)
  {
    CallsGrow(s, next);
    HeldKept(s, next);
  }

  /** A call that has just begun does not disturb the others. */
  lemma CallsGrow(s: State, next: State)
    requires |next.calls| == |s.calls| + 1 && next.calls[..|s.calls|] == s.calls
    ensures forall c :: 0 <= c < |s.calls| ==> next.calls[c] == s.calls[c]
    ensures forall c: nat, id :: IsBusy(next, c, id) ==>
              IsBusy(s, c, id) || (c == |s.calls| && !next.calls[c].Returned?)
  {
    forall c | 0 <= c < |s.calls|
      ensures next.calls[c] == s.calls[c]
    {
      assert next.calls[..|s.calls|][c] == s.calls[c];
    }
  }

  lemma HeldKept(s: State, next: State)
    requires forall i :: i in s.table && s.table[i].session.Some? ==>
               i in next.table && next.table[i].session == s.table[i].session
    requires |s.calls| <= |next.calls| && forall c :: 0 <= c < |s.calls| && s.calls[c].Dialled? ==>
               next.calls[c] == s.calls[c]
    ensures forall n: nat :: Held(s, n) ==> Held(next, n)
  {
    forall n: nat | Held(s, n)
      ensures Held(next, n)
    {
      if i :| i in s.table && s.table[i].session == Some(n) {
        assert i in next.table && next.table[i].session == Some(n);
      } else {
        var c :| 0 <= c < |s.calls| && s.calls[c].Dialled? && s.calls[c].result == Some(n);
        assert next.calls[c].Dialled? && next.calls[c].result == Some(n);
      }
    }
  }

  lemma FactoryKeepsInv(s: State, c: nat, success: bool)
    requires Inv(s) && Enabled(s, FactoryReturns(c, success))
    ensures Inv(After(s, FactoryReturns(c, success)))
  {
    var next := After(s, FactoryReturns(c, success));
    assert CallOk(s.table, s.calls[c]);
    SameBusy(s, next, c);
    HeldKept(s, next);
    if success {
      assert next.calls[c].Dialled? && next.calls[c].result == Some(s.produced);
      assert Held(next, s.produced);
    }
  }

  /** The call moved on, but works on the same entry. */
  lemma SameBusy(s: State, next: State, c: nat)
    requires c < |s.calls| == |next.calls| && !s.calls[c].Returned? && !next.calls[c].Returned?
    requires next.calls[c].id == s.calls[c].id
    requires forall b :: 0 <= b < |s.calls| && b != c ==> next.calls[b] == s.calls[b]
    ensures forall b, id :: IsBusy(next, b, id) <==> IsBusy(s, b, id)
  {
  }

  lemma InstallKeepsInv(s: State, c: nat)
    requires Inv(s) && Enabled(s, Install(c))
    ensures Inv(After(s, Install(c)))
  {
    hide SessionsOk, Held, TableOk, CallsOk, Installed, IsBusy;
    var next := After(s, Install(c));
    WorksOnEntry(s, c);
    InstalledTable(s, c);
    OthersOk(s, next, c);
    InstalledSessions(s, next, c);
  }

  lemma InstalledTable(s: State, c: nat)
    requires Inv(s) && Enabled(s, Install(c)) && s.calls[c].id in s.table
    ensures var next := Installed(s.table, s.calls[c].id, s.calls[c].result);
            TableOk(next) && next - {s.calls[c].id} == s.table - {s.calls[c].id}
  {
  }

  lemma InstalledSessions(s: State, next: State, c: nat)
    requires Inv(s) && Enabled(s, Install(c)) && s.calls[c].id in s.table
    requires next == s.(table := Installed(s.table, s.calls[c].id, s.calls[c].result), calls := s.calls[c := Returned])
    ensures SessionsOk(next)
  {
    var id, result := s.calls[c].id, s.calls[c].result;
    assert CallOk(s.table, s.calls[c]);
    forall n: nat | Held(s, n)
      ensures Held(next, n)
    {
      if i :| i in s.table && s.table[i].session == Some(n) {
        assert i != id;
        assert i in next.table && next.table[i].session == Some(n);
      } else {
        var b :| 0 <= b < |s.calls| && s.calls[b].Dialled? && s.calls[b].result == Some(n);
        if b == c {
          assert id in next.table && next.table[id].session == Some(n);
        } else {
          assert next.calls[b].Dialled? && next.calls[b].result == Some(n);
        }
      }
    }
  }

  /** Calls at work on other entries still fit the table. */
  lemma OthersOk(s: State, next: State, c: nat)
    requires CallsOk(s) && c < |s.calls| && !s.calls[c].Returned?
    requires next.calls == s.calls[c := Returned] && next.table - {s.calls[c].id} == s.table - {s.calls[c].id}
    ensures CallsOk(next)
  {
    var id := s.calls[c].id;
    forall b | 0 <= b < |next.calls|
      ensures CallOk(next.table, next.calls[b])
    {
      if b != c && !s.calls[b].Returned? {
        assert IsBusy(s, b, s.calls[b].id) && IsBusy(s, c, id) && CallOk(s.table, s.calls[b]);
        assert s.calls[b].id in s.table - {id};
      }
    }
    assert forall b, busy :: IsBusy(next, b, busy) ==> IsBusy(s, b, busy);
  }

  lemma DisconnectKeepsInv(s: State, id: string)
    requires Inv(s)
    ensures Inv(After(s, Disconnect(id)))
  {
    hide SessionsOk, Held, TableOk, CallsOk, CloseBegun, IsBusy, CallOk;
    var next := After(s, Disconnect(id));
    if CanClose(s.table, id) {
      ClosingTable(s.table, id);
      ClosingCalls(s, next, id);
    } else {
      RefusedCalls(s, next);
    }
    SessionsKept(s, next);
  }

  lemma ClosingTable(t: Table, id: string)
    requires TableOk(t) && CanClose(t, id)
    ensures TableOk(CloseBegun(t, id)) && t[id].session.Some?
  {
  }

  lemma ClosingCalls(s: State, next: State, id: string)
    requires CallsOk(s) && SessionsOk(s) && CanClose(s.table, id) && s.table[id].session.Some?
    requires next == s.(table := CloseBegun(s.table, id), calls := s.calls + [InClose(id, s.table[id].session.value)])
    ensures CallsOk(next) && SameSessions(s, next)
  {
    CallsGrow(s, next);
    forall c | 0 <= c < |s.calls|
      ensures CallOk(next.table, next.calls[c]) && !IsBusy(s, c, id)
    {
      assert CallOk(s.table, s.calls[c]);
    }
    HeldKept(s, next);
  }

  lemma CloseReturnsKeepsInv(s: State, c: nat, ok: bool)
    requires Inv(s) && Enabled(s, CloseReturns(c, ok))
    ensures Inv(After(s, CloseReturns(c, ok)))
  {
    var next := After(s, CloseReturns(c, ok));
    assert CallOk(s.table, s.calls[c]);
    SameBusy(s, next, c);
    HeldKept(s, next);
  }

  lemma EndCloseKeepsInv(s: State, c: nat)
    requires Inv(s) && Enabled(s, EndClose(c))
    ensures Inv(After(s, EndClose(c)))
  {
    hide SessionsOk, Held, TableOk, CallsOk, CloseEnded, IsBusy;
    var next := After(s, EndClose(c));
    WorksOnEntry(s, c);
    EndedTable(s.table, s.calls[c]);
    OthersOk(s, next, c);
    EndedSessions(s, next, c);
    SessionsKept(s, next);
  }

  lemma EndedTable(t: Table, call: Call)
    requires TableOk(t) && call.AfterClose? && CallOk(t, call)
    ensures TableOk(CloseEnded(t, call.id, call.ok))
    ensures CloseEnded(t, call.id, call.ok) - {call.id} == t - {call.id}
  {
  }

  lemma EndedSessions(s: State, next: State, c: nat)
    requires Inv(s) && Enabled(s, EndClose(c)) && s.calls[c].id in s.table
    requires next == s.(table := CloseEnded(s.table, s.calls[c].id, s.calls[c].ok), calls := s.calls[c := Returned])
    ensures SameSessions(s, next)
  {
    assert CallOk(s.table, s.calls[c]);
    forall n: nat | Held(s, n) && !(s.calls[c].ok && n == s.calls[c].session)
      ensures Held(next, n)
    {
      if i :| i in s.table && s.table[i].session == Some(n) {
        assert i in next.table && next.table[i].session == Some(n);
      } else {
        var b :| 0 <= b < |s.calls| && s.calls[b].Dialled? && s.calls[b].result == Some(n);
        assert next.calls[b].Dialled? && next.calls[b].result == Some(n);
      }
    }
  }

  lemma StepKeepsInv(s: State, e: Event)
    requires Inv(s) && Enabled(s, e)
    ensures Inv(After(s, e))
  {
    match e
    case Connect(id, drive) => ConnectKeepsInv(s, id, drive);
    case FactoryReturns(c, success) => FactoryKeepsInv(s, c, success);
    case Install(c) => InstallKeepsInv(s, c);
    case Disconnect(id) => DisconnectKeepsInv(s, id);
    case CloseReturns(c, ok) => CloseReturnsKeepsInv(s, c, ok);
    case EndClose(c) => EndCloseKeepsInv(s, c);
  }

  ghost predicate Legal(s: State, es: seq<Event>)
    requires Inv(s)
    decreases |es|
  {
    es != [] ==> Enabled(s, es[0]) && (StepKeepsInv(s, es[0]); Legal(After(s, es[0]), es[1..]))
  }

  ghost function AfterAll(s: State, es: seq<Event>): State
    requires Inv(s) && Legal(s, es)
    decreases |es|
  {
    if es == [] then s else StepKeepsInv(s, es[0]); AfterAll(After(s, es[0]), es[1..])
  }

  /** In every interleaving: drives are distinct, their case aside, an entry has no session
      exactly while it is connecting, closes of one session never overlap, and every session
      the factory ever produced is in the map, about to enter it, or was closed successfully. */
  lemma ManagerIsSafe(s: State, es: seq<Event>, b: nat, c: nat, n: nat)
    requires Inv(s) && Legal(s, es)
    ensures var end := AfterAll(s, es);
            && (forall i, j :: i in end.table && j in end.table && i != j ==>
                  Upper(end.table[i].drive) != Upper(end.table[j].drive))
            && (forall i :: i in end.table ==> (end.table[i].session.None? <==> end.table[i].status == Connecting))
            && (b < c < |end.calls| && end.calls[b].InClose? && end.calls[c].InClose? ==>
                  end.calls[b].session != end.calls[c].session)
            && (n < end.produced ==> n in end.closedOk || Held(end, n))
  {
    RunKeepsInv(s, es);
    var end := AfterAll(s, es);
    if b < c < |end.calls| && end.calls[b].InClose? && end.calls[c].InClose? {
      assert CallOk(end.table, end.calls[b]) && CallOk(end.table, end.calls[c]);
      assert IsBusy(end, b, end.calls[b].id) && IsBusy(end, c, end.calls[c].id);
    }
  }

  lemma {:induction false} RunKeepsInv(s: State, es: seq<Event>)
    requires Inv(s) && Legal(s, es)
    ensures Inv(AfterAll(s, es))
    decreases |es|
  {
    if es != [] {
      StepKeepsInv(s, es[0]);
      RunKeepsInv(After(s, es[0]), es[1..]);
    }
  }

  /** Nobody has the profile's id, and nobody its drive, whatever its case. */
  ghost predicate BothFree(t: Table, id: string, drive: string) {
    id != "" && id !in t && forall j :: j in t ==> Upper(t[j].drive) != Upper(drive)
  }

  lemma {:induction false} RunStep(s: State, e: Event, es: seq<Event>)
    requires Inv(s) && Enabled(s, e) && Inv(After(s, e)) && Legal(After(s, e), es)
    ensures Legal(s, [e] + es) && AfterAll(s, [e] + es) == AfterAll(After(s, e), es)
  {
    assert ([e] + es)[1..] == es;
  }

  /** A connect from any state, if nothing comes between its critical sections: when id and
      drive are free it ends with the session the factory produced, or with the table it
      began with; otherwise it changes nothing at all. */
  lemma ConnectExactly(s: State, id: string, drive: string, success: bool)
    requires Inv(s)
    ensures var c := |s.calls|;
            if BothFree(s.table, id, drive) then
              var run := [Connect(id, drive)] + [FactoryReturns(c, success)] + [Install(c)];
              && Legal(s, run)
              && AfterAll(s, run)
                 == s.(table := if success then s.table[id := Entry(Upper(drive), Connected, Some(s.produced))]
                                else s.table,
                       calls := s.calls + [Returned], produced := s.produced + if success then 1 else 0)
            else After(s, Connect(id, drive)) == s.(calls := s.calls + [Returned])
  {
    if BothFree(s.table, id, drive) {
      ConnectRun(s, id, drive, success);
    }
  }

  lemma ConnectRun(s: State, id: string, drive: string, success: bool)
    requires Inv(s) && CanReserve(s.table, id, drive)
    ensures var c := |s.calls|;
            var run := [Connect(id, drive)] + [FactoryReturns(c, success)] + [Install(c)];
            && Legal(s, run)
            && AfterAll(s, run)
               == s.(table := if success then s.table[id := Entry(Upper(drive), Connected, Some(s.produced))]
                              else s.table,
                     calls := s.calls + [Returned], produced := s.produced + if success then 1 else 0)
  {
    hide Inv, CanReserve, Upper, TableOk, Legal, AfterAll, Reserved, Installed;
    var c := |s.calls|;
    StepKeepsInv(s, Connect(id, drive));
    var dialling := After(s, Connect(id, drive));
    StepKeepsInv(dialling, FactoryReturns(c, success));
    var dialled := After(dialling, FactoryReturns(c, success));
    StepKeepsInv(dialled, Install(c));
    FreshSession(s, id, drive);
    assert After(dialled, Install(c)).calls == s.calls + [Returned];
    RunOfThree(s, Connect(id, drive), FactoryReturns(c, success), Install(c));
  }

  lemma FreshSession(s: State, id: string, drive: string)
    requires Inv(s) && CanReserve(s.table, id, drive)
    ensures Installed(Reserved(s.table, id, drive), id, None) == s.table
    ensures Installed(Reserved(s.table, id, drive), id, Some(s.produced))
            == s.table[id := Entry(Upper(drive), Connected, Some(s.produced))]
  {
    hide Held, CallsOk;
    ReservationKeepsTable(s.table, id, drive, s.produced);
  }

  /** A detach, likewise: a connected session is closed and leaves the table, or refuses and
      stays as it was; anything else is left alone. */
  lemma DisconnectExactly(s: State, id: string, ok: bool)
    requires Inv(s)
    ensures var c := |s.calls|;
            if id in s.table && s.table[id].status == Connected then
              var run := [Disconnect(id)] + [CloseReturns(c, ok)] + [EndClose(c)];
              && Legal(s, run) && s.table[id].session.Some?
              && AfterAll(s, run)
                 == s.(table := if ok then s.table - {id} else s.table, calls := s.calls + [Returned],
                       closedOk := s.closedOk + if ok then {s.table[id].session.value} else {})
            else After(s, Disconnect(id)) == s.(calls := s.calls + [Returned])
  {
    if id in s.table && s.table[id].status == Connected {
      ConnectedHasSession(s, id);
      DisconnectRun(s, id, ok);
    }
  }

  lemma ConnectedHasSession(s: State, id: string)
    requires Inv(s) && CanClose(s.table, id)
    ensures s.table[id].session.Some? && TableOk(s.table)
  {
    hide CallsOk, SessionsOk;
  }

  lemma DisconnectRun(s: State, id: string, ok: bool)
    requires Inv(s) && CanClose(s.table, id) && s.table[id].session.Some? && TableOk(s.table)
    ensures var c := |s.calls|;
            var run := [Disconnect(id)] + [CloseReturns(c, ok)] + [EndClose(c)];
            && Legal(s, run)
            && AfterAll(s, run)
               == s.(table := if ok then s.table - {id} else s.table, calls := s.calls + [Returned],
                     closedOk := s.closedOk + if ok then {s.table[id].session.value} else {})
  {
    hide Inv, CanClose, TableOk, Legal, AfterAll, CloseBegun, CloseEnded;
    var c := |s.calls|;
    StepKeepsInv(s, Disconnect(id));
    var closing := After(s, Disconnect(id));
    StepKeepsInv(closing, CloseReturns(c, ok));
    var closed := After(closing, CloseReturns(c, ok));
    StepKeepsInv(closed, EndClose(c));
    DetachedTable(s.table, id, ok);
    assert After(closed, EndClose(c)).calls == s.calls + [Returned];
    RunOfThree(s, Disconnect(id), CloseReturns(c, ok), EndClose(c));
  }

  lemma RunOfThree(s: State, a: Event, b: Event, c: Event)
    requires Inv(s) && Enabled(s, a) && Inv(After(s, a)) && Enabled(After(s, a), b) && Inv(After(After(s, a), b))
    requires Enabled(After(After(s, a), b), c) && Inv(After(After(After(s, a), b), c))
    ensures Legal(s, [a] + [b] + [c]) && AfterAll(s, [a] + [b] + [c]) == After(After(After(s, a), b), c)
  {
    var two := After(After(s, a), b);
    RunStep(two, c, []);
    RunStep(After(s, a), b, [c] + []);
    RunStep(s, a, [b] + ([c] + []));
    assert [a] + [b] + [c] == [a] + ([b] + ([c] + []));
  }

  lemma StartsSafe()
    ensures Inv(State(map[], [], 0, {}))
  {
  }

  /** A reservation that is filled or given up again. */
  lemma ReservationKeepsTable(t: Table, id: string, drive: string, session: nat)
    requires TableOk(t) && CanReserve(t, id, drive)
    requires forall i :: i in t && t[i].session.Some? ==> t[i].session.value < session
    ensures Installed(Reserved(t, id, drive), id, None) == t
    ensures var filled := Installed(Reserved(t, id, drive), id, Some(session));
            filled == t[id := Entry(Upper(drive), Connected, Some(session))] && TableOk(filled)
  {
  }

  /** A close that is begun and ended again. */
  lemma DetachedTable(t: Table, id: string, ok: bool)
    requires TableOk(t) && CanClose(t, id)
    ensures id in CloseBegun(t, id) && TableOk(t - {id})
    ensures CloseEnded(CloseBegun(t, id), id, ok) == if ok then t - {id} else t
  {
  }

  // ----------------------------------------------------------------- the object

  /** What was done to a profile: a dial, a normal or forced detach, or a question to the
      user. */
  datatype Attempt =
    | Dial(id: string, ok: bool)
    | Tried(id: string, ok: bool)
    | Forced(id: string, ok: bool)
    | Asked(id: string, yes: bool)

  lemma KeysWithout(before: Table, after: Table, id: string)
    requires after == before - {id} || (after == before && id in before)
    ensures forall i :: i != id ==> (i in after <==> i in before)
    ensures id in after ==> after == before
    ensures forall i :: i in after ==> i in before && after[i] == before[i]
  {
  }

  /** A normal detach of this profile is on the log, with its outcome. */
  ghost predicate WasTried(log: seq<Attempt>, id: string, refused: set<string>) {
    Tried(id, id !in refused) in log
  }

  lemma TriedToo(log: seq<Attempt>, id: string, closed: bool, refused: set<string>)
    requires id !in refused
    ensures var now := if closed then refused else refused + {id};
            && WasTried(log + [Tried(id, closed)], id, now)
            && forall other :: other != id && WasTried(log, other, refused) ==>
                 WasTried(log + [Tried(id, closed)], other, now)
  {
  }

  class Manager {
    var entries: Table
    var errors: set<string>      // profiles whose last attempt failed
    var produced: nat
    ghost var log: seq<Attempt>  // every dial, detach and question

    constructor ()
      ensures Valid() && entries == map[] && errors == {} && produced == 0 && log == []
      ensures Inv(State(entries, [], produced, {}))
    {
      entries, errors, produced, log := map[], {}, 0, [];
      new;
      StartsSafe();
    }

    ghost predicate Valid()
      reads this`entries, this`produced
    {
      TableOk(entries) && forall i :: i in entries && entries[i].session.Some? ==> entries[i].session.value < produced
    }

    method DriveIsFree(drive: string) returns (free: bool)
      ensures free <==> forall j :: j in entries ==> entries[j].drive != drive
    {
      var rest := entries.Keys;
      while rest != {}
        invariant rest <= entries.Keys
        invariant forall j :: j in entries && j !in rest ==> entries[j].drive != drive
        decreases |rest|
      {
        var j :| j in rest;
        if entries[j].drive == drive {
          return false;
        }
        rest := rest - {j};
      }
      return true;
    }

    /** Connect, when nothing else is under way: the factory is asked exactly when the profile
        is valid and its id and drive, whatever its case, are free. Only a call that reached
        the factory, or brought an invalid profile, changes what is known of its errors. */
    method Connect(id: string, drive: string, validProfile: bool) returns (ok: bool)
      requires Valid()
      modifies this`entries, this`errors, this`produced, this`log
      ensures Valid()
      ensures log == old(log) + if validProfile && BothFree(old(entries), id, drive) then [Dial(id, ok)] else []
      ensures errors == if ok then old(errors) - {id}
                        else if id != "" && (!validProfile || BothFree(old(entries), id, drive)) then old(errors) + {id}
                        else old(errors)
      ensures ok ==>
                && validProfile && BothFree(old(entries), id, drive)
                && entries == old(entries)[id := Entry(Upper(drive), Connected, Some(old(produced)))]
                && produced == old(produced) + 1
      ensures !ok ==> entries == old(entries) && produced == old(produced)
    {
      if id == "" {
        return false;
      }
      if !validProfile {
        errors := errors + {id};
        return false;
      }
      if id in entries {
        return false;
      }
      var free := DriveIsFree(Upper(drive));
      if !free {
        return false;
      }
      ReservationKeepsTable(entries, id, drive, produced);
      hide TableOk, Installed, Reserved, Upper;
      entries := Reserved(entries, id, drive);
      var success: bool := *;
      log := log + [Dial(id, success)];
      var session := if success then Some(produced) else None;
      produced := if success then produced + 1 else produced;
      entries := Installed(entries, id, session);
      if success {
        errors := errors - {id};
        return true;
      }
      errors := errors + {id};
      return false;
    }

    /** disconnect, when nothing else is under way: a refused close leaves the entry as it
        was. */
    method Disconnect(id: string, force: bool) returns (ok: bool)
      requires Valid()
      modifies this`entries, this`errors, this`log
      ensures Valid()
      ensures ok ==> entries == old(entries) - {id} && (id in old(entries) ==> old(entries)[id].status == Connected)
      ensures !ok ==> entries == old(entries) && id in entries
      ensures errors == if id !in old(entries) || old(entries)[id].status != Connected then old(errors)
                        else if ok then old(errors) - {id} else old(errors) + {id}
      ensures log == old(log) + [if force then Forced(id, ok) else Tried(id, ok)]
    {
      hide TableOk, CloseBegun, CloseEnded;
      if id !in entries {
        assert entries - {id} == entries;
        ok := true;
      } else if entries[id].status != Connected {
        ok := false;
      } else {
        ok := *;
        DetachedTable(entries, id, ok);
        entries := CloseBegun(entries, id);
        entries := CloseEnded(entries, id, ok);
        errors := if ok then errors - {id} else errors + {id};
      }
      log := log + [if force then Forced(id, ok) else Tried(id, ok)];
    }

    /** The question whether a drive that failed to detach may be forced; at the end of a
        Windows session the answer is always yes. */
    method Confirm(id: string, sessionEnd: bool) returns (yes: bool)
      modifies this`log
      ensures (sessionEnd ==> yes) && log == old(log) + [Asked(id, yes)]
    {
      yes := *;
      yes := yes || sessionEnd;
      log := log + [Asked(id, yes)];
    }

    /** CloseAll tries a normal close of every session, once, and leaves exactly those that
        refused it. */
    method CloseAll() returns (ok: bool, refused: set<string>)
      requires Valid()
      modifies this`entries, this`errors, this`log
      ensures Valid() && entries.Keys == refused && (ok <==> refused == {})
      ensures old(log) <= log && |log| == |old(log)| + |old(entries)|
      ensures forall id :: id in old(entries) ==> WasTried(log[|old(log)|..], id, refused)
      ensures forall id :: id in entries ==> id in old(entries) && entries[id] == old(entries)[id]
    {
      hide *;
      var ids := entries.Keys;
      refused := {};
      ghost var tried: seq<Attempt> := [];
      while ids != {}
        invariant Valid() && ids <= old(entries).Keys
        invariant forall id :: id in entries <==> id in ids || id in refused
        invariant forall id :: id in ids ==> id !in refused
        invariant forall id :: id in entries ==> id in old(entries) && entries[id] == old(entries)[id]
        invariant log == old(log) + tried && |tried| + |ids| == |old(entries)|
        invariant forall id :: id in old(entries) && id !in ids ==> WasTried(tried, id, refused)
        decreases |ids|
      {
        var id :| id in ids;
        ids := ids - {id};
        var closed := CloseOne(id);
        TriedToo(tried, id, closed, refused);
        tried := tried + [Tried(id, closed)];
        if !closed {
          refused := refused + {id};
        }
      }
      ok := refused == {};
    }

    /** One turn of CloseAll. */
    method CloseOne(id: string) returns (closed: bool)
      requires Valid() && id in entries
      modifies this`entries, this`errors, this`log
      ensures Valid() && (closed <==> id !in entries) && log == old(log) + [Tried(id, closed)]
      ensures forall i :: i != id ==> (i in entries <==> i in old(entries))
      ensures forall i :: i in entries ==> i in old(entries) && entries[i] == old(entries)[i]
    {
      hide *;
      closed := Disconnect(id, false);
      KeysWithout(old(entries), entries, id);
    }
  }

  // ------------------------------------------------------- disconnecting profiles

  datatype Detach = Detached | Declined | StillThere

  /** What was done to one profile: a normal detach, the question if that failed, and a
      forced one if the answer was yes. */
  ghost predicate Carried(id: string, trail: seq<Attempt>, end: Detach) {
    match end
    case Detached => trail == [Tried(id, true)] || trail == [Tried(id, false), Asked(id, true), Forced(id, true)]
    case Declined => trail == [Tried(id, false), Asked(id, false)]
    case StillThere => trail == [Tried(id, false), Asked(id, true), Forced(id, false)]
  }

  ghost function Flat(trails: seq<seq<Attempt>>): seq<Attempt> {
    if trails == [] then [] else Flat(trails[..|trails| - 1]) + trails[|trails| - 1]
  }

  /** The profiles that came to this end, in order. */
  ghost function Those(profiles: seq<string>, ends: seq<Detach>, end: Detach): seq<string>
    requires |profiles| == |ends|
  {
    if ends == [] then []
    else
      var last := |ends| - 1;
      Those(profiles[..last], ends[..last], end) + if ends[last] == end then [profiles[last]] else []
  }

  /** Whoever was not detached is among those who declined or failed. */
  lemma {:induction false} NoneLeft(profiles: seq<string>, ends: seq<Detach>, i: nat)
    requires |profiles| == |ends| && i < |ends|
    ensures ends[i] == Declined ==> profiles[i] in Those(profiles, ends, Declined)
    ensures ends[i] == StillThere ==> profiles[i] in Those(profiles, ends, StillThere)
  {
    var last := |ends| - 1;
    if i < last {
      NoneLeft(profiles[..last], ends[..last], i);
    }
  }

  /** disconnectProfiles: one profile after the other is detached, each forced only right
      after its normal detach failed and the user said yes; at the end of a Windows session
      every question is answered yes. */
  method DisconnectProfiles(manager: Manager, profiles: seq<string>, sessionEnd: bool)
    returns (canceled: seq<string>, failed: seq<string>, ghost trails: seq<seq<Attempt>>, ghost ends: seq<Detach>)
    requires manager.Valid()
    modifies manager`entries, manager`errors, manager`log
    ensures manager.Valid() && |trails| == |ends| == |profiles|
    ensures forall i :: 0 <= i < |profiles| ==> Carried(profiles[i], trails[i], ends[i])
    ensures manager.log == old(manager.log) + Flat(trails)
    ensures canceled == Those(profiles, ends, Declined) && failed == Those(profiles, ends, StillThere)
    ensures forall i :: 0 <= i < |profiles| ==>
              profiles[i] !in manager.entries || profiles[i] in canceled || profiles[i] in failed
    ensures forall id :: id in old(manager.entries) && id !in profiles ==>
              id in manager.entries && manager.entries[id] == old(manager.entries)[id]
    ensures forall id :: id in manager.entries ==> id in old(manager.entries)
    ensures sessionEnd ==> canceled == []
  {
    hide *;
    canceled, failed, trails, ends := [], [], [], [];
    NothingYet(manager.log);
    for n := 0 to |profiles|
      invariant manager.Valid() && |trails| == |ends| == n
      invariant forall i :: 0 <= i < n ==> Carried(profiles[i], trails[i], ends[i])
      invariant manager.log == old(manager.log) + Flat(trails)
      invariant canceled == Those(profiles[..n], ends, Declined) && failed == Those(profiles[..n], ends, StillThere)
      invariant forall i :: 0 <= i < n ==> (ends[i] == Detached ==> profiles[i] !in manager.entries)
      invariant forall id :: id in old(manager.entries) && id !in profiles ==>
                  id in manager.entries && manager.entries[id] == old(manager.entries)[id]
      invariant forall id :: id in manager.entries ==> id in old(manager.entries)
      invariant sessionEnd ==> canceled == []
    {
      var id := profiles[n];
      var end;
      ghost var trail;
      end, trail := DisconnectOne(manager, id, sessionEnd);
      OneMore(profiles, ends, n, end);
      FlatGrows(trails, trail);
      canceled := if end == Declined then canceled + [id] else canceled;
      failed := if end == StillThere then failed + [id] else failed;
      trails, ends := trails + [trail], ends + [end];
    }
    assert profiles[..|profiles|] == profiles;
    forall i | 0 <= i < |profiles|
      ensures profiles[i] !in manager.entries || profiles[i] in canceled || profiles[i] in failed
    {
      NoneLeft(profiles, ends, i);
    }
  }

  lemma NothingYet(log: seq<Attempt>)
    ensures log == log + Flat([]) && forall end :: Those([], [], end) == []
  {
  }

  lemma FlatGrows(trails: seq<seq<Attempt>>, trail: seq<Attempt>)
    ensures Flat(trails + [trail]) == Flat(trails) + trail
  {
    assert (trails + [trail])[..|trails|] == trails;
  }

  lemma OneMore(profiles: seq<string>, ends: seq<Detach>, n: nat, end: Detach)
    requires |ends| == n < |profiles|
    ensures forall e :: Those(profiles[..n + 1], ends + [end], e)
                        == Those(profiles[..n], ends, e) + if end == e then [profiles[n]] else []
  {
    assert profiles[..n + 1][..n] == profiles[..n] && (ends + [end])[..n] == ends;
  }

  /** One profile: a normal detach, and a forced one if that failed and the user agrees. */
  method DisconnectOne(manager: Manager, id: string, sessionEnd: bool)
    returns (end: Detach, ghost trail: seq<Attempt>)
    requires manager.Valid()
    modifies manager`entries, manager`errors, manager`log
    ensures manager.Valid() && manager.log == old(manager.log) + trail && Carried(id, trail, end)
    ensures end == Detached <==> id !in manager.entries
    ensures forall i :: i != id ==> (i in manager.entries <==> i in old(manager.entries))
    ensures forall i :: i in manager.entries ==>
              i in old(manager.entries) && manager.entries[i] == old(manager.entries)[i]
    ensures sessionEnd ==> end != Declined
  {
    hide TableOk;
    var ok := manager.Disconnect(id, false);
    KeysWithout(old(manager.entries), manager.entries, id);
    end, trail := Detached, [Tried(id, ok)];
    if !ok {
      var yes := manager.Confirm(id, sessionEnd);
      trail := trail + [Asked(id, yes)];
      end := Declined;
      if yes {
        ok := manager.Disconnect(id, true);
        KeysWithout(old(manager.entries), manager.entries, id);
        trail := trail + [Forced(id, ok)];
        end := if ok then Detached else StillThere;
      }
    }
  }
}
