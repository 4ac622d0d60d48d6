/** The FTP backend's control connection: one mutex, a probe after anything that may have
    left a reply unread, and a reconnect that replaces the connection. The ghost trace
    records every command sent and every reply read, on every connection. */
module FtpBackend {
  import opened Wrappers
  import opened Paths

  datatype Kind = NoOp | Quit | GetEntry | List | Retr | Stor | Mutation

  /** What an accepted answer carried. */
  datatype Load = OneEntry(item: Item) | Listing(items: seq<Item>) | Stream

  datatype Event =
    | Command(connection: nat, kind: Kind)
    | ReplyRead(connection: nat, answer: Answer)
    | Carried(connection: nat, load: Load)

  type Trace = seq<Event>

  /** Broken is what isConnectionError recognises; Refused is every other error. */
  datatype Answer = Accepted | Refused | Broken

  predicate IsProbe(kind: Kind) {
    kind == NoOp || kind == Quit
  }

  /** Commands sent on the connection whose reply has not been read. */
  function Unread(trace: Trace, connection: nat): int {
    if trace == [] then 0
    else
      Unread(trace[..|trace| - 1], connection)
      + match trace[|trace| - 1]
        case Command(c, _) => if c == connection then 1 else 0
        case ReplyRead(c, _) => if c == connection then -1 else 0
        case Carried(_, _) => 0
  }

  /** Section 5.4 of RFC 959: a command is sent only when the one before it has had its
      reply. The probe and the farewell are exempt. */
  ghost predicate Disciplined(trace: Trace) {
    trace != [] ==>
      && Disciplined(trace[..|trace| - 1])
      && var last := trace[|trace| - 1];
         last.Command? && !IsProbe(last.kind) ==> Unread(trace[..|trace| - 1], last.connection) == 0
  }

  /** A reply is read only for a command that was sent, and an answer carries something only
      where it was a positive reply, the data of a listing or an opened stream. */
  ghost predicate Sane(trace: Trace) {
    trace != [] ==>
      && Sane(trace[..|trace| - 1])
      && var last := trace[|trace| - 1];
         && (last.ReplyRead? ==> Unread(trace[..|trace| - 1], last.connection) > 0)
         && (last.Carried? ==> CanCarry(trace[..|trace| - 1], last.connection, last.load))
  }

  predicate CanCarry(trace: Trace, connection: nat, load: Load) {
    && trace != []
    && (|| trace[|trace| - 1] == ReplyRead(connection, Accepted)
        || (load.Listing? && trace[|trace| - 1] == Command(connection, List))
        || (load.Stream? && trace[|trace| - 1] == Command(connection, Retr)))
  }

  /** How many answers carried something. */
  function Heard(trace: Trace): nat {
    if trace == [] then 0
    else Heard(trace[..|trace| - 1]) + if trace[|trace| - 1].Carried? then 1 else 0
  }

  /** Some reply on the connection was read by a later command than the one it answers. */
  predicate Late(trace: Trace, connection: nat) {
    && trace != []
    && var front, last := trace[..|trace| - 1], trace[|trace| - 1];
       Late(front, connection) || (last.ReplyRead? && last.connection == connection && Unread(front, connection) > 1)
  }

  function CountOf(trace: Trace, kind: Kind): nat {
    if trace == [] then 0
    else CountOf(trace[..|trace| - 1], kind)
         + if trace[|trace| - 1].Command? && trace[|trace| - 1].kind == kind then 1 else 0
  }

  lemma Appended(trace: Trace, e: Event)
    ensures forall c :: Unread(trace + [e], c)
                        == Unread(trace, c)
                           + (if e.connection != c || e.Carried? then 0 else if e.Command? then 1 else -1)
    ensures Heard(trace + [e]) == Heard(trace) + if e.Carried? then 1 else 0
    ensures forall k :: CountOf(trace + [e], k) == CountOf(trace, k) + if e.Command? && e.kind == k then 1 else 0
    ensures Sane(trace + [e]) <==>
              && Sane(trace) && (e.ReplyRead? ==> Unread(trace, e.connection) > 0)
              && (e.Carried? ==> CanCarry(trace, e.connection, e.load))
    ensures forall c :: Late(trace + [e], c)
                        <==> Late(trace, c) || (e.ReplyRead? && e.connection == c && Unread(trace, c) > 1)
    ensures Disciplined(trace + [e]) <==>
              Disciplined(trace) && (e.Command? && !IsProbe(e.kind) ==> Unread(trace, e.connection) == 0)
  {
    assert (trace + [e])[..|trace|] == trace;
  }

  lemma {:induction false} NeverNegative(trace: Trace, connection: nat)
    requires Sane(trace)
    ensures Unread(trace, connection) >= 0
    decreases |trace|
  {
    if trace != [] {
      NeverNegative(trace[..|trace| - 1], connection);
    }
  }

  /** In a disciplined trace commands and replies alternate: between a command and a later
      one on the same connection, other than a probe, a reply was read. */
  lemma {:induction false} CommandsAlternate(trace: Trace, i: nat, j: nat)
    requires Sane(trace) && Disciplined(trace)
    requires i < j < |trace| && trace[i].Command? && trace[j].Command?
    requires trace[j].kind != NoOp && trace[j].kind != Quit
    requires trace[i].connection == trace[j].connection
    ensures exists k :: i < k < j && trace[k].ReplyRead? && trace[k].connection == trace[j].connection
    decreases |trace|
  {
    var front := trace[..|trace| - 1];
    if j < |front| {
      CommandsAlternate(front, i, j);
      var k :| i < k < j && front[k].ReplyRead? && front[k].connection == front[j].connection;
      assert trace[k] == front[k];
    } else {
      Answered(front, i);
    }
  }

  lemma {:induction false} Answered(trace: Trace, i: nat)
    requires Sane(trace) && i < |trace| && trace[i].Command? && Unread(trace, trace[i].connection) <= 0
    ensures exists k :: i < k < |trace| && trace[k].ReplyRead? && trace[k].connection == trace[i].connection
    decreases |trace|
  {
    var front, last := trace[..|trace| - 1], trace[|trace| - 1];
    NeverNegative(front, trace[i].connection);
    if !(last.ReplyRead? && last.connection == trace[i].connection) {
      assert i < |front|;
      Answered(front, i);
      var k :| i < k < |front| && front[k].ReplyRead? && front[k].connection == front[i].connection;
      assert trace[k] == front[k];
    }
  }

  /** Where no reply came late, each one answers the command sent last on its connection. */
  lemma {:induction false} PromptRepliesMatch(trace: Trace, j: nat)
    requires Sane(trace) && j < |trace| && trace[j].ReplyRead? && !Late(trace, trace[j].connection)
    ensures exists i :: 0 <= i < j && LastCommand(trace[..j], i, trace[j].connection)
    decreases |trace|
  {
    var front, c := trace[..|trace| - 1], trace[j].connection;
    if j < |front| {
      PromptRepliesMatch(front, j);
      assert front[..j] == trace[..j];
    } else {
      assert front == trace[..j];
      LastIsCommand(front, c);
    }
  }

  /** The last command or reply on the connection is the command at i. */
  ghost predicate LastCommand(trace: Trace, i: nat, connection: nat) {
    && i < |trace| && trace[i].Command? && trace[i].connection == connection
    && forall k :: i < k < |trace| ==> trace[k].connection != connection || trace[k].Carried?
  }

  lemma {:induction false} LastIsCommand(trace: Trace, connection: nat)
    requires Sane(trace) && !Late(trace, connection) && Unread(trace, connection) == 1
    ensures exists i :: 0 <= i < |trace| && LastCommand(trace, i, connection)
    decreases |trace|
  {
    var front, last := trace[..|trace| - 1], trace[|trace| - 1];
    if last.connection != connection || last.Carried? {
      LastIsCommand(front, connection);
      var i :| 0 <= i < |front| && LastCommand(front, i, connection);
      assert LastCommand(trace, i, connection);
    } else {
      assert LastCommand(trace, |front|, connection);
    }
  }

  // ------------------------------------------------------------ the server's answers

  datatype Item = Item(name: string, size: nat, folder: bool)

  /** entryFromFTP: sizes above the largest int64 are reported as that. */
  function EntryOf(item: Item): (e: Item)
    ensures e.name == item.name && e.folder == item.folder && e.size <= item.size
    ensures e.size == item.size <= 9_223_372_036_854_775_807 || e.size == 9_223_372_036_854_775_807 < item.size
  {
    item.(size := if item.size > MAX_INT64 then MAX_INT64 else item.size)
  }

  const MAX_INT64 := 0x7FFF_FFFF_FFFF_FFFF

  datatype StatResult = Entry(item: Item) | Missing | Unknown

  /** What Stat may conclude from a direct answer or from the listing of the parent. */
  ghost predicate Concludes(r: StatResult, direct: Option<Item>, listed: Option<seq<Item>>, name: string) {
    match r
    case Entry(item) =>
      || (direct.Some? && item == EntryOf(direct.value))
      || (direct.None? && listed.Some? && exists i: nat ::
            FirstNamed(listed.value, i, name) && item == EntryOf(listed.value[i]))
    case Missing => direct.None? && listed.Some? && forall i :: 0 <= i < |listed.value| ==> listed.value[i].name != name
    case Unknown => direct.None? && listed.None?
  }

  ghost predicate FirstNamed(items: seq<Item>, i: nat, name: string) {
    i < |items| && items[i].name == name && forall j :: 0 <= j < i ==> items[j].name != name
  }

  /** The loop over the parent's listing. */
  method Search(items: seq<Item>, name: string) returns (r: StatResult)
    ensures Concludes(r, None, Some(items), name)
  {
    for i := 0 to |items|
      invariant forall j :: 0 <= j < i ==> items[j].name != name
    {
      if items[i].name == name {
        assert FirstNamed(items, i, name);
        return Entry(EntryOf(items[i]));
      }
    }
    return Missing;
  }

  function Visible(items: seq<Item>): seq<Item> {
    if items == [] then []
    else Visible(items[..|items| - 1])
         + if items[|items| - 1].name == "." || items[|items| - 1].name == ".." then []
           else [EntryOf(items[|items| - 1])]
  }

  /** What a directory reports are the listed entries other than the two dots, nothing else. */
  lemma {:induction false} VisibleExact(items: seq<Item>, e: Item)
    ensures e in Visible(items)
            <==> exists i :: 0 <= i < |items| && items[i].name != "." && items[i].name != ".." && e == EntryOf(items[i])
    decreases |items|
  {
    if items != [] {
      var front := items[..|items| - 1];
      VisibleExact(front, e);
      if e in Visible(front) {
        var i :| 0 <= i < |front| && front[i].name != "." && front[i].name != ".." && e == EntryOf(front[i]);
        assert items[i] == front[i];
      }
      if i :| 0 <= i < |items| && items[i].name != "." && items[i].name != ".." && e == EntryOf(items[i]) {
        assert i == |front| || items[i] == front[i];
      }
    }
  }

  class Backend {
    const root: string
    var held: bool
    var client: nat
    var needsProbe: bool
    var closed: bool
    ghost var trace: Trace
    var connections: nat           // how many were ever made
    ghost var reconnects: nat      // how often a reconnect was tried

    ghost predicate Valid()
      reads this
    {
      && client < connections && Sane(trace)
      && (forall c :: c >= connections ==> Unread(trace, c) == 0)
      && (forall c :: Unread(trace, c) >= if Late(trace, c) then 1 else 0)
      && (Disciplined(trace) || exists c :: Late(trace, c))
    }

    /** What the mutex protects: once no probe is due, every command on the current
        connection has had its reply if and only if no reply on it ever came late, that
        is, was read by a later command than its own. */
    ghost predicate Settled()
      reads this
    {
      needsProbe || closed || (Unread(trace, client) == 0 <==> !Late(trace, client))
    }

    constructor (root: string)
      ensures Valid() && Settled() && !held && !closed && !needsProbe && trace == []
    {
      this.root := root;
      held, client, needsProbe, closed := false, 0, false, false;
      trace, connections, reconnects := [], 1, 0;
    }

    /** The mutex: it is taken only when free and released only when held, and every use of
        a connection asks for it. */
    method Acquire()
      requires !held
      modifies this`held
      ensures held
    {
      held := true;
    }

    method Unlock()
      requires held
      modifies this`held
      ensures !held
    {
      held := false;
    }

    /** One command and, unless the connection broke, its reply. */
    method Exchange(connection: nat, kind: Kind) returns (answer: Answer)
      requires Valid() && held && connection < connections
      requires IsProbe(kind) || Unread(trace, connection) == 0 || Late(trace, connection)
      modifies this`trace
      ensures Valid() && Sent(old(trace), trace, connection, kind)
      ensures CanExchange(old(trace), trace, connection, kind, answer)
      ensures FirstIs(old(trace), trace, connection, kind) && (Broke(old(trace), trace) <==> answer == Broken)
      ensures answer == Refused <==> EndsWith(trace, connection, Refused)
      ensures trace[|trace| - 1].connection == connection
      ensures answer != Broken ==> Unread(trace, connection) == Unread(old(trace), connection)
      ensures answer != Broken && Unread(old(trace), connection) > 0 ==> Late(trace, connection)
      ensures answer == Accepted <==> EndsWith(trace, connection, Accepted)
      ensures Heard(trace) == Heard(old(trace))
    {
      hide Unread, Late, CountOf, Disciplined, Sane, Heard;
      answer := *;
      var read: bool := *;
      Send(connection, kind);
      if answer != Broken || read {
        Read(connection, answer);
      }
    }

    /** A transfer has a second reply at its end. A store is accepted only by that; a listing
        may be complete although the reply stays unread. */
    method Transfer(connection: nat, kind: Kind) returns (answer: Answer)
      requires Valid() && held && connection < connections
      requires IsProbe(kind) || Unread(trace, connection) == 0 || Late(trace, connection)
      modifies this`trace
      ensures Valid() && Sent(old(trace), trace, connection, kind)
      ensures Heard(trace) == Heard(old(trace))
      ensures FirstIs(old(trace), trace, connection, kind)
      ensures answer != Accepted ==> (Broke(old(trace), trace) <==> answer == Broken)
      ensures EndsWith(trace, connection, Accepted) ==> answer == Accepted && !Broke(old(trace), trace)
      ensures answer == Accepted ==>
                || EndsWith(trace, connection, Accepted)
                || (kind != Stor && trace == old(trace) + [Command(connection, kind)])
    {
      hide Unread, Late, CountOf, Disciplined, Sane, Heard;
      answer := *;
      var read: bool := *;
      Send(connection, kind);
      if read || answer == Refused || (answer == Accepted && kind == Stor) {
        Read(connection, answer);
      }
    }

    ghost method Send(connection: nat, kind: Kind)
      requires Valid() && held && connection < connections
      requires IsProbe(kind) || Unread(trace, connection) == 0 || Late(trace, connection)
      modifies this`trace
      ensures Valid() && Sent(old(trace), trace, connection, kind)
      ensures Unread(trace, connection) == Unread(old(trace), connection) + 1
      ensures trace == old(trace) + [Command(connection, kind)] && Heard(trace) == Heard(old(trace))
      ensures forall c :: Late(trace, c) == Late(old(trace), c)
    {
      Appended(trace, Command(connection, kind));
      trace := trace + [Command(connection, kind)];
    }

    ghost method Read(connection: nat, answer: Answer)
      requires Valid() && held && connection < connections
               && Unread(trace, connection) > if Late(trace, connection) then 1 else 0
      modifies this`trace
      ensures Valid() && trace == old(trace) + [ReplyRead(connection, answer)] && Heard(trace) == Heard(old(trace))
      ensures forall c :: Unread(trace, c) == Unread(old(trace), c) - if c == connection then 1 else 0
      ensures forall k :: CountOf(trace, k) == CountOf(old(trace), k)
      ensures forall c :: Late(trace, c) == (Late(old(trace), c) || (c == connection && Unread(old(trace), c) > 1))
    {
      Appended(trace, ReplyRead(connection, answer));
      trace := trace + [ReplyRead(connection, answer)];
    }

    /** What the answer just accepted carried. */
    ghost method Carry(connection: nat, load: Load)
      requires Valid() && held && connection < connections && CanCarry(trace, connection, load)
      modifies this`trace
      ensures Valid() && trace == old(trace) + [Carried(connection, load)] && Heard(trace) == Heard(old(trace)) + 1
      ensures forall c :: Unread(trace, c) == Unread(old(trace), c) && Late(trace, c) == Late(old(trace), c)
      ensures forall k :: CountOf(trace, k) == CountOf(old(trace), k)
    {
      Appended(trace, Carried(connection, load));
      trace := trace + [Carried(connection, load)];
    }

    // ---------------------------------------------------------- the shared paths

    /** reconnectLocked: the new connection is taken only if it starts at the same root. */
    method Reconnect() returns (ok: bool)
      requires Valid() && held && !closed
      modifies this`client, this`needsProbe, this`trace, this`connections, this`reconnects
      ensures reconnects == old(reconnects) + 1
      ensures Valid() && Quiet(old(trace), trace) && needsProbe == !ok && Heard(trace) == Heard(old(trace))
      ensures ok ==> client >= old(connections) && Unread(trace, client) == 0 && !Late(trace, client)
      ensures ok ==> FirstIs(old(trace), trace, old(client), Quit)
      ensures trace == old(trace) || trace[|old(trace)|].Command?
      ensures !ok ==> trace == old(trace) || trace[|trace| - 1].connection != client
      ensures !ok ==> client == old(client)
    {
      hide Unread, Late, CountOf, Disciplined, Sane, CanExchange, Heard;
      needsProbe, reconnects := true, reconnects + 1;
      var cancelled: bool, dialled: bool, moved: bool := *, *, *;
      if cancelled || !dialled {
        return false;
      }
      var next := FreshConnection();
      if moved {
        var ignored := Exchange(next, Quit);
        return false;
      }
      var superseded := client;
      client := next;
      needsProbe := false;
      var ignored := Exchange(superseded, Quit);
      return true;
    }

    /** Dial, log in and change to the root: every command of this handshake is answered
        or the connection is given up. */
    method FreshConnection() returns (connection: nat)
      requires Valid()
      modifies this`connections
      ensures Valid() && connection >= old(connections) && connection < connections && Unread(trace, connection) == 0
    {
      connection := connections;
      connections := connections + 1;
    }

    /** lock: take the mutex and, if one is due, probe the connection. */
    method Lock() returns (ok: bool)
      requires Valid() && Settled() && !held
      modifies this`held, this`client, this`needsProbe, this`trace, this`connections, this`reconnects
      ensures Valid() && Settled() && held == ok && Quiet(old(trace), trace)
      ensures ok ==> !closed && !needsProbe
      ensures closed ==> !ok && trace == old(trace)
      ensures !old(needsProbe) || trace == old(trace) ==> trace == old(trace) && reconnects == old(reconnects)
      ensures trace != old(trace) ==>
                && FirstIs(old(trace), trace, old(client), NoOp)
                && reconnects == old(reconnects) + if Broke(old(trace), trace) then 1 else 0
      ensures ok && old(needsProbe) ==> EndsWith(trace, old(client), Accepted) || client >= old(connections)
      ensures client != old(client) ==> ok
      ensures Heard(trace) == Heard(old(trace))
    {
      hide Unread, Late, CountOf, Disciplined, Sane, CanExchange, Heard;
      var cancelled: bool, cancelledSince: bool := *, *;
      if cancelled {
        return false;
      }
      Acquire();
      if cancelledSince || closed {
        Unlock();
        return false;
      }
      if needsProbe {
        var answer := Exchange(client, NoOp);
        if answer == Broken {
          ok := Reconnect();
          if !ok {
            Unlock();
            return false;
          }
        } else if answer == Refused {
          Unlock();
          return false;
        }
        needsProbe := false;
      }
      return true;
    }

    // -------------------------------------------------------------- operations

    /** withClient: one mutation, sent at most once and never replayed. */
    method Mutate() returns (ok: bool)
      requires Valid() && Settled() && !held
      modifies this`held, this`client, this`needsProbe, this`trace, this`connections, this`reconnects
      ensures Valid() && Settled() && !held
      ensures closed ==> !ok && trace == old(trace)
      ensures CountOf(trace, Mutation) <= CountOf(old(trace), Mutation) + 1
      ensures ok <==> CountOf(trace, Mutation) == CountOf(old(trace), Mutation) + 1 && EndsWith(trace, client, Accepted)
      ensures ok ==> !needsProbe
      ensures CountOf(trace, Stor) == CountOf(old(trace), Stor)
    {
      hide Unread, Late, CountOf, Disciplined, Sane, CanExchange, Heard;
      ok := Lock();
      if !ok {
        return;
      }
      var answer := Exchange(client, Mutation);
      if answer == Broken {
        needsProbe := true;
      }
      Unlock();
      ok := answer == Accepted;
    }

    /** The upload of an uploadHandle's bytes: one STOR, after which a probe is due. */
    method Store() returns (ok: bool)
      requires Valid() && Settled() && !held
      modifies this`held, this`client, this`needsProbe, this`trace, this`connections, this`reconnects
      ensures Valid() && Settled() && !held
      ensures closed ==> !ok && trace == old(trace)
      ensures CountOf(trace, Stor) <= CountOf(old(trace), Stor) + 1
      ensures ok <==> CountOf(trace, Stor) == CountOf(old(trace), Stor) + 1 && EndsWith(trace, client, Accepted)
      ensures CountOf(trace, Mutation) == CountOf(old(trace), Mutation)
    {
      hide Unread, Late, CountOf, Disciplined, Sane, CanExchange, Heard;
      ok := Lock();
      if !ok {
        return;
      }
      var answer := Transfer(client, Stor);
      needsProbe := true;
      Unlock();
      ok := answer == Accepted;
    }

    /** Stat: GetEntry, repeated once after a reconnect; a definite refusal falls back to
        listing the parent, repeated once in the same way. `direct` and `listed` are what
        the server answered. */
    method Stat(remote: string) returns (r: StatResult, ghost direct: Option<Item>, ghost listed: Option<seq<Item>>)
      requires Valid() && Settled() && !held
      modifies this`held, this`client, this`needsProbe, this`trace, this`connections, this`reconnects
      ensures Valid() && Settled() && !held && ReadsOnly(old(trace), trace)
      ensures closed ==> r == Unknown && trace == old(trace)
      ensures remote == root ==>
                Quiet(old(trace), trace) && (r == Unknown || (r.Entry? && r.item.folder && r.item.name == Base(root)))
      ensures remote != root ==> Concludes(r, direct, listed, Base(remote))
      ensures direct.Some? ==> EndsCarrying(trace, client, OneEntry(direct.value))
      ensures listed.Some? ==> EndsCarrying(trace, client, Listing(listed.value))
      ensures remote != root ==> (r == Unknown <==> Heard(trace) == Heard(old(trace)))
      ensures CountOf(trace, GetEntry) > CountOf(old(trace), GetEntry) && EndsWith(trace, client, Refused) ==>
                CountOf(trace, List) > CountOf(old(trace), List)
      ensures CountOf(trace, GetEntry) <= CountOf(old(trace), GetEntry) + 2
      ensures CountOf(trace, List) <= CountOf(old(trace), List) + 2
    {
      hide Unread, Late, CountOf, Disciplined, Sane, CanExchange, Heard;
      direct, listed := None, None;
      var ok := Lock();
      if !ok {
        return Unknown, None, None;
      }
      if remote == root {
        Unlock();
        return Entry(Item(Base(root), 0, true)), None, None;
      }
      var answer, item := GetLocked();
      if answer != Refused {
        Unlock();
        if answer == Accepted {
          return Entry(EntryOf(item)), Some(item), None;
        }
        return Unknown, None, None;
      }
      var items: seq<Item>;
      ok, items := ListLocked();
      Unlock();
      if !ok {
        return Unknown, None, None;
      }
      r := Search(items, Base(remote));
      listed := Some(items);
    }

    /** GetEntry under the mutex, repeated once on a new connection. */
    method GetLocked() returns (answer: Answer, item: Item)
      requires Valid() && Settled() && held && !closed && !needsProbe
      modifies this`client, this`needsProbe, this`trace, this`connections, this`reconnects
      ensures Valid() && Settled() && ReadsOnly(old(trace), trace) && needsProbe == (answer == Broken)
      ensures FirstIs(old(trace), trace, old(client), GetEntry)
      ensures reconnects == old(reconnects) + if Broke(old(trace), trace) then 1 else 0
      ensures answer == Refused <==> EndsWith(trace, client, Refused)
      ensures CountOf(trace, GetEntry) <= CountOf(old(trace), GetEntry) + 2
      ensures CountOf(trace, List) == CountOf(old(trace), List)
      ensures client != old(client) <==> CountOf(trace, GetEntry) == CountOf(old(trace), GetEntry) + 2
      ensures answer == Accepted ==>
                EndsCarrying(trace, client, OneEntry(item)) && Heard(trace) == Heard(old(trace)) + 1
      ensures answer != Accepted ==> Heard(trace) == Heard(old(trace))
    {
      hide Unread, Late, CountOf, Disciplined, Sane, CanExchange, Heard;
      item := *;
      answer := GetOnce();
      if answer == Broken {
        var ok := Reconnect();
        if !ok {
          return;
        }
        answer := GetOnce();
      }
      if answer == Accepted {
        Carry(client, OneEntry(item));
      }
    }

    /** One GetEntry on the present connection. */
    method GetOnce() returns (answer: Answer)
      requires Valid() && Settled() && held && !closed && !needsProbe
      modifies this`needsProbe, this`trace
      ensures Valid() && Settled() && needsProbe == (answer == Broken)
      ensures ReadsOnly(old(trace), trace) && Heard(trace) == Heard(old(trace))
      ensures CountOf(trace, GetEntry) == CountOf(old(trace), GetEntry) + 1
      ensures CountOf(trace, List) == CountOf(old(trace), List)
      ensures FirstIs(old(trace), trace, client, GetEntry) && (Broke(old(trace), trace) <==> answer == Broken)
      ensures answer == Accepted <==> EndsWith(trace, client, Accepted)
      ensures answer == Refused <==> EndsWith(trace, client, Refused)
    {
      hide Unread, Late, CountOf, Disciplined, Sane, CanExchange, Heard;
      answer := Exchange(client, GetEntry);
      needsProbe := answer == Broken;
    }

    /** A listing under the mutex; a probe is due afterwards. */
    method ListLocked() returns (ok: bool, items: seq<Item>)
      requires Valid() && Settled() && held && !closed && !needsProbe
      modifies this`client, this`needsProbe, this`trace, this`connections, this`reconnects
      ensures Valid() && needsProbe && ReadsOnly(old(trace), trace)
      ensures FirstIs(old(trace), trace, old(client), List)
      ensures reconnects == old(reconnects) + if Broke(old(trace), trace) then 1 else 0
      ensures CountOf(trace, GetEntry) == CountOf(old(trace), GetEntry)
      ensures CountOf(old(trace), List) < CountOf(trace, List) <= CountOf(old(trace), List) + 2
      ensures client != old(client) <==> CountOf(trace, List) == CountOf(old(trace), List) + 2
      ensures ok ==> EndsCarrying(trace, client, Listing(items)) && Heard(trace) == Heard(old(trace)) + 1
      ensures !ok ==> Heard(trace) == Heard(old(trace))
    {
      hide Unread, Late, CountOf, Disciplined, Sane, CanExchange, Heard;
      items := *;
      var answer := ListOnce();
      if answer == Broken {
        ok := Reconnect();
        if !ok {
          return;
        }
        answer := ListOnce();
      }
      ok := answer == Accepted;
      if ok {
        Carry(client, Listing(items));
      }
    }

    /** One listing on the present connection. */
    method ListOnce() returns (answer: Answer)
      requires Valid() && held && (Unread(trace, client) == 0 || Late(trace, client))
      modifies this`needsProbe, this`trace
      ensures Valid() && needsProbe && ReadsOnly(old(trace), trace) && Heard(trace) == Heard(old(trace))
      ensures CountOf(trace, List) == CountOf(old(trace), List) + 1
      ensures CountOf(trace, GetEntry) == CountOf(old(trace), GetEntry)
      ensures FirstIs(old(trace), trace, client, List)
      ensures answer != Accepted ==> (Broke(old(trace), trace) <==> answer == Broken)
      ensures answer == Accepted ==>
                || (EndsWith(trace, client, Accepted) && !Broke(old(trace), trace))
                || trace == old(trace) + [Command(client, List)]
    {
      hide Unread, Late, CountOf, Disciplined, Sane, Heard;
      answer := Transfer(client, List);
      needsProbe := true;
    }

    /** ReadDir reports the listing without the two dot entries. */
    method ReadDir() returns (entries: Option<seq<Item>>, ghost listed: seq<Item>)
      requires Valid() && Settled() && !held
      modifies this`held, this`client, this`needsProbe, this`trace, this`connections, this`reconnects
      ensures Valid() && Settled() && !held && ReadsOnly(old(trace), trace)
      ensures closed ==> entries.None? && trace == old(trace)
      ensures entries.Some? ==> entries.value == Visible(listed) && EndsCarrying(trace, client, Listing(listed))
      ensures entries.None? <==> Heard(trace) == Heard(old(trace))
      ensures CountOf(trace, List) <= CountOf(old(trace), List) + 2
    {
      hide Unread, Late, CountOf, Disciplined, Sane, CanExchange, Heard;
      var ok := Lock();
      if !ok {
        return None, [];
      }
      var items;
      ok, items := ListLocked();
      Unlock();
      if !ok {
        return None, [];
      }
      var visible := Filter(items);
      return Some(visible), items;
    }

    static method Filter(items: seq<Item>) returns (visible: seq<Item>)
      ensures visible == Visible(items)
    {
      visible := [];
      for i := 0 to |items|
        invariant visible == Visible(items[..i])
      {
        assert items[..i + 1][..i] == items[..i];
        if items[i].name != "." && items[i].name != ".." {
          visible := visible + [EntryOf(items[i])];
        }
      }
      assert items[..|items|] == items;
    }

    /** A stream is open: it holds the mutex, and the reply that ends the transfer is
        still to come. */
    ghost predicate Streaming()
      reads this
    {
      held && Unread(trace, client) > if Late(trace, client) then 1 else 0
    }

    /** OpenRead: on success the mutex stays held for the stream. */
    method OpenRead() returns (reader: LockedReader?)
      requires Valid() && Settled() && !held
      modifies this`held, this`client, this`needsProbe, this`trace, this`connections, this`reconnects
      ensures Valid() && ReadsOnly(old(trace), trace)
      ensures reader == null ==> !held && Settled()
      ensures reader != null ==> fresh(reader) && reader.backend == this && !reader.finished && Streaming() && !closed
      ensures reader != null ==> EndsCarrying(trace, client, Stream)
      ensures reader == null <==> Heard(trace) == Heard(old(trace))
      ensures closed ==> reader == null && trace == old(trace)
      ensures CountOf(trace, Retr) <= CountOf(old(trace), Retr) + 2
    {
      hide Unread, Late, CountOf, Disciplined, Sane, CanExchange, Heard;
      reader := null;
      var ok := Lock();
      if !ok {
        return;
      }
      var answer := StartLocked();
      if answer != Accepted {
        Unlock();
        return;
      }
      reader := new LockedReader(this);
    }

    /** RETR under the mutex, repeated once on a new connection. */
    method StartLocked() returns (answer: Answer)
      requires Valid() && Settled() && held && !closed && !needsProbe
      modifies this`client, this`needsProbe, this`trace, this`connections, this`reconnects
      ensures Valid() && ReadsOnly(old(trace), trace) && FirstIs(old(trace), trace, old(client), Retr)
      ensures reconnects == old(reconnects) + if Broke(old(trace), trace) then 1 else 0
      ensures client != old(client) <==> CountOf(trace, Retr) == CountOf(old(trace), Retr) + 2
      ensures CountOf(trace, Retr) <= CountOf(old(trace), Retr) + 2
      ensures answer == Accepted ==>
                Streaming() && EndsCarrying(trace, client, Stream) && Heard(trace) == Heard(old(trace)) + 1
      ensures answer != Accepted ==> Heard(trace) == Heard(old(trace))
      ensures answer != Accepted ==> Settled() && needsProbe == (answer == Broken)
    {
      hide Unread, Late, CountOf, Disciplined, Sane, CanExchange, Heard;
      answer := StartRetr();
      if answer == Broken {
        var ok := Reconnect();
        if !ok {
          return;
        }
        answer := StartRetr();
      }
      if answer == Accepted {
        Carry(client, Stream);
      } else {
        needsProbe := answer == Broken;
      }
    }

    /** RETR and its first reply; the second is read when the stream is closed. */
    method StartRetr() returns (answer: Answer)
      requires Valid() && held && (Unread(trace, client) == 0 || Late(trace, client))
      modifies this`trace
      ensures Valid() && Sent(old(trace), trace, client, Retr) && Heard(trace) == Heard(old(trace))
      ensures FirstIs(old(trace), trace, client, Retr)
      ensures answer == Accepted ==> trace == old(trace) + [Command(client, Retr)]
      ensures answer != Accepted ==> (Broke(old(trace), trace) <==> answer == Broken)
      ensures answer == Accepted ==>
                Unread(trace, client) == Unread(old(trace), client) + 1
                  && Late(trace, client) == Late(old(trace), client)
      ensures answer == Refused ==>
                Unread(trace, client) == Unread(old(trace), client)
                  && (Late(trace, client) <==> Unread(old(trace), client) > 0)
    {
      hide Unread, Late, CountOf, Disciplined, Sane, Heard;
      answer := *;
      var read: bool := *;
      Send(client, Retr);
      if answer == Refused || (answer == Broken && read) {
        Read(client, answer);
      }
    }

    /** Close: a single farewell, and nothing after it. */
    method Close() returns (ok: bool)
      requires Valid() && Settled() && !held
      modifies this`held, this`closed, this`trace
      ensures Valid() && Settled() && !held && closed && Quiet(old(trace), trace)
      ensures old(closed) ==> ok && trace == old(trace)
      ensures !old(closed) ==>
                CountOf(trace, Quit) == CountOf(old(trace), Quit) + 1 && (ok <==> EndsWith(trace, client, Accepted))
    {
      hide Unread, Late, CountOf, Disciplined, Sane, CanExchange, Heard;
      Acquire();
      if closed {
        Unlock();
        return true;
      }
      closed := true;
      var answer := Exchange(client, Quit);
      Unlock();
      ok := answer == Accepted;
    }
  }

  /** lockedReadCloser: whatever happens to the stream, its first Close releases the mutex. */
  class LockedReader {
    const backend: Backend
    var finished: bool
    var error: bool

    constructor (backend: Backend)
      ensures this.backend == backend && !finished
    {
      this.backend, finished, error := backend, false, false;
    }

    method Close() returns (failed: bool)
      requires backend.Valid() && (!finished ==> backend.Streaming() && !backend.closed)
      modifies this, backend`held, backend`needsProbe, backend`trace
      ensures backend.Valid() && finished && failed == error
      ensures old(finished) ==> failed == old(error) && unchanged(backend)
      ensures !old(finished) ==>
                !backend.held && backend.needsProbe && backend.Settled() && Quiet(old(backend.trace), backend.trace)
    {
      if !finished {
        error := *;
        var read: bool := *;
        if read {
          backend.Read(backend.client, if error then Broken else Accepted);
        }
        finished := true;
        backend.needsProbe := true;
        backend.Unlock();
      }
      failed := error;
    }
  }

  /** The last thing that happened was an answer that carried this. */
  predicate EndsCarrying(trace: Trace, connection: nat, load: Load) {
    trace != [] && trace[|trace| - 1] == Carried(connection, load)
  }

  /** The last thing that happened was this reply on this connection. */
  ghost predicate EndsWith(trace: Trace, connection: nat, answer: Answer) {
    trace != [] && trace[|trace| - 1] == ReplyRead(connection, answer)
  }

  /** The first thing that happened since was this command. */
  ghost predicate FirstIs(before: Trace, after: Trace, connection: nat, kind: Kind) {
    before < after && after[|before|] == Command(connection, kind)
  }

  /** The command sent first since was not answered. */
  ghost predicate Broke(before: Trace, after: Trace) {
    || |after| <= |before| + 1
    || match after[|before| + 1]
       case ReplyRead(_, answer) => answer == Broken
       case Carried(_, _) => false
       case Command(_, _) => true
  }

  /** Exactly one command was added, of this kind and on this connection. */
  ghost predicate Sent(before: Trace, after: Trace, connection: nat, kind: Kind) {
    && before <= after
    && (forall c :: c != connection ==> Unread(after, c) == Unread(before, c))
    && Unread(before, connection) <= Unread(after, connection) <= Unread(before, connection) + 1
    && (forall c :: Late(before, c) ==> Late(after, c))
    && (forall c :: Late(after, c) ==> Late(before, c) || (c == connection && Unread(before, c) > 0))
    && (forall k :: CountOf(after, k) == CountOf(before, k) + if k == kind then 1 else 0)
  }

  /** Nothing but probes and farewells was sent. */
  ghost predicate Quiet(before: Trace, after: Trace) {
    before <= after && forall k :: !IsProbe(k) ==> CountOf(after, k) == CountOf(before, k)
  }

  /** Only probes, farewells and reads were sent: nothing that changes the server. */
  ghost predicate ReadsOnly(before: Trace, after: Trace) {
    && before <= after
    && CountOf(after, Mutation) == CountOf(before, Mutation)
    && CountOf(after, Stor) == CountOf(before, Stor)
  }

  /** What one exchange can leave behind: a broken one may leave its reply to arrive late. */
  ghost predicate CanExchange(before: Trace, after: Trace, connection: nat, kind: Kind, answer: Answer) {
    var sent := before + [Command(connection, kind)];
    || after == sent + [ReplyRead(connection, answer)]
    || (answer == Broken && after == sent)
  }

  /** A command and the reading of one reply. */
  function Exchanged(trace: Trace, kind: Kind, answer: Answer): Trace {
    trace + [Command(0, kind)] + [ReplyRead(0, answer)]
  }

  lemma ExchangedCounts(trace: Trace, kind: Kind, answer: Answer)
    ensures Unread(Exchanged(trace, kind, answer), 0) == Unread(trace, 0)
    ensures Late(Exchanged(trace, kind, answer), 0) <==> Late(trace, 0) || Unread(trace, 0) > 0
    ensures !IsProbe(kind) && Unread(trace, 0) > 0 ==> !Disciplined(Exchanged(trace, kind, answer))
    ensures CanExchange(trace, Exchanged(trace, kind, answer), 0, kind, answer)
  {
    Appended(trace, Command(0, kind));
    Appended(trace + [Command(0, kind)], ReplyRead(0, answer));
  }

  /** The discipline is not unconditional. A mutation times out; the probe of the next call
      reads the mutation's late reply and fails that call; the probe of the call after it
      reads the first probe's reply and is taken for success, with one reply still unread. */
  lemma LateReplyFoolsProbe()
    ensures exists t1, t2, t3, t4 ::
              && CanExchange([], t1, 0, Mutation, Broken)
              && CanExchange(t1, t2, 0, NoOp, Refused)
              && CanExchange(t2, t3, 0, NoOp, Accepted)
              && CanExchange(t3, t4, 0, GetEntry, Accepted)
              && !Late(t1, 0) && Late(t2, 0) && Unread(t3, 0) == 1 && !Disciplined(t4)
  {
    var t1 := [Command(0, Mutation)];
    var t2 := Exchanged(t1, NoOp, Refused);
    var t3 := Exchanged(t2, NoOp, Accepted);
    var t4 := Exchanged(t3, GetEntry, Accepted);
    Appended([], Command(0, Mutation));
    assert [] + [Command(0, Mutation)] == t1;
    assert Unread(t1, 0) == 1 && !Late(t1, 0) && CanExchange([], t1, 0, Mutation, Broken);
    ExchangedCounts(t1, NoOp, Refused);
    ExchangedCounts(t2, NoOp, Accepted);
    ExchangedCounts(t3, GetEntry, Accepted);
    hide Unread, Late, Disciplined, CanExchange, Exchanged;
    assert CanExchange(t1, t2, 0, NoOp, Refused) && CanExchange(t2, t3, 0, NoOp, Accepted);
    assert CanExchange(t3, t4, 0, GetEntry, Accepted);
  }
}
