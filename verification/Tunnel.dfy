/** The registry of agent tunnels (crates/config-control-plane/src/tunnel.rs): which query gets which answer. */
module Tunnel {
  import opened Options

  type HostId = nat
  type QueryId = nat
  type SocketId = nat

  datatype Payload = Payload(status: string, data: Option<string>, error: Option<string>)

  /** What became of the channel of a query: its sender sends once or is dropped. `Disconnected` stands for the
      answer with status "error" and the error "agent disconnected". */
  datatype Fate = Waiting | Answered(payload: Payload) | Disconnected | Dropped

  /** A query, and the socket it was sent on. */
  datatype Query = Query(host: HostId, socket: SocketId, request: string, fate: Fate)

  /** A registered connection: the socket its sender writes to, and the channels pending on it. */
  datatype Connection = Connection(socket: SocketId, pending: map<string, QueryId>)

  /** The registered connections, the gauge of active connections, every channel ever made, and, as a record
      of the past, the number of connections that were replaced, the host of every socket ever opened, and the
      sockets that are still open. A replaced socket stays open until its own end closes it. */
  datatype Registry = Registry(connections: map<HostId, Connection>, active: int, queries: seq<Query>,
                               replaced: nat, sockets: seq<HostId>, open: set<SocketId>)

  datatype Step =
    | Register(host: HostId)
    | Close(socket: SocketId)
    | SendQuery(host: HostId, request: string, sent: bool)
    | Respond(host: HostId, request: string, payload: Payload)

  // ----- the operations -----------------------------------------------------------------------------

  function Settle(queries: seq<Query>, ids: set<QueryId>, fate: Fate): seq<Query> {
    seq(|queries|, i requires 0 <= i < |queries| =>
      if i in ids && queries[i].fate.Waiting? then queries[i].(fate := fate) else queries[i])
  }

  /** A new socket of the host is opened and registered. */
  function Registered(s: Registry, host: HostId): Registry {
    var again := host in s.connections;
    Registry(s.connections[host := Connection(|s.sockets|, map[])], s.active + 1,
             if again then Settle(s.queries, s.connections[host].pending.Values, Dropped) else s.queries,
             if again then s.replaced + 1 else s.replaced,
             s.sockets + [host], s.open + {|s.sockets|})
  }

  function Unregistered(s: Registry, host: HostId): Registry {
    if host !in s.connections then s
    else
      s.(connections := s.connections - {host}, active := s.active - 1,
         queries := Settle(s.queries, s.connections[host].pending.Values, Disconnected))
  }

  /** The end of a socket's handler: it unregisters the host of the socket. */
  function Closed(s: Registry, socket: SocketId): Registry {
    if socket !in s.open || socket >= |s.sockets| then s
    else Unregistered(s.(open := s.open - {socket}), s.sockets[socket])
  }

  /** The pending channels of a host after a new query, and all channels; the channel of an earlier query
      with the same id is dropped. */
  function Issue(s: Registry, host: HostId, request: string): Registry
    requires host in s.connections
  {
    var connection := s.connections[host];
    var pending := connection.pending;
    var queries := if request in pending then Settle(s.queries, {pending[request]}, Dropped) else s.queries;
    s.(connections := s.connections[host := Connection(connection.socket, pending[request := |queries|])],
       queries := queries + [Query(host, connection.socket, request, Waiting)])
  }

  function Withdraw(s: Registry, host: HostId, request: string, fate: Fate): Registry
    requires host in s.connections && request in s.connections[host].pending
  {
    var connection := s.connections[host];
    s.(connections := s.connections[host := Connection(connection.socket, connection.pending - {request})],
       queries := Settle(s.queries, {connection.pending[request]}, fate))
  }

  function Sent(s: Registry, host: HostId, request: string, sent: bool): Registry {
    if host !in s.connections then s
    else if sent then Issue(s, host, request)
    else Withdraw(Issue(s, host, request), host, request, Dropped)
  }

  function Responded(s: Registry, host: HostId, request: string, payload: Payload): Registry {
    if host !in s.connections || request !in s.connections[host].pending then s
    else Withdraw(s, host, request, Answered(payload))
  }

  function Do(s: Registry, step: Step): Registry {
    match step
    case Register(host) => Registered(s, host)
    case Close(socket) => Closed(s, socket)
    case SendQuery(host, request, sent) => Sent(s, host, request, sent)
    case Respond(host, request, payload) => Responded(s, host, request, payload)
  }

  function Run(s: Registry, steps: seq<Step>): Registry
    decreases |steps|
  {
    if steps == [] then s else Run(Do(s, steps[0]), steps[1..])
  }

  const EMPTY: Registry := Registry(map[], 0, [], 0, [], {})

  lemma SettleOneMore(queries: seq<Query>, ids: set<QueryId>, q: QueryId, fate: Fate)
    requires q in ids && !fate.Waiting?
    ensures Settle(Settle(queries, {q}, fate), ids - {q}, fate) == Settle(queries, ids, fate)
  {
  }

  class AgentRegistry {
    var connections: map<HostId, Connection>
    var active: int
    var queries: seq<Query>
    ghost var replaced: nat
    ghost var sockets: seq<HostId>
    ghost var open: set<SocketId>

    ghost function View(): Registry
      reads this
    {
      Registry(connections, active, queries, replaced, sockets, open)
    }

    constructor ()
      ensures View() == EMPTY
    {
      connections, active, queries := map[], 0, [];
      replaced, sockets, open := 0, [], {};
    }

    /** Consumes the sender of a channel; a channel is consumed once. */
    method Consume(q: QueryId, fate: Fate)
      modifies this`queries
      ensures queries == Settle(old(queries), {q}, fate)
    {
      if q < |queries| && queries[q].fate.Waiting? {
        queries := queries[q := queries[q].(fate := fate)];
      }
      assert queries == Settle(old(queries), {q}, fate);
    }

    method ConsumeAll(ids: set<QueryId>, fate: Fate)
      requires !fate.Waiting?
      modifies this`queries
      ensures queries == Settle(old(queries), ids, fate)
    {
      var rest := ids;
      ghost var before := queries;
      while rest != {}
        invariant Settle(queries, rest, fate) == Settle(before, ids, fate)
      {
        var q :| q in rest;
        SettleOneMore(queries, rest, q, fate);
        Consume(q, fate);
        rest := rest - {q};
      }
      assert Settle(queries, {}, fate) == queries;
    }

    /** `socket` is the one just opened for the host. */
    method RegisterAgent(host: HostId, socket: SocketId)
      requires socket == |sockets|
      modifies this
      ensures View() == Registered(old(View()), host)
    {
      if host in connections {
        ConsumeAll(connections[host].pending.Values, Dropped);
        replaced := replaced + 1;
      }
      connections := connections[host := Connection(socket, map[])];
      active := active + 1;
      sockets, open := sockets + [host], open + {socket};
    }

    method UnregisterAgent(host: HostId)
      modifies this
      ensures View() == Unregistered(old(View()), host)
    {
      if host in connections {
        var pending := connections[host].pending;
        connections := connections - {host};
        ConsumeAll(pending.Values, Disconnected);
        active := active - 1;
      }
    }

    /** The end of the handler of a socket, which knows its host only. */
    method CloseTunnel(host: HostId, ghost socket: SocketId)
      requires socket in open && socket < |sockets| && sockets[socket] == host
      modifies this
      ensures View() == Closed(old(View()), socket)
    {
      open := open - {socket};
      UnregisterAgent(host);
    }

    /** The id of the new channel, or None when the agent is not connected or the send fails. */
    method SendTo(host: HostId, request: string, sent: bool) returns (channel: Option<QueryId>)
      modifies this
      ensures View() == Sent(old(View()), host, request, sent)
      ensures channel == if host in old(connections) && sent then Some(|old(queries)|) else None
    {
      if host !in connections {
        return None;
      }
      var q: QueryId := |queries|;
      var connection := connections[host];
      if request in connection.pending {
        Consume(connection.pending[request], Dropped);
      }
      queries := queries + [Query(host, connection.socket, request, Waiting)];
      connections := connections[host := Connection(connection.socket, connection.pending[request := q])];
      if !sent {
        connections := connections[host := Connection(connection.socket, connections[host].pending - {request})];
        Consume(q, Dropped);
        return None;
      }
      channel := Some(q);
    }

    method HandleResponse(host: HostId, request: string, payload: Payload)
      modifies this
      ensures View() == Responded(old(View()), host, request, payload)
    {
      if host in connections && request in connections[host].pending {
        var connection := connections[host];
        connections := connections[host := Connection(connection.socket, connection.pending - {request})];
        Consume(connection.pending[request], Answered(payload));
      }
    }
  }

  // ----- invariants ---------------------------------------------------------------------------------

  /** A channel waits if and only if it is pending on the connection of its host under its request id, and
      that connection is on the socket the query was sent on. */
  predicate Linked(s: Registry) {
    && (forall h, r :: h in s.connections && r in s.connections[h].pending ==>
          && s.connections[h].pending[r] < |s.queries|
          && s.queries[s.connections[h].pending[r]] == Query(h, s.connections[h].socket, r, Waiting))
    && (forall q :: 0 <= q < |s.queries| && s.queries[q].fate.Waiting? ==>
          && s.queries[q].host in s.connections && s.queries[q].request in s.connections[s.queries[q].host].pending
          && s.connections[s.queries[q].host].pending[s.queries[q].request] == q)
  }

  /** The gauge counts the live connections and every connection that was ever replaced. */
  predicate Gauged(s: Registry) {
    s.active == |s.connections| + s.replaced
  }

  /** A registered connection is on an open socket of its host, the last one the host opened. */
  predicate OnLastSocket(s: Registry) {
    && (forall k :: k in s.open ==> k < |s.sockets|)
    && (forall h :: h in s.connections ==>
          && s.connections[h].socket in s.open && s.sockets[s.connections[h].socket] == h)
    && (forall h, k :: h in s.connections && s.connections[h].socket < k < |s.sockets| ==> s.sockets[k] != h)
  }

  lemma AddedConnection(m: map<HostId, Connection>, host: HostId, connection: Connection)
    ensures |m[host := connection]| == |m| + (if host in m then 0 else 1)
    ensures host in m ==> |m - {host}| == |m| - 1
  {
    assert m[host := connection].Keys == m.Keys + {host};
    assert |m[host := connection]| == |m[host := connection].Keys| && |m| == |m.Keys|;
    assert (m - {host}).Keys == m.Keys - {host};
    assert |m - {host}| == |(m - {host}).Keys|;
  }

  lemma RegisterKeepsGauge(s: Registry, host: HostId)
    requires Gauged(s)
    ensures Gauged(Registered(s, host)) && Gauged(Unregistered(s, host))
    ensures host in s.connections ==> s.active > 0
  {
    AddedConnection(s.connections, host, Connection(|s.sockets|, map[]));
    assert |s.connections| == |s.connections.Keys| && (host in s.connections ==> host in s.connections.Keys);
  }

  lemma QueryKeepsGauge(s: Registry, step: Step)
    requires Gauged(s) && (step.SendQuery? || step.Respond?)
    ensures Gauged(Do(s, step))
  {
    var host := step.host;
    if host in s.connections {
      if step.SendQuery? {
        var issued := Issue(s, host, step.request);
        AddedConnection(s.connections, host, issued.connections[host]);
        AddedConnection(issued.connections, host, Withdraw(issued, host, step.request, Dropped).connections[host]);
      } else if step.request in s.connections[host].pending {
        AddedConnection(s.connections, host, Responded(s, host, step.request, step.payload).connections[host]);
      }
    }
  }

  lemma StepKeepsGauge(s: Registry, step: Step)
    requires Gauged(s)
    ensures Gauged(Do(s, step))
  {
    match step {
      case Register(host) => RegisterKeepsGauge(s, host);
      case Close(socket) =>
        if socket in s.open && socket < |s.sockets| {
          RegisterKeepsGauge(s.(open := s.open - {socket}), s.sockets[socket]);
        }
      case _ => QueryKeepsGauge(s, step);
    }
  }

  lemma RegisterKeepsLinked(s: Registry, host: HostId)
    requires Linked(s)
    ensures Linked(Registered(s, host)) && Linked(Unregistered(s, host))
  {
  }

  lemma IssueKeepsLinked(s: Registry, host: HostId, request: string)
    requires Linked(s) && host in s.connections
    ensures Linked(Issue(s, host, request))
  {
  }

  lemma WithdrawKeepsLinked(s: Registry, host: HostId, request: string, fate: Fate)
    requires Linked(s) && host in s.connections && request in s.connections[host].pending && !fate.Waiting?
    ensures Linked(Withdraw(s, host, request, fate))
  {
  }

  lemma StepKeepsLinked(s: Registry, step: Step)
    requires Linked(s)
    ensures Linked(Do(s, step))
  {
    match step {
      case Register(host) => RegisterKeepsLinked(s, host);
      case Close(socket) =>
        if socket in s.open && socket < |s.sockets| {
          RegisterKeepsLinked(s.(open := s.open - {socket}), s.sockets[socket]);
        }
      case SendQuery(host, request, sent) =>
        if host in s.connections {
          IssueKeepsLinked(s, host, request);
          if !sent {
            WithdrawKeepsLinked(Issue(s, host, request), host, request, Dropped);
          }
        }
      case Respond(host, request, payload) =>
        if host in s.connections && request in s.connections[host].pending {
          WithdrawKeepsLinked(s, host, request, Answered(payload));
        }
    }
  }

  lemma RegisterKeepsSockets(s: Registry, host: HostId)
    requires OnLastSocket(s)
    ensures OnLastSocket(Registered(s, host))
  {
  }

  lemma CloseKeepsSockets(s: Registry, socket: SocketId)
    requires OnLastSocket(s)
    ensures OnLastSocket(Closed(s, socket))
  {
  }

  predicate SameSockets(s: Registry, s': Registry) {
    && s'.sockets == s.sockets && s'.open == s.open && s'.connections.Keys == s.connections.Keys
    && (forall h :: h in s.connections ==> s'.connections[h].socket == s.connections[h].socket)
  }

  lemma QueryKeepsSockets(s: Registry, step: Step)
    requires step.SendQuery? || step.Respond?
    ensures SameSockets(s, Do(s, step))
  {
  }

  lemma SameSocketsKeep(s: Registry, s': Registry)
    requires OnLastSocket(s) && SameSockets(s, s')
    ensures OnLastSocket(s')
  {
  }

  lemma StepKeepsSockets(s: Registry, step: Step)
    requires OnLastSocket(s)
    ensures OnLastSocket(Do(s, step))
  {
    match step {
      case Register(host) => RegisterKeepsSockets(s, host);
      case Close(socket) => CloseKeepsSockets(s, socket);
      case _ =>
        QueryKeepsSockets(s, step);
        SameSocketsKeep(s, Do(s, step));
    }
  }

  predicate Valid(s: Registry) {
    Linked(s) && Gauged(s) && OnLastSocket(s)
  }

  /** Over every interleaving, from the empty registry: the waiting channels are exactly the pending ones,
      each connection is on the last socket its host opened, and the gauge is the number of live connections
      plus the number of replacements, so it never underflows. */
  lemma {:induction false} RunsKeepRegistry(s: Registry, steps: seq<Step>)
    requires Valid(s)
    ensures Valid(Run(s, steps)) && Run(s, steps).active >= 0
    decreases |steps|
  {
    if steps != [] {
      StepKeepsLinked(s, steps[0]);
      StepKeepsGauge(s, steps[0]);
      StepKeepsSockets(s, steps[0]);
      RunsKeepRegistry(Do(s, steps[0]), steps[1..]);
    }
  }

  // ----- answers ------------------------------------------------------------------------------------

  predicate Closes(s: Registry, step: Step, host: HostId) {
    step.Close? && step.socket in s.open && step.socket < |s.sockets| && s.sockets[step.socket] == host
  }

  /** Why a step may give the channel of a query this fate. */
  predicate Deserved(s: Registry, query: Query, step: Step, fate: Fate) {
    match fate
    case Waiting => false
    case Answered(payload) => step == Respond(query.host, query.request, payload)
    case Disconnected => Closes(s, step, query.host)
    case Dropped =>
      step == Register(query.host) || step == SendQuery(query.host, query.request, true)
      || step == SendQuery(query.host, query.request, false)
  }

  /** The fate of the query is as it was, or the step gave it a deserved one. */
  predicate SettlesOnlyItsOwn(s: Registry, step: Step, q: QueryId)
    requires q < |s.queries|
  {
    q < |Do(s, step).queries| &&
    var before, after := s.queries[q], Do(s, step).queries[q];
    after == before
    || (before.fate.Waiting? && after == before.(fate := after.fate) && Deserved(s, before, step, after.fate))
  }

  lemma PendingOfHost(s: Registry, host: HostId, q: QueryId)
    requires Linked(s) && host in s.connections && q < |s.queries|
    ensures q in s.connections[host].pending.Values ==>
              s.queries[q] == Query(host, s.connections[host].socket, s.queries[q].request, Waiting)
  {
    if q in s.connections[host].pending.Values {
      var r :| r in s.connections[host].pending && s.connections[host].pending[r] == q;
    }
  }

  lemma RegisterSettles(s: Registry, host: HostId, q: QueryId)
    requires Linked(s) && q < |s.queries|
    ensures SettlesOnlyItsOwn(s, Register(host), q)
  {
    if host in s.connections {
      PendingOfHost(s, host, q);
    }
  }

  lemma CloseSettles(s: Registry, socket: SocketId, q: QueryId)
    requires Linked(s) && q < |s.queries|
    ensures SettlesOnlyItsOwn(s, Close(socket), q)
  {
    if socket in s.open && socket < |s.sockets| && s.sockets[socket] in s.connections {
      PendingOfHost(s, s.sockets[socket], q);
    }
  }

  lemma QuerySettles(s: Registry, step: Step, q: QueryId)
    requires Linked(s) && q < |s.queries| && (step.SendQuery? || step.Respond?)
    ensures SettlesOnlyItsOwn(s, step, q)
  {
  }

  /** A step changes the fate of a waiting channel only: to an answer if the step is a response with its
      own id from its own host, to "agent disconnected" if a socket of its host closes, and to nothing if
      its host connects anew or its id is used again. */
  lemma StepSettlesOnlyItsOwn(s: Registry, step: Step, q: QueryId)
    requires Linked(s) && q < |s.queries|
    ensures SettlesOnlyItsOwn(s, step, q)
  {
    match step {
      case Register(host) => RegisterSettles(s, host, q);
      case Close(socket) => CloseSettles(s, socket, q);
      case _ => QuerySettles(s, step, q);
    }
  }

  /** A query completes at most once: once its channel is settled, no run changes it. */
  lemma {:induction false} SettledForGood(s: Registry, steps: seq<Step>, q: QueryId)
    requires Linked(s) && q < |s.queries| && !s.queries[q].fate.Waiting?
    ensures q < |Run(s, steps).queries| && Run(s, steps).queries[q] == s.queries[q]
    decreases |steps|
  {
    if steps != [] {
      StepSettlesOnlyItsOwn(s, steps[0], q);
      StepKeepsLinked(s, steps[0]);
      SettledForGood(Do(s, steps[0]), steps[1..], q);
    }
  }

  /** A response settles its query if and only if the query waits. */
  lemma ResponseAnswersIffWaiting(s: Registry, q: QueryId, payload: Payload)
    requires Linked(s) && q < |s.queries|
    ensures
      var query := s.queries[q];
      var after := Do(s, Respond(query.host, query.request, payload)).queries[q];
      if query.fate.Waiting? then after.fate == Answered(payload) else after == query
  {
    var query := s.queries[q];
    StepSettlesOnlyItsOwn(s, Respond(query.host, query.request, payload), q);
  }

  // ----- the conservation of queries ------------------------------------------------------------------

  datatype Tally = Tally(waiting: nat, completed: nat, dropped: nat)

  /** The queries after a new one with this id, whose earlier one is dropped. */
  predicate AddsQuery(s: Registry, s': Registry, host: HostId, request: string, fate: Fate)
    requires host in s.connections
  {
    var n, connection := |s.queries|, s.connections[host];
    && |s'.queries| == n + 1 && s'.queries[n] == Query(host, connection.socket, request, fate)
    && (forall q :: 0 <= q < n ==>
          s'.queries[q] == (if request in connection.pending && connection.pending[request] == q then
                              s.queries[q].(fate := Dropped)
                            else s.queries[q]))
  }

  lemma SentIsIssued(s: Registry, host: HostId, request: string)
    requires Valid(s) && host in s.connections
    ensures AddsQuery(s, Issue(s, host, request), host, request, Waiting)
  {
  }

  lemma FailedIsDropped(s: Registry, s': Registry, host: HostId, request: string)
    requires host in s.connections && AddsQuery(s, s', host, request, Waiting)
    ensures AddsQuery(s, s'.(queries := Settle(s'.queries, {|s.queries|}, Dropped)), host, request, Dropped)
  {
  }

  /** A query to a connected host is one more query on its connection, and an earlier one with its id is dropped.
      It waits if it was sent; a failed send drops it, and its id is not pending then. Nothing else changes. */
  lemma QueryIsIssued(s: Registry, host: HostId, request: string, sent: bool)
    requires Valid(s) && host in s.connections
    ensures
      var s', connection := Do(s, SendQuery(host, request, sent)), s.connections[host];
      && AddsQuery(s, s', host, request, if sent then Waiting else Dropped)
      && s'.connections == s.connections[host := Connection(
           connection.socket,
           if sent then connection.pending[request := |s.queries|] else connection.pending - {request})]
      && s' == s.(connections := s'.connections, queries := s'.queries)
  {
    SentIsIssued(s, host, request);
    if !sent {
      var pending := s.connections[host].pending;
      assert pending[request := |s.queries|] - {request} == pending - {request};
      FailedIsDropped(s, Issue(s, host, request), host, request);
    }
  }

  /** A query to a host without a connection is not issued. */
  lemma UnconnectedIsNotIssued(s: Registry, host: HostId, request: string, sent: bool)
    requires host !in s.connections
    ensures Do(s, SendQuery(host, request, sent)) == s
  {
  }

  function Count(queries: seq<Query>): Tally {
    if queries == [] then Tally(0, 0, 0)
    else
      var rest := Count(queries[1..]);
      match queries[0].fate
      case Waiting => rest.(waiting := rest.waiting + 1)
      case Dropped => rest.(dropped := rest.dropped + 1)
      case _ => rest.(completed := rest.completed + 1)
  }

  function PendingIds(s: Registry): set<QueryId> {
    set h, r | h in s.connections && r in s.connections[h].pending :: s.connections[h].pending[r]
  }

  function WaitingIds(queries: seq<Query>): set<QueryId> {
    set q | 0 <= q < |queries| && queries[q].fate.Waiting?
  }

  lemma {:induction false} WaitingCounted(queries: seq<Query>)
    ensures |WaitingIds(queries)| == Count(queries).waiting
    decreases |queries|
  {
    if queries != [] {
      var n := |queries| - 1;
      WaitingCounted(queries[..n]);
      CountLast(queries);
      if queries[n].fate.Waiting? {
        assert WaitingIds(queries) == WaitingIds(queries[..n]) + {n};
      } else {
        assert WaitingIds(queries) == WaitingIds(queries[..n]);
      }
    }
  }

  lemma {:induction false} CountLast(queries: seq<Query>)
    requires queries != []
    ensures Count(queries).waiting
         == Count(queries[..|queries| - 1]).waiting + (if queries[|queries| - 1].fate.Waiting? then 1 else 0)
    decreases |queries|
  {
    if |queries| > 1 {
      CountLast(queries[1..]);
      assert queries[..|queries| - 1][1..] == queries[1..][..|queries| - 2];
    }
  }

  lemma {:induction false} CountTotal(queries: seq<Query>)
    ensures |queries| == Count(queries).waiting + Count(queries).completed + Count(queries).dropped
  {
    if queries != [] {
      CountTotal(queries[1..]);
    }
  }

  /** Issued queries are the pending ones, the completed ones and the dropped ones. */
  lemma IssuedArePendingCompletedOrDropped(s: Registry)
    requires Linked(s)
    ensures |s.queries| == |PendingIds(s)| + Count(s.queries).completed + Count(s.queries).dropped
  {
    WaitingCounted(s.queries);
    CountTotal(s.queries);
    assert PendingIds(s) == WaitingIds(s.queries);
  }

  // ----- a close, and whose connection it ends --------------------------------------------------------

  /** A later socket of the same host holds the registration. */
  predicate Succeeded(s: Registry, socket: SocketId)
    requires socket < |s.sockets|
  {
    s.sockets[socket] in s.connections && s.connections[s.sockets[socket]].socket > socket
  }

  /** The connections and the queries of all sockets but one are as they were. */
  predicate OthersUntouched(s: Registry, s': Registry, socket: SocketId) {
    && (forall h :: h in s.connections && s.connections[h].socket != socket ==>
          h in s'.connections && s'.connections[h] == s.connections[h])
    && |s'.queries| == |s.queries|
    && (forall q :: 0 <= q < |s.queries| && s.queries[q].socket != socket ==> s'.queries[q] == s.queries[q])
  }

  /** The close of a socket leaves the connections and the queries of all other sockets alone if and only if
      no later socket of its host holds the registration. Then it ends its own connection, if it has one. */
  lemma CloseEndsOnlyItsOwnIffLast(s: Registry, socket: SocketId)
    requires Valid(s) && socket in s.open
    ensures OthersUntouched(s, Closed(s, socket), socket) <==> !Succeeded(s, socket)
    ensures !Succeeded(s, socket) ==>
              forall h :: h in Closed(s, socket).connections
                     <==> h in s.connections && s.connections[h].socket != socket
  {
    var host := s.sockets[socket];
    if host in s.connections {
      forall q | 0 <= q < |s.queries|
        ensures q in s.connections[host].pending.Values ==> s.queries[q].socket == s.connections[host].socket
      {
        PendingOfHost(s, host, q);
      }
      assert host !in Closed(s, socket).connections;
    }
  }

  /** The same in every state that a run from the empty registry reaches. */
  lemma ClosesOverRuns(steps: seq<Step>, socket: SocketId)
    requires socket in Run(EMPTY, steps).open
    ensures socket < |Run(EMPTY, steps).sockets|
    ensures
      var s := Run(EMPTY, steps);
      OthersUntouched(s, Do(s, Close(socket)), socket) <==> !Succeeded(s, socket)
  {
    RunsKeepRegistry(EMPTY, steps);
    CloseEndsOnlyItsOwnIffLast(Run(EMPTY, steps), socket);
  }

  /** No host has two open sockets. */
  predicate OneSocketEach(s: Registry) {
    forall j, k ::
      j in s.open && k in s.open && j < |s.sockets| && k < |s.sockets| && s.sockets[j] == s.sockets[k] ==> j == k
  }

  predicate HasOpenSocket(s: Registry, host: HostId) {
    exists k :: k in s.open && k < |s.sockets| && s.sockets[k] == host
  }

  /** Agents connect again only when their last socket was closed. */
  predicate Reconnects(s: Registry, steps: seq<Step>)
    decreases |steps|
  {
    steps == []
    || ((steps[0].Register? ==> !HasOpenSocket(s, steps[0].host)) && Reconnects(Do(s, steps[0]), steps[1..]))
  }

  lemma StepKeepsOneSocket(s: Registry, step: Step)
    requires OneSocketEach(s) && (step.Register? ==> !HasOpenSocket(s, step.host))
    ensures OneSocketEach(Do(s, step))
  {
  }

  /** If agents connect again only after their last socket was closed, every close ends its own connection
      only. */
  lemma {:induction false} ReconnectsCloseTheirOwn(s: Registry, steps: seq<Step>, socket: SocketId)
    requires Valid(s) && OneSocketEach(s) && Reconnects(s, steps) && socket in Run(s, steps).open
    ensures OthersUntouched(Run(s, steps), Do(Run(s, steps), Close(socket)), socket)
    decreases |steps|
  {
    if steps == [] {
      CloseEndsOnlyItsOwnIffLast(s, socket);
    } else {
      StepKeepsOneSocket(s, steps[0]);
      StepKeepsLinked(s, steps[0]);
      StepKeepsGauge(s, steps[0]);
      StepKeepsSockets(s, steps[0]);
      ReconnectsCloseTheirOwn(Do(s, steps[0]), steps[1..], socket);
    }
  }

  /** No host that is registered registers again. */
  predicate NeverReplaces(s: Registry, steps: seq<Step>)
    decreases |steps|
  {
    steps == []
    || ((steps[0].Register? ==> steps[0].host !in s.connections) && NeverReplaces(Do(s, steps[0]), steps[1..]))
  }

  lemma {:induction false} ReplacementsAreCounted(s: Registry, steps: seq<Step>)
    ensures Run(s, steps).replaced >= s.replaced
    ensures Run(s, steps).replaced == s.replaced <==> NeverReplaces(s, steps)
    decreases |steps|
  {
    if steps != [] {
      ReplacementsAreCounted(Do(s, steps[0]), steps[1..]);
    }
  }

  /** Over every run from the empty registry the gauge is the number of live connections if and only if no
      registered host registered again. */
  lemma GaugeIffNeverReplaced(steps: seq<Step>)
    ensures Run(EMPTY, steps).active == |Run(EMPTY, steps).connections| <==> NeverReplaces(EMPTY, steps)
  {
    RunsKeepRegistry(EMPTY, steps);
    ReplacementsAreCounted(EMPTY, steps);
  }

  /** The failing run: a host connects twice and the first socket closes. The second socket stays open
      without a registration, its query is answered "agent disconnected", and the gauge stays one too high. */
  lemma StaleSocketRemovesItsSuccessor(s: Registry, host: HostId, request: string)
    requires Valid(s) && host !in s.connections
    ensures
      var first := |s.sockets|;
      var s' := Closed(Sent(Registered(Registered(s, host), host), host, request, true), first);
      && s'.connections == s.connections && s'.open == s.open + {first + 1} && s'.active == s.active + 1
      && s'.queries == s.queries + [Query(host, first + 1, request, Disconnected)]
  {
    SecondConnectionEnds(s, host, request, Registered(Registered(s, host), host));
  }

  lemma SecondConnectionEnds(s: Registry, host: HostId, request: string, two: Registry)
    requires |s.sockets| !in s.open && host !in s.connections && two == Registered(Registered(s, host), host)
    ensures
      var first := |s.sockets|;
      var s' := Closed(Sent(two, host, request, true), first);
      && s'.connections == s.connections && s'.open == s.open + {first + 1} && s'.active == s.active + 1
      && s'.queries == s.queries + [Query(host, first + 1, request, Disconnected)]
  {
    var first := |s.sockets|;
    RegisteredTwice(s, host);
    CloseAfterQuery(two, host, request, first);
    assert s.connections[host := Connection(first + 1, map[])] - {host} == s.connections;
    assert s.open + {first, first + 1} - {first} == s.open + {first + 1};
  }

  lemma RegisteredTwice(s: Registry, host: HostId)
    requires host !in s.connections
    ensures
      var two := Registered(Registered(s, host), host);
      && two.connections == s.connections[host := Connection(|s.sockets| + 1, map[])] && two.active == s.active + 2
      && two.queries == s.queries && two.sockets == s.sockets + [host, host]
         && two.open == s.open + {|s.sockets|, |s.sockets| + 1}
  {
    assert Settle(s.queries, {}, Dropped) == s.queries;
    assert Registered(s, host).connections[host].pending.Values == {};
  }

  lemma CloseAfterQuery(s: Registry, host: HostId, request: string, socket: SocketId)
    requires host in s.connections && s.connections[host].pending == map[]
    requires socket in s.open && socket < |s.sockets| && s.sockets[socket] == host
    ensures Closed(Sent(s, host, request, true), socket)
         == s.(connections := s.connections - {host}, active := s.active - 1, open := s.open - {socket},
               queries := s.queries + [Query(host, s.connections[host].socket, request, Disconnected)])
  {
    var issued := Issue(s, host, request);
    assert issued.connections[host].pending == map[request := |s.queries|];
    assert issued.connections[host].pending.Values == {|s.queries|};
    assert issued.connections - {host} == s.connections - {host};
    assert Settle(issued.queries, {|s.queries|}, Disconnected)
        == s.queries + [Query(host, s.connections[host].socket, request, Disconnected)];
  }
}
