/** Go channels as values, with the two things that must never happen to them made visible. */
module Channels {

  const CAPACITY := 256

  datatype Channel<M> = Channel(buffer: seq<M>, closed: bool) {
    predicate Full() { |buffer| >= CAPACITY }

    /** A select with a default: the message is dropped when the buffer is full. */
    function TrySend(m: M): Channel<M> {
      if Full() then this else this.(buffer := buffer + [m])
    }

    function Close(): Channel<M> {
      this.(closed := true)
    }

    function Receive(): Channel<M> {
      if buffer == [] then this else this.(buffer := buffer[1..])
    }
  }
}

/** The controller's exec tunnel manager as one state machine: the tunnels of agents, the
    sessions of browsers and the index of attach tokens. Every event is one critical section;
    they interleave freely. Source: internal/app/controller/exec_tunnel.go. */
module ExecTunnelProtocol {
  import opened Common
  import opened Channels

  const SECOND := 1_000_000_000
  const ATTACH_TOKEN_TTL := 60 * SECOND

  datatype Kind = Start | Stdin | Resize | CloseKind

  datatype Message = Message(session: nat, kind: Kind)

  datatype Tunnel = Tunnel(node: string, sendCh: Channel<Message>)

  /** `confirms` is history: how many attaches of this session were confirmed. */
  datatype Session = Session(
    node: string,
    token: Option<nat>,
    expires: int,
    incoming: Channel<string>,
    closed: bool,
    taken: bool,
    attaching: bool,
    confirms: nat)

  /** Tunnels and sessions are referred to by number; `tunnelHeap` and `sessionHeap` hold all
      that were ever made, also those that only other goroutines still know. `sessions` are the
      ones in the manager's map. `panicked` records a send on a closed channel or a second
      close; `issued` the attach tokens generated so far. */
  datatype Manager = Manager(
    tunnels: map<string, nat>,
    sessions: set<nat>,
    attachTokens: map<nat, nat>,
    tunnelHeap: seq<Tunnel>,
    sessionHeap: seq<Session>,
    issued: set<nat>,
    panicked: bool)

  const INIT := Manager(map[], {}, map[], [], [], {}, false)

  // ----- Tunnels -----

  function CloseTunnel(m: Manager, t: nat): Manager
    requires t < |m.tunnelHeap|
  {
    var tunnel := m.tunnelHeap[t];
    m.(panicked := m.panicked || tunnel.sendCh.closed,
       tunnelHeap := m.tunnelHeap[t := tunnel.(sendCh := tunnel.sendCh.Close())])
  }

  function RegisterTunnel(m: Manager, node: string): Manager {
    var m' := m.(tunnels := m.tunnels[node := |m.tunnelHeap|],
                 tunnelHeap := m.tunnelHeap + [Tunnel(node, Channel([], false))]);
    if node in m.tunnels && m.tunnels[node] < |m.tunnelHeap| then CloseTunnel(m', m.tunnels[node]) else m'
  }

  /** Sends to the node's tunnel, if there is one and it has room. */
  function Tell(m: Manager, node: string, msg: Message): (Manager, bool) {
    if node !in m.tunnels || m.tunnels[node] >= |m.tunnelHeap| then (m, false)
    else
      var t := m.tunnels[node];
      var tunnel := m.tunnelHeap[t];
      (m.(panicked := m.panicked || tunnel.sendCh.closed,
          tunnelHeap := m.tunnelHeap[t := tunnel.(sendCh := tunnel.sendCh.TrySend(msg))]),
       !tunnel.sendCh.Full())
  }

  // ----- Closing sessions -----

  function Shut(s: Session): Session {
    s.(closed := true, incoming := s.incoming.Close(), attaching := false, token := None)
  }

  function CloseSession(m: Manager, id: nat): Manager {
    if id !in m.sessions || id >= |m.sessionHeap| || m.sessionHeap[id].closed then m
    else
      var s := m.sessionHeap[id];
      Tell(m.(panicked := m.panicked || s.incoming.closed,
              sessionHeap := m.sessionHeap[id := Shut(s)],
              attachTokens := if s.token.Some? then m.attachTokens - {s.token.value} else m.attachTokens,
              sessions := m.sessions - {id}),
           s.node, Message(id, CloseKind)).0
  }

  datatype Which = ExpiredAt(now: int) | OnNode(node: string)

  predicate Selected(s: Session, which: Which) {
    match which
    case ExpiredAt(now) => !s.closed && !s.taken && !s.attaching && s.token.Some? && now >= s.expires
    case OnNode(node) => s.node == node
  }

  /** Visits sessions in the order a map iteration yields them and closes the selected ones. */
  function CloseWhere(m: Manager, order: seq<nat>, which: Which): Manager {
    if order == [] then m
    else
      var m' := CloseWhere(m, Front(order), which);
      var id := Last(order);
      if id in m'.sessions && id < |m'.sessionHeap| && Selected(m'.sessionHeap[id], which) then CloseSession(m', id)
      else m'
  }

  function Sweep(m: Manager, order: seq<nat>, now: int): Manager {
    CloseWhere(m, order, ExpiredAt(now))
  }

  function UnregisterTunnel(m: Manager, t: nat, order: seq<nat>): Manager {
    if t >= |m.tunnelHeap| then m
    else
      var node := m.tunnelHeap[t].node;
      if node !in m.tunnels || m.tunnels[node] != t then m
      else CloseWhere(CloseTunnel(m, t).(tunnels := m.tunnels - {node}), order, OnNode(node))
  }

  // ----- Sessions -----

  /** A new session, whose start message must fit into the tunnel. */
  function OpenSession(m: Manager, node: string, token: nat, now: int): (Manager, Option<nat>) {
    if node !in m.tunnels then (m, None)
    else
      var id := |m.sessionHeap|;
      var s := Session(node, Some(token), now + ATTACH_TOKEN_TTL, Channel([], false), false, false, false, 0);
      var (m', ok) := Tell(m.(sessions := m.sessions + {id}, sessionHeap := m.sessionHeap + [s],
                              attachTokens := m.attachTokens[token := id], issued := m.issued + {token}),
                           node, Message(id, Start));
      if ok then (m', Some(id)) else (CloseSession(m', id), None)
  }

  function SendToSessionNode(m: Manager, id: nat, kind: Kind): (Manager, bool) {
    if id !in m.sessions || id >= |m.sessionHeap| || m.sessionHeap[id].closed then (m, false)
    else if m.sessionHeap[id].node !in m.tunnels then (m, false)
    else
      var (m', ok) := Tell(m, m.sessionHeap[id].node, Message(id, kind));
      if ok then (m', true) else (CloseSession(m', id), false)
  }

  /** session.deliver, on a session that a receiving goroutine looked up earlier. */
  function Deliver(m: Manager, id: nat, payload: string): (Manager, bool) {
    if id >= |m.sessionHeap| || m.sessionHeap[id].closed then (m, false)
    else
      var s := m.sessionHeap[id];
      (m.(panicked := m.panicked || s.incoming.closed,
          sessionHeap := m.sessionHeap[id := s.(incoming := s.incoming.TrySend(payload))]), !s.incoming.Full())
  }

  // ----- Attaching a browser -----

  /** sessionForAttachTokenLocked: the session of a token that has not expired at `now`. */
  function Lookup(m: Manager, token: nat, now: int): (Manager, Option<nat>) {
    if token !in m.attachTokens then (m, None)
    else
      var id := m.attachTokens[token];
      if id !in m.sessions || id >= |m.sessionHeap| || m.sessionHeap[id].closed then
        (m.(attachTokens := m.attachTokens - {token}), None)
      else if m.sessionHeap[id].token != Some(token) then (m, None)
      else if m.sessionHeap[id].expires <= now then (CloseSession(m, id), None)
      else (m, Some(id))
  }

  function Reserve(m: Manager, token: nat, now: int): (Manager, Option<nat>) {
    var (m', id) := Lookup(m, token, now);
    if id.None? || id.value >= |m'.sessionHeap| then (m', None)
    else
      var s := m'.sessionHeap[id.value];
      if s.taken || s.attaching then (m', None)
      else (m'.(sessionHeap := m'.sessionHeap[id.value := s.(attaching := true)]), id)
  }

  function Confirm(m: Manager, token: nat, now: int): (Manager, Option<nat>) {
    var (m', id) := Lookup(m, token, now);
    if id.None? || id.value >= |m'.sessionHeap| then (m', None)
    else
      var s := m'.sessionHeap[id.value];
      if s.taken || !s.attaching then (m', None)
      else
        (m'.(attachTokens := m'.attachTokens - {token},
             sessionHeap := m'.sessionHeap[id.value :=
               s.(attaching := false, taken := true, token := None, confirms := s.confirms + 1)]), id)
  }

  function Release(m: Manager, token: nat, now: int): Manager {
    var (m', id) := Lookup(m, token, now);
    if id.None? || id.value >= |m'.sessionHeap| || m'.sessionHeap[id.value].taken then m'
    else m'.(sessionHeap := m'.sessionHeap[id.value := m'.sessionHeap[id.value].(attaching := false)])
  }

  // ----- The machine -----

  /** `order` is the iteration order of a sweep, `now` its time and `later` that of the token
      check after it. ReceiveRequest and ReceiveMessage are the two readers of the channels. */
  datatype Event =
    | Register(node: string)
    | Unregister(tunnel: nat, order: seq<nat>)
    | SweepExpired(order: seq<nat>, now: int)
    | Open(node: string, token: nat, order: seq<nat>, now: int)
    | SendToNode(session: nat, kind: Kind, order: seq<nat>, now: int)
    | DeliverTo(session: nat, payload: string)
    | ReserveAttach(token: nat, order: seq<nat>, now: int, later: int)
    | ConfirmAttach(token: nat, order: seq<nat>, now: int, later: int)
    | ReleaseAttach(token: nat, order: seq<nat>, now: int, later: int)
    | CloseOne(session: nat)
    | ReceiveRequest(tunnel: nat)
    | ReceiveMessage(session: nat)

  function Next(m: Manager, ev: Event): Manager {
    match ev
    case Register(node) => RegisterTunnel(m, node)
    case Unregister(t, order) => UnregisterTunnel(m, t, order)
    case SweepExpired(order, now) => Sweep(m, order, now)
    case Open(node, token, order, now) =>
      if token in m.issued then m else OpenSession(Sweep(m, order, now), node, token, now).0
    case SendToNode(id, kind, order, now) => SendToSessionNode(Sweep(m, order, now), id, kind).0
    case DeliverTo(id, payload) => Deliver(m, id, payload).0
    case ReserveAttach(token, order, now, later) => Reserve(Sweep(m, order, now), token, later).0
    case ConfirmAttach(token, order, now, later) => Confirm(Sweep(m, order, now), token, later).0
    case ReleaseAttach(token, order, now, later) => Release(Sweep(m, order, now), token, later)
    case CloseOne(id) => CloseSession(m, id)
    case ReceiveRequest(t) =>
      if t >= |m.tunnelHeap| then m
      else m.(tunnelHeap := m.tunnelHeap[t := m.tunnelHeap[t].(sendCh := m.tunnelHeap[t].sendCh.Receive())])
    case ReceiveMessage(id) =>
      if id >= |m.sessionHeap| then m
      else m.(sessionHeap := m.sessionHeap[id := m.sessionHeap[id].(incoming := m.sessionHeap[id].incoming.Receive())])
  }

  function Run(m: Manager, events: seq<Event>): Manager {
    if events == [] then m else Next(Run(m, Front(events)), Last(events))
  }
}
