/** The controller's container-log tunnel manager as one state machine. Delivering a message
    from an agent takes up to three critical sections, between which everything else may run.
    Source: internal/app/controller/container_log_tunnel.go. */
module ContainerLogProtocol {
  import opened Common
  import opened Channels

  datatype Request = Start(session: nat) | Close(session: nat)

  datatype LogMessage = Chunk(text: string) | Error(text: string) | Closed

  predicate Terminal(msg: LogMessage) { msg.Error? || msg.Closed? }

  datatype Tunnel = Tunnel(node: string, sendCh: Channel<Request>)

  datatype Session = Session(node: string, incoming: Channel<LogMessage>, closed: bool)

  /** A deliverFromAgent call on its way: it has looked up its session, failed to deliver, or
      delivered a terminal message. */
  datatype Stage = Found | Failed | Sent

  datatype Delivery = Delivery(session: nat, message: LogMessage, stage: Stage)

  /** `deliveries` holds what each receiving goroutine is doing. `orphans` is history: sessions
      whose terminal message met a full buffer. */
  datatype Manager = Manager(
    tunnels: map<string, nat>,
    sessions: set<nat>,
    tunnelHeap: seq<Tunnel>,
    sessionHeap: seq<Session>,
    deliveries: map<nat, Delivery>,
    orphans: set<nat>,
    panicked: bool)

  const INIT := Manager(map[], {}, [], [], map[], {}, false)

  function CloseTunnel(m: Manager, t: nat): Manager
    requires t < |m.tunnelHeap|
  {
    m.(panicked := m.panicked || m.tunnelHeap[t].sendCh.closed,
       tunnelHeap := m.tunnelHeap[t := m.tunnelHeap[t].(sendCh := m.tunnelHeap[t].sendCh.Close())])
  }

  function RegisterTunnel(m: Manager, node: string): Manager {
    var m' := m.(tunnels := m.tunnels[node := |m.tunnelHeap|],
                 tunnelHeap := m.tunnelHeap + [Tunnel(node, Channel([], false))]);
    if node in m.tunnels && m.tunnels[node] < |m.tunnelHeap| then CloseTunnel(m', m.tunnels[node]) else m'
  }

  function Tell(m: Manager, node: string, msg: Request): (Manager, bool) {
    if node !in m.tunnels || m.tunnels[node] >= |m.tunnelHeap| then (m, false)
    else
      var t := m.tunnels[node];
      var tunnel := m.tunnelHeap[t];
      (m.(panicked := m.panicked || tunnel.sendCh.closed,
          tunnelHeap := m.tunnelHeap[t := tunnel.(sendCh := tunnel.sendCh.TrySend(msg))]),
       !tunnel.sendCh.Full())
  }

  /** session.close: closing twice is harmless. */
  function CloseChannel(m: Manager, id: nat): Manager {
    if id >= |m.sessionHeap| || m.sessionHeap[id].closed then m
    else
      var s := m.sessionHeap[id];
      m.(panicked := m.panicked || s.incoming.closed,
         sessionHeap := m.sessionHeap[id := s.(closed := true, incoming := s.incoming.Close())])
  }

  function CloseSession(m: Manager, id: nat): Manager {
    if id !in m.sessions || id >= |m.sessionHeap| then m
    else Tell(CloseChannel(m.(sessions := m.sessions - {id}), id), m.sessionHeap[id].node, Close(id)).0
  }

  /** Unregistering drops the node's sessions in the order the map yields them. */
  function DropNode(m: Manager, order: seq<nat>, node: string): Manager {
    if order == [] then m
    else
      var m' := DropNode(m, Front(order), node);
      var id := Last(order);
      if id in m'.sessions && id < |m'.sessionHeap| && m'.sessionHeap[id].node == node then
        CloseChannel(m'.(sessions := m'.sessions - {id}), id)
      else m'
  }

  function UnregisterTunnel(m: Manager, t: nat, order: seq<nat>): Manager {
    if t >= |m.tunnelHeap| then m
    else
      var node := m.tunnelHeap[t].node;
      if node !in m.tunnels || m.tunnels[node] != t then m
      else DropNode(CloseTunnel(m, t).(tunnels := m.tunnels - {node}), order, node)
  }

  function OpenSession(m: Manager, node: string): (Manager, Option<nat>) {
    if node !in m.tunnels then (m, None)
    else
      var id := |m.sessionHeap|;
      var (m', ok) := Tell(m.(sessions := m.sessions + {id},
                              sessionHeap := m.sessionHeap + [Session(node, Channel([], false), false)]),
                           node, Start(id));
      if ok then (m', Some(id)) else (CloseChannel(m'.(sessions := m'.sessions - {id}), id), None)
  }

  // ----- deliverFromAgent -----

  /** Under the manager's lock: look the session up, and unlist it at a terminal message. */
  function BeginDelivery(m: Manager, g: nat, id: nat, msg: LogMessage): Manager {
    if g in m.deliveries || id !in m.sessions then m
    else m.(deliveries := m.deliveries[g := Delivery(id, msg, Found)],
            sessions := if Terminal(msg) then m.sessions - {id} else m.sessions)
  }

  /** Under the session's lock: put the message into the buffer if the session is open. */
  function SendDelivery(m: Manager, g: nat): Manager {
    if g !in m.deliveries || !m.deliveries[g].stage.Found? || m.deliveries[g].session >= |m.sessionHeap| then m
    else
      var d := m.deliveries[g];
      var s := m.sessionHeap[d.session];
      if s.closed then m.(deliveries := m.deliveries[g := d.(stage := Failed)])
      else if s.incoming.Full() then
        m.(deliveries := m.deliveries[g := d.(stage := Failed)],
           orphans := if Terminal(d.message) then m.orphans + {d.session} else m.orphans)
      else
        m.(panicked := m.panicked || s.incoming.closed,
           sessionHeap := m.sessionHeap[d.session := s.(incoming := s.incoming.TrySend(d.message))],
           deliveries := if Terminal(d.message) then m.deliveries[g := d.(stage := Sent)] else m.deliveries - {g})
  }

  /** A failed delivery closes the session if it is still listed; a terminal one that was
      delivered closes its channel. */
  function FinishDelivery(m: Manager, g: nat): Manager {
    if g !in m.deliveries || m.deliveries[g].stage.Found? then m
    else
      var d := m.deliveries[g];
      var m' := m.(deliveries := m.deliveries - {g});
      if d.stage.Failed? then CloseSession(m', d.session) else CloseChannel(m', d.session)
  }

  // ----- The machine -----

  datatype Event =
    | Register(node: string)
    | Unregister(tunnel: nat, order: seq<nat>)
    | Open(node: string)
    | CloseOne(session: nat)
    | Begin(g: nat, session: nat, message: LogMessage)
    | Send(g: nat)
    | Finish(g: nat)
    | ReceiveRequest(tunnel: nat)
    | ReceiveMessage(session: nat)

  function Next(m: Manager, ev: Event): Manager {
    match ev
    case Register(node) => RegisterTunnel(m, node)
    case Unregister(t, order) => UnregisterTunnel(m, t, order)
    case Open(node) => OpenSession(m, node).0
    case CloseOne(id) => CloseSession(m, id)
    case Begin(g, id, msg) => BeginDelivery(m, g, id, msg)
    case Send(g) => SendDelivery(m, g)
    case Finish(g) => FinishDelivery(m, g)
    case ReceiveRequest(t) =>
      if t >= |m.tunnelHeap| then m
      else m.(tunnelHeap := m.tunnelHeap[t := m.tunnelHeap[t].(sendCh := m.tunnelHeap[t].sendCh.Receive())])
    case ReceiveMessage(id) =>
      if id >= |m.sessionHeap| then m
      else m.(sessionHeap := m.sessionHeap[id := m.sessionHeap[id].(incoming := m.sessionHeap[id].incoming.Receive())])
  }

  function Run(m: Manager, events: seq<Event>): Manager {
    if events == [] then m else Next(Run(m, Front(events)), Last(events))
  }
}
