/** The container-log manager as the object it is, proved against the functions of
    ContainerLogProtocol. */
module ContainerLogManager {
  import opened Common
  import opened Channels
  import opened ContainerLogProtocol
  import opened ContainerLogSafety

  class LogTunnelManager {
    var tunnels: map<string, nat>
    var sessions: set<nat>
    var tunnelHeap: seq<Tunnel>
    var sessionHeap: seq<Session>
    ghost var deliveries: map<nat, Delivery>
    ghost var orphans: set<nat>

    ghost function View(): Manager
      reads this
    {
      Manager(tunnels, sessions, tunnelHeap, sessionHeap, deliveries, orphans, false)
    }

    ghost predicate Valid()
      reads this
    {
      Inv(View())
    }

    constructor ()
      ensures Valid() && View() == INIT
    {
      tunnels, sessions, tunnelHeap, sessionHeap := map[], {}, [], [];
      deliveries, orphans := map[], {};
    }

    // ----- Channel operations -----

    method CloseTunnelChannel(t: nat)
      requires t < |tunnelHeap| && !tunnelHeap[t].sendCh.closed
      modifies this`tunnelHeap
      ensures View() == CloseTunnel(old(View()), t)
    {
      tunnelHeap := tunnelHeap[t := tunnelHeap[t].(sendCh := tunnelHeap[t].sendCh.Close())];
    }

    method TrySend(t: nat, msg: Request) returns (ok: bool)
      requires t < |tunnelHeap| && !tunnelHeap[t].sendCh.closed
      modifies this`tunnelHeap
      ensures tunnelHeap == old(tunnelHeap)[t := old(tunnelHeap)[t].(sendCh := old(tunnelHeap)[t].sendCh.TrySend(msg))]
      ensures ok == !old(tunnelHeap)[t].sendCh.Full()
    {
      var channel := tunnelHeap[t].sendCh;
      if |channel.buffer| >= CAPACITY {
        return false;
      }
      tunnelHeap := tunnelHeap[t := tunnelHeap[t].(sendCh := channel.(buffer := channel.buffer + [msg]))];
      return true;
    }

    method Tell(node: string, msg: Request) returns (ok: bool)
      requires Valid()
      modifies this`tunnelHeap
      ensures Valid() && (View(), ok) == ContainerLogProtocol.Tell(old(View()), node, msg)
    {
      TellKeeps(View(), node, msg);
      if node !in tunnels {
        return false;
      }
      assert Registered(View(), tunnels[node]);
      ok := TrySend(tunnels[node], msg);
    }

    /** session.close. */
    method CloseChannel(id: nat)
      requires id < |sessionHeap| && sessionHeap[id].closed == sessionHeap[id].incoming.closed
      modifies this`sessionHeap
      ensures View() == ContainerLogProtocol.CloseChannel(old(View()), id)
    {
      if sessionHeap[id].closed {
        return;
      }
      sessionHeap := sessionHeap[id := sessionHeap[id].(closed := true, incoming := sessionHeap[id].incoming.Close())];
    }

    // ----- Tunnels -----

    method RegisterTunnel(node: string) returns (t: nat)
      requires Valid()
      modifies this
      ensures Valid() && View() == ContainerLogProtocol.RegisterTunnel(old(View()), node) && t == |old(tunnelHeap)|
    {
      RegisterKeeps(View(), node);
      t := |tunnelHeap|;
      tunnelHeap := tunnelHeap + [Tunnel(node, Channel([], false))];
      var previous := if node in tunnels then Some(tunnels[node]) else None;
      assert previous.Some? ==> Registered(old(View()), previous.value);
      tunnels := tunnels[node := t];
      if previous.Some? {
        CloseTunnelChannel(previous.value);
      }
    }

    method UnregisterTunnel(t: nat) returns (ghost order: seq<nat>)
      requires Valid() && t < |tunnelHeap|
      modifies this
      ensures Valid() && View() == ContainerLogProtocol.UnregisterTunnel(old(View()), t, order)
      ensures old(Registered(View(), t)) ==> forall id :: id in old(sessions) ==> id in order
    {
      order := [];
      var node := tunnelHeap[t].node;
      if node !in tunnels || tunnels[node] != t {
        return;
      }
      assert Registered(View(), t);
      UnregisterKeeps(View(), t, []);
      tunnels := tunnels - {node};
      CloseTunnelChannel(t);
      assert View() == ContainerLogProtocol.UnregisterTunnel(old(View()), t, []);
      order := DropSessions(node);
    }

    method DropSessions(node: string) returns (ghost order: seq<nat>)
      requires Valid()
      modifies this
      ensures Valid() && View() == DropNode(old(View()), order, node)
      ensures forall id :: id in old(sessions) ==> id in order
    {
      hide Inv, ContainerLogProtocol.CloseChannel;
      order := [];
      var left := sessions;
      while left != {}
        invariant Valid() && View() == DropNode(old(View()), order, node)
        invariant forall id :: id in old(sessions) ==> id in order || id in left
        decreases left
      {
        var id :| id in left;
        left := left - {id};
        assert Front(order + [id]) == order;
        if id in sessions && id < |sessionHeap| && sessionHeap[id].node == node {
          Unlist(id);
        }
        order := order + [id];
      }
    }

    /** Removes a session from the map and closes it. */
    method Unlist(id: nat)
      requires Valid() && id < |sessionHeap|
      modifies this`sessions, this`sessionHeap
      ensures Valid()
      ensures View() == ContainerLogProtocol.CloseChannel(old(View()).(sessions := old(sessions) - {id}), id)
    {
      ShutKeeps(View(), id);
      assert SessionAgrees(View(), id);
      sessions := sessions - {id};
      CloseChannel(id);
    }

    // ----- Sessions -----

    method OpenSession(node: string) returns (id: Option<nat>)
      requires Valid()
      modifies this
      ensures Valid() && (View(), id) == ContainerLogProtocol.OpenSession(old(View()), node)
    {
      if node !in tunnels {
        return None;
      }
      var session := |sessionHeap|;
      ghost var before := View();
      sessions := sessions + {session};
      sessionHeap := sessionHeap + [Session(node, Channel([], false), false)];
      AddKeeps(before, View(), Session(node, Channel([], false), false));
      var ok := Tell(node, Start(session));
      if !ok {
        Unlist(session);
        return None;
      }
      return Some(session);
    }

    method CloseSession(id: nat)
      requires Valid()
      modifies this
      ensures Valid() && View() == ContainerLogProtocol.CloseSession(old(View()), id)
    {
      CloseKeeps(View(), id);
      if id !in sessions {
        return;
      }
      var node := sessionHeap[id].node;
      Unlist(id);
      var _ := Tell(node, Close(id));
    }

    // ----- deliverFromAgent, section by section -----

    method LookUp(ghost g: nat, id: nat, msg: LogMessage) returns (found: bool)
      requires Valid() && g !in deliveries
      modifies this
      ensures Valid() && View() == BeginDelivery(old(View()), g, id, msg)
      ensures found <==> id in old(sessions)
    {
      BeginKeeps(View(), g, id, msg);
      found := id in sessions;
      if msg.Error? || msg.Closed? {
        sessions := sessions - {id};
        assert !found ==> sessions == old(sessions);
      }
      if found {
        deliveries := deliveries[g := Delivery(id, msg, Found)];
      }
    }

    method Deliver(ghost g: nat, id: nat, msg: LogMessage) returns (ok: bool)
      requires Valid() && g in deliveries && deliveries[g] == Delivery(id, msg, Found)
      modifies this
      ensures Valid() && View() == SendDelivery(old(View()), g)
      ensures ok <==> !old(sessionHeap)[id].closed && !old(sessionHeap)[id].incoming.Full()
      ensures g in deliveries <==> !ok || Terminal(msg)
      ensures g in deliveries ==> deliveries[g] == Delivery(id, msg, if ok then Sent else Failed)
    {
      SendKeeps(View(), g);
      assert SessionAgrees(View(), id);
      var s := sessionHeap[id];
      if s.closed {
        deliveries := deliveries[g := Delivery(id, msg, Failed)];
        return false;
      }
      if |s.incoming.buffer| >= CAPACITY {
        deliveries := deliveries[g := Delivery(id, msg, Failed)];
        orphans := if Terminal(msg) then orphans + {id} else orphans;
        return false;
      }
      sessionHeap := sessionHeap[id := s.(incoming := s.incoming.(buffer := s.incoming.buffer + [msg]))];
      deliveries := if Terminal(msg) then deliveries[g := Delivery(id, msg, Sent)] else deliveries - {g};
      return true;
    }

    method FinishFailed(ghost g: nat, id: nat)
      requires Valid() && g in deliveries && deliveries[g].session == id && deliveries[g].stage.Failed?
      modifies this
      ensures Valid() && View() == FinishDelivery(old(View()), g)
    {
      ForgetFailedKeeps(View(), g);
      deliveries := deliveries - {g};
      CloseSession(id);
    }

    method FinishSent(ghost g: nat, id: nat)
      requires Valid() && g in deliveries && deliveries[g].session == id && deliveries[g].stage.Sent?
      modifies this
      ensures Valid() && View() == FinishDelivery(old(View()), g)
    {
      FinishSentKeeps(View(), g);
      assert SessionAgrees(View(), id);
      deliveries := deliveries - {g};
      CloseChannel(id);
    }

    /** The whole of deliverFromAgent when nothing runs in between. */
    method DeliverFromAgent(ghost g: nat, id: nat, msg: LogMessage)
      requires Valid() && g !in deliveries
      modifies this
      ensures Valid() && View() == FinishDelivery(SendDelivery(BeginDelivery(old(View()), g, id, msg), g), g)
      ensures id !in old(sessions) ==> View() == old(View())
    {
      hide Inv, BeginDelivery, FinishDelivery, SendDelivery;
      var found := LookUp(g, id, msg);
      Began(old(View()), g, id, msg);
      if !found {
        return;
      }
      var ok := Deliver(g, id, msg);
      if !ok {
        FinishFailed(g, id);
      } else if msg.Error? || msg.Closed? {
        FinishSent(g, id);
      } else {
        NothingToFinish(View(), g);
      }
    }

    static lemma Began(m: Manager, g: nat, id: nat, msg: LogMessage)
      requires g !in m.deliveries
      ensures var b := BeginDelivery(m, g, id, msg);
              if id in m.sessions then
                b.deliveries == m.deliveries[g := Delivery(id, msg, Found)] && b.sessionHeap == m.sessionHeap
              else b == m && SendDelivery(b, g) == m && FinishDelivery(m, g) == m
    {}

    static lemma NothingToFinish(m: Manager, g: nat)
      requires g !in m.deliveries
      ensures FinishDelivery(m, g) == m
    {}
  }
}
