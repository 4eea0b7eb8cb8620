/** The exec tunnel manager as the object it is, with its loops over the session map. Proved
    against the functions of ExecTunnelProtocol; channel operations demand an open channel, so
    that no method can panic. */
module ExecTunnelManager {
  import opened Common
  import opened Channels
  import opened ExecTunnelProtocol
  import opened ExecTunnelSafety

  class TunnelManager {
    var tunnels: map<string, nat>
    var sessions: set<nat>
    var attachTokens: map<nat, nat>
    var tunnelHeap: seq<Tunnel>
    var sessionHeap: seq<Session>
    ghost var issued: set<nat>

    ghost function View(): Manager
      reads this
    {
      Manager(tunnels, sessions, attachTokens, tunnelHeap, sessionHeap, issued, false)
    }

    ghost predicate Valid()
      reads this
    {
      Inv(View())
    }

    constructor ()
      ensures Valid() && View() == INIT
    {
      tunnels, sessions, attachTokens, tunnelHeap, sessionHeap, issued := map[], {}, map[], [], [], {};
    }

    // ----- Channel operations -----

    method CloseTunnelChannel(t: nat)
      requires t < |tunnelHeap| && !tunnelHeap[t].sendCh.closed
      modifies this`tunnelHeap
      ensures View() == CloseTunnel(old(View()), t)
    {
      tunnelHeap := tunnelHeap[t := tunnelHeap[t].(sendCh := tunnelHeap[t].sendCh.Close())];
    }

    method TrySend(t: nat, msg: Message) returns (ok: bool)
      requires t < |tunnelHeap| && !tunnelHeap[t].sendCh.closed
      modifies this`tunnelHeap
      ensures tunnelHeap == old(tunnelHeap)[t := old(tunnelHeap)[t].(sendCh := old(tunnelHeap)[t].sendCh.TrySend(msg))]
      ensures ok == !old(tunnelHeap)[t].sendCh.Full()
    {
      var channel := tunnelHeap[t].sendCh;
      if |channel.buffer| >= CAPACITY {
        return false;
      }
      tunnelHeap := tunnelHeap[t := tunnelHeap[t].(sendCh := channel.(buffer := channel.buffer + [msg]))];
      return true;
    }

    method Tell(node: string, msg: Message) returns (ok: bool)
      requires Valid()
      modifies this`tunnelHeap
      ensures Valid() && (View(), ok) == ExecTunnelProtocol.Tell(old(View()), node, msg)
    {
      TellKeeps(View(), node, msg);
      if node !in tunnels {
        return false;
      }
      assert Registered(View(), tunnels[node]);
      ok := TrySend(tunnels[node], msg);
    }

    // ----- Tunnels -----

    method RegisterTunnel(node: string) returns (t: nat)
      requires Valid()
      modifies this
      ensures Valid() && View() == ExecTunnelProtocol.RegisterTunnel(old(View()), node) && t == |old(tunnelHeap)|
    {
      RegisterKeeps(View(), node);
      t := |tunnelHeap|;
      tunnelHeap := tunnelHeap + [Tunnel(node, Channel([], false))];
      var previous := if node in tunnels then Some(tunnels[node]) else None;
      assert previous.Some? ==> Registered(old(View()), previous.value);
      tunnels := tunnels[node := t];
      if previous.Some? {
        CloseTunnelChannel(previous.value);
      }
    }

    method UnregisterTunnel(t: nat) returns (ghost order: seq<nat>)
      requires Valid() && t < |tunnelHeap|
      modifies this
      ensures Valid() && View() == ExecTunnelProtocol.UnregisterTunnel(old(View()), t, order)
      ensures old(Registered(View(), t)) ==> forall id :: id in old(sessions) ==> id in order
    {
      order := [];
      var node := tunnelHeap[t].node;
      if node !in tunnels || tunnels[node] != t {
        return;
      }
      assert Registered(View(), t);
      UnregisterKeeps(View(), t, []);
      tunnels := tunnels - {node};
      CloseTunnelChannel(t);
      assert View() == ExecTunnelProtocol.UnregisterTunnel(old(View()), t, []);
      order := CloseSelected(OnNode(node));
    }

    // ----- Sessions -----

    method CloseSession(id: nat)
      requires Valid()
      modifies this
      ensures Valid() && View() == ExecTunnelProtocol.CloseSession(old(View()), id)
    {
      CloseKeeps(View(), id);
      if id !in sessions || sessionHeap[id].closed {
        return;
      }
      var session := sessionHeap[id];
      ghost var before := View();
      CloseIncoming(id);
      sessionHeap := sessionHeap[id := sessionHeap[id].(attaching := false)];
      if session.token.Some? {
        attachTokens := attachTokens - {session.token.value};
        sessionHeap := sessionHeap[id := sessionHeap[id].(token := None)];
      }
      sessions := sessions - {id};
      assert sessionHeap == before.sessionHeap[id := Shut(session)];
      ForgetKeeps(before, id, View());
      var _ := Tell(session.node, Message(id, CloseKind));
    }

    /** session.close: the flag and the channel together. */
    method CloseIncoming(id: nat)
      requires id < |sessionHeap| && !sessionHeap[id].incoming.closed
      modifies this`sessionHeap
      ensures sessionHeap == old(sessionHeap)[id :=
                old(sessionHeap)[id].(closed := true, incoming := old(sessionHeap)[id].incoming.Close())]
    {
      sessionHeap := sessionHeap[id := sessionHeap[id].(closed := true, incoming := sessionHeap[id].incoming.Close())];
    }

    /** The loop over the session map, shared by the sweep and by unregistering; `order` is the
        order in which the map yielded its sessions. */
    method CloseSelected(which: Which) returns (ghost order: seq<nat>)
      requires Valid()
      modifies this
      ensures Valid() && View() == CloseWhere(old(View()), order, which)
      ensures forall id :: id in old(sessions) ==> id in order
    {
      hide Inv, ExecTunnelProtocol.CloseSession;
      order := [];
      var left := sessions;
      while left != {}
        invariant Valid() && View() == CloseWhere(old(View()), order, which)
        invariant forall id :: id in old(sessions) ==> id in order || id in left
        decreases left
      {
        var id :| id in left;
        left := left - {id};
        assert Front(order + [id]) == order;
        if id in sessions && id < |sessionHeap| && Selected(sessionHeap[id], which) {
          CloseSession(id);
        }
        order := order + [id];
      }
    }

    method SweepExpiredSessions(now: int) returns (ghost order: seq<nat>)
      requires Valid()
      modifies this
      ensures Valid() && View() == Sweep(old(View()), order, now)
      ensures forall id :: id in old(sessions) ==> id in order
    {
      order := CloseSelected(ExpiredAt(now));
    }

    /** `token` is the generated attach token, never used before. */
    method OpenSession(node: string, token: nat, now: int) returns (id: Option<nat>, ghost order: seq<nat>)
      requires Valid() && token !in issued
      modifies this
      ensures Valid() && (View(), id) == ExecTunnelProtocol.OpenSession(Sweep(old(View()), order, now), node, token, now)
      ensures View() == Next(old(View()), Open(node, token, order, now))
    {
      SweptIssuedAny(View(), now);
      hide Sweep, Inv, ExecTunnelProtocol.OpenSession;
      order := SweepExpiredSessions(now);
      id := OpenSwept(node, token, now);
    }

    method OpenSwept(node: string, token: nat, now: int) returns (id: Option<nat>)
      requires Valid() && token !in issued
      modifies this
      ensures Valid() && (View(), id) == ExecTunnelProtocol.OpenSession(old(View()), node, token, now)
    {
      hide Inv, ExecTunnelProtocol.CloseSession, ExecTunnelProtocol.Tell;
      if node !in tunnels {
        return None;
      }
      var session := |sessionHeap|;
      AddSession(node, token, now);
      var ok := Tell(node, Message(session, Start));
      if !ok {
        CloseSession(session);
        return None;
      }
      return Some(session);
    }

    method AddSession(node: string, token: nat, now: int)
      requires Valid() && token !in issued
      modifies this`sessions, this`sessionHeap, this`attachTokens, this`issued
      ensures Valid() && sessions == old(sessions) + {|old(sessionHeap)|} && issued == old(issued) + {token}
      ensures attachTokens == old(attachTokens)[token := |old(sessionHeap)|]
      ensures sessionHeap == old(sessionHeap) +
                [Session(node, Some(token), now + ATTACH_TOKEN_TTL, Channel([], false), false, false, false, 0)]
    {
      var s := Session(node, Some(token), now + ATTACH_TOKEN_TTL, Channel([], false), false, false, false, 0);
      ghost var before := View();
      sessions, attachTokens := sessions + {|sessionHeap|}, attachTokens[token := |sessionHeap|];
      sessionHeap, issued := sessionHeap + [s], issued + {token};
      AddKeeps(before, s, token, View());
    }

    static lemma SweptIssuedAny(m: Manager, now: int)
      requires Inv(m)
      ensures forall order :: Sweep(m, order, now).issued == m.issued
    {
      forall order ensures Sweep(m, order, now).issued == m.issued {
        SweptIssued(m, order, now);
      }
    }

    method SendToSessionNode(id: nat, kind: Kind, now: int) returns (ok: bool, ghost order: seq<nat>)
      requires Valid()
      modifies this
      ensures Valid() && (View(), ok) == ExecTunnelProtocol.SendToSessionNode(Sweep(old(View()), order, now), id, kind)
    {
      order := SweepExpiredSessions(now);
      hide Sweep, ExecTunnelProtocol.CloseSession, ExecTunnelProtocol.Tell;
      if id !in sessions || sessionHeap[id].closed || sessionHeap[id].node !in tunnels {
        return false, order;
      }
      hide Inv;
      ok := Tell(sessionHeap[id].node, Message(id, kind));
      if !ok {
        CloseSession(id);
      }
    }

    method Deliver(id: nat, payload: string) returns (ok: bool)
      requires Valid() && id < |sessionHeap|
      modifies this
      ensures Valid() && (View(), ok) == ExecTunnelProtocol.Deliver(old(View()), id, payload)
    {
      DeliverKeeps(View(), id, payload);
      assert SessionAgrees(sessionHeap[id], id in sessions);
      if sessionHeap[id].closed {
        return false;
      }
      ok := |sessionHeap[id].incoming.buffer| < CAPACITY;
      if ok {
        SendIncoming(id, payload);
      }
      assert sessionHeap == old(sessionHeap)[id := old(sessionHeap)[id].(incoming := old(sessionHeap)[id].incoming.TrySend(payload))];
    }

    method SendIncoming(id: nat, payload: string)
      requires id < |sessionHeap| && !sessionHeap[id].incoming.closed && !sessionHeap[id].incoming.Full()
      modifies this`sessionHeap
      ensures sessionHeap == old(sessionHeap)[id :=
                old(sessionHeap)[id].(incoming := old(sessionHeap)[id].incoming.TrySend(payload))]
    {
      var s := sessionHeap[id];
      sessionHeap := sessionHeap[id := s.(incoming := s.incoming.(buffer := s.incoming.buffer + [payload]))];
    }

    // ----- Attaching -----

    method SessionForAttachToken(token: nat, now: int) returns (id: Option<nat>)
      requires Valid()
      modifies this
      ensures Valid() && (View(), id) == Lookup(old(View()), token, now)
    {
      LookupKeeps(View(), token, now);
      if token !in attachTokens {
        return None;
      }
      var session := attachTokens[token];
      assert SessionAgrees(sessionHeap[session], session in sessions);
      if sessionHeap[session].expires <= now {
        CloseSession(session);
        return None;
      }
      return Some(session);
    }

    method ReserveSessionAttach(token: nat, now: int, later: int) returns (id: Option<nat>, ghost order: seq<nat>)
      requires Valid()
      modifies this
      ensures Valid() && (View(), id) == Reserve(Sweep(old(View()), order, now), token, later)
    {
      order := SweepExpiredSessions(now);
      hide Sweep;
      ReserveKeeps(View(), token, later);
      LookupKeeps(View(), token, later);
      id := SessionForAttachToken(token, later);
      if id.None? {
        return;
      }
      var s := sessionHeap[id.value];
      if s.taken || s.attaching {
        return None, order;
      }
      sessionHeap := sessionHeap[id.value := s.(attaching := true)];
    }

    method ConfirmSessionAttach(token: nat, now: int, later: int) returns (id: Option<nat>, ghost order: seq<nat>)
      requires Valid()
      modifies this
      ensures Valid() && (View(), id) == Confirm(Sweep(old(View()), order, now), token, later)
    {
      hide Sweep, Confirm, Inv;
      order := SweepExpiredSessions(now);
      id := ConfirmSwept(token, later);
    }

    method ConfirmSwept(token: nat, now: int) returns (id: Option<nat>)
      requires Valid()
      modifies this
      ensures Valid() && (View(), id) == Confirm(old(View()), token, now)
    {
      ConfirmKeeps(View(), token, now);
      LookupKeeps(View(), token, now);
      hide Inv, Lookup;
      id := SessionForAttachToken(token, now);
      if id.None? {
        return;
      }
      var s := sessionHeap[id.value];
      if s.taken || !s.attaching {
        return None;
      }
      attachTokens := attachTokens - {token};
      sessionHeap := sessionHeap[id.value := s.(attaching := false, taken := true, token := None, confirms := s.confirms + 1)];
    }

    method ReleaseSessionAttach(token: nat, now: int, later: int) returns (ghost order: seq<nat>)
      requires Valid()
      modifies this
      ensures Valid() && View() == Release(Sweep(old(View()), order, now), token, later)
    {
      order := SweepExpiredSessions(now);
      hide Sweep;
      ReleaseKeeps(View(), token, later);
      LookupKeeps(View(), token, later);
      var id := SessionForAttachToken(token, later);
      if id.None? || sessionHeap[id.value].taken {
        return;
      }
      sessionHeap := sessionHeap[id.value := sessionHeap[id.value].(attaching := false)];
    }
  }
}
