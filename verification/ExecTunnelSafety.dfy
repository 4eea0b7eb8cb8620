/** What every interleaving of the exec tunnel manager's operations keeps. */
module ExecTunnelSafety {
  import opened Common
  import opened Channels
  import opened ExecTunnelProtocol

  // ----- The invariant -----

  predicate Registered(m: Manager, t: nat) {
    t < |m.tunnelHeap| && m.tunnelHeap[t].node in m.tunnels && m.tunnels[m.tunnelHeap[t].node] == t
  }

  /** Of all tunnels ever registered exactly those in the map have an open channel. */
  ghost predicate TunnelsAgree(m: Manager) {
    && (forall n :: n in m.tunnels ==> m.tunnels[n] < |m.tunnelHeap| && m.tunnelHeap[m.tunnels[n]].node == n)
    && (forall t :: 0 <= t < |m.tunnelHeap| ==> (m.tunnelHeap[t].sendCh.closed <==> !Registered(m, t)))
  }

  /** The flag mirrors the channel, both say whether the session is in the map; a listed session
      has a token iff no browser has taken it; attaching excludes taken; and at most one attach
      was confirmed. */
  predicate SessionAgrees(s: Session, listed: bool) {
    && s.closed == s.incoming.closed == !listed
    && !(s.attaching && s.taken)
    && (listed ==> (s.token.None? <==> s.taken))
    && (!listed ==> s.token.None?)
    && s.confirms == (if s.taken then 1 else 0)
  }

  ghost predicate SessionsAgree(m: Manager) {
    && (forall id :: id in m.sessions ==> id < |m.sessionHeap|)
    && (forall id :: 0 <= id < |m.sessionHeap| ==> SessionAgrees(m.sessionHeap[id], id in m.sessions))
  }

  /** attachTokens and sessions are inverse indexes. */
  ghost predicate TokensAgree(m: Manager) {
    && (forall k :: k in m.attachTokens ==>
          k in m.issued && m.attachTokens[k] < |m.sessionHeap| && m.sessionHeap[m.attachTokens[k]].token == Some(k))
    && (forall id :: 0 <= id < |m.sessionHeap| && m.sessionHeap[id].token.Some? ==>
          m.sessionHeap[id].token.value in m.attachTokens && m.attachTokens[m.sessionHeap[id].token.value] == id)
  }

  ghost predicate Inv(m: Manager) {
    !m.panicked && TunnelsAgree(m) && SessionsAgree(m) && TokensAgree(m)
  }

  // ----- The operations keep it -----

  lemma RegisterKeeps(m: Manager, node: string)
    requires Inv(m)
    ensures Inv(RegisterTunnel(m, node))
  {
    var m' := RegisterTunnel(m, node);
    assert node in m.tunnels ==> Registered(m, m.tunnels[node]);
  }

  lemma TellKeeps(m: Manager, node: string, msg: Message)
    requires Inv(m)
    ensures Inv(Tell(m, node, msg).0)
    ensures Tell(m, node, msg).0 == m.(tunnelHeap := Tell(m, node, msg).0.tunnelHeap)
    ensures Tell(m, node, msg).1 <==> node in m.tunnels && !m.tunnelHeap[m.tunnels[node]].sendCh.Full()
  {
    assert node in m.tunnels ==> Registered(m, m.tunnels[node]);
  }

  lemma CloseKeeps(m: Manager, id: nat)
    requires Inv(m)
    ensures Inv(CloseSession(m, id))
    ensures CloseSession(m, id).sessions == m.sessions - {id}
    ensures |CloseSession(m, id).sessionHeap| == |m.sessionHeap|
    ensures forall k :: 0 <= k < |m.sessionHeap| ==>
              CloseSession(m, id).sessionHeap[k] ==
                if k == id && id in m.sessions then Shut(m.sessionHeap[k]) else m.sessionHeap[k]
    ensures CloseSession(m, id).tunnels == m.tunnels && CloseSession(m, id).issued == m.issued
  {
    if id in m.sessions {
      assert SessionAgrees(m.sessionHeap[id], true);
      var s := m.sessionHeap[id];
      var m' := m.(panicked := m.panicked || s.incoming.closed,
                   sessionHeap := m.sessionHeap[id := Shut(s)],
                   attachTokens := if s.token.Some? then m.attachTokens - {s.token.value} else m.attachTokens,
                   sessions := m.sessions - {id});
      ForgetKeeps(m, id, m');
      hide Inv;
      TellKeeps(m', s.node, Message(id, CloseKind));
    }
  }

  lemma ForgetKeeps(m: Manager, id: nat, m': Manager)
    requires Inv(m) && id in m.sessions && id < |m.sessionHeap|
    requires var s := m.sessionHeap[id];
             m' == m.(panicked := m.panicked || s.incoming.closed,
                      sessionHeap := m.sessionHeap[id := Shut(s)],
                      attachTokens := if s.token.Some? then m.attachTokens - {s.token.value} else m.attachTokens,
                      sessions := m.sessions - {id})
    ensures Inv(m')
  {
    assert SessionAgrees(m.sessionHeap[id], true);
    assert TunnelsAgree(m') by {
      assert forall t: nat :: Registered(m', t) == Registered(m, t);
    }
  }

  /** `m'` is `m` after some listed sessions were closed. */
  ghost predicate Thinned(m: Manager, m': Manager) {
    && m'.sessions <= m.sessions && |m'.sessionHeap| == |m.sessionHeap|
    && m'.tunnels == m.tunnels && m'.issued == m.issued
    && (forall k :: 0 <= k < |m.sessionHeap| ==>
          m'.sessionHeap[k] == if k in m.sessions && k !in m'.sessions then Shut(m.sessionHeap[k]) else m.sessionHeap[k])
  }

  /** Closing in the order of an iteration closes exactly the visited sessions that are selected. */
  lemma {:induction false} CloseWhereKeeps(m: Manager, order: seq<nat>, which: Which)
    requires Inv(m)
    ensures var m' := CloseWhere(m, order, which);
            && Inv(m') && Thinned(m, m')
            && forall id :: id in m'.sessions <==>
                 id in m.sessions && !(id in order && Selected(m.sessionHeap[id], which))
  {
    if order != [] {
      CloseWhereKeeps(m, Front(order), which);
      var m1, id := CloseWhere(m, Front(order), which), Last(order);
      assert order == Front(order) + [id];
      hide TunnelsAgree, TokensAgree, SessionAgrees, CloseWhere;
      if id in m1.sessions && Selected(m1.sessionHeap[id], which) {
        CloseKeeps(m1, id);
        assert CloseWhere(m, order, which) == CloseSession(m1, id) by { CloseLast(m, order, which); }
      } else {
        assert CloseWhere(m, order, which) == m1 by { CloseLast(m, order, which); }
      }
    }
  }

  lemma CloseLast(m: Manager, order: seq<nat>, which: Which)
    requires order != []
    ensures var m1, id := CloseWhere(m, Front(order), which), Last(order);
            CloseWhere(m, order, which) ==
              if id in m1.sessions && id < |m1.sessionHeap| && Selected(m1.sessionHeap[id], which) then CloseSession(m1, id) else m1
  {}

  lemma UnregisterKeeps(m: Manager, t: nat, order: seq<nat>)
    requires Inv(m)
    ensures Inv(UnregisterTunnel(m, t, order))
  {
    if Registered(m, t) {
      var node := m.tunnelHeap[t].node;
      var m' := CloseTunnel(m, t).(tunnels := m.tunnels - {node});
      assert forall k: nat :: Registered(m', k) <==> Registered(m, k) && k != t;
      CloseWhereKeeps(m', order, OnNode(node));
    }
  }

  lemma OpenKeeps(m: Manager, node: string, token: nat, now: int)
    requires Inv(m) && token !in m.issued
    ensures Inv(OpenSession(m, node, token, now).0)
  {
    if node in m.tunnels {
      var id := |m.sessionHeap|;
      var s := Session(node, Some(token), now + ATTACH_TOKEN_TTL, Channel([], false), false, false, false, 0);
      var m' := m.(sessions := m.sessions + {id}, sessionHeap := m.sessionHeap + [s],
                   attachTokens := m.attachTokens[token := id], issued := m.issued + {token});
      AddKeeps(m, s, token, m');
      hide Inv;
      TellKeeps(m', node, Message(id, Start));
      CloseKeeps(Tell(m', node, Message(id, Start)).0, id);
    }
  }

  lemma AddKeeps(m: Manager, s: Session, token: nat, m': Manager)
    requires Inv(m) && token !in m.issued && SessionAgrees(s, true) && s.token == Some(token)
    requires m' == m.(sessions := m.sessions + {|m.sessionHeap|}, sessionHeap := m.sessionHeap + [s],
                      attachTokens := m.attachTokens[token := |m.sessionHeap|], issued := m.issued + {token})
    ensures Inv(m')
  {
    assert forall t: nat :: Registered(m', t) == Registered(m, t);
  }

  lemma SendKeeps(m: Manager, id: nat, kind: Kind)
    requires Inv(m)
    ensures Inv(SendToSessionNode(m, id, kind).0)
  {
    hide Inv;
    if id < |m.sessionHeap| {
      TellKeeps(m, m.sessionHeap[id].node, Message(id, kind));
      CloseKeeps(Tell(m, m.sessionHeap[id].node, Message(id, kind)).0, id);
    }
  }

  /** Replacing a listed session by one with the same token and flags that still agree. */
  lemma ReplaceKeeps(m: Manager, id: nat, s: Session)
    requires Inv(m) && id < |m.sessionHeap|
    requires SessionAgrees(s, id in m.sessions) && s.token == m.sessionHeap[id].token
    ensures Inv(m.(sessionHeap := m.sessionHeap[id := s]))
  {
    var m' := m.(sessionHeap := m.sessionHeap[id := s]);
    assert forall t: nat :: Registered(m', t) == Registered(m, t);
  }

  lemma DeliverKeeps(m: Manager, id: nat, payload: string)
    requires Inv(m)
    ensures Inv(Deliver(m, id, payload).0)
  {
    if id < |m.sessionHeap| && !m.sessionHeap[id].closed {
      var s := m.sessionHeap[id];
      ReplaceKeeps(m, id, s.(incoming := s.incoming.TrySend(payload)));
    }
  }

  lemma LookupKeeps(m: Manager, token: nat, now: int)
    requires Inv(m)
    ensures var (m', id) := Lookup(m, token, now);
            && Inv(m') && Thinned(m, m')
            && (id.Some? ==>
                  && m' == m && id.value in m.sessions && id.value < |m.sessionHeap|
                  && m.sessionHeap[id.value].token == Some(token) && now < m.sessionHeap[id.value].expires)
            && (id.Some? <==> token in m.attachTokens && now < m.sessionHeap[m.attachTokens[token]].expires)
  {
    if token in m.attachTokens {
      assert SessionAgrees(m.sessionHeap[m.attachTokens[token]], m.attachTokens[token] in m.sessions);
      CloseKeeps(m, m.attachTokens[token]);
    }
  }

  lemma ReserveKeeps(m: Manager, token: nat, now: int)
    requires Inv(m)
    ensures Inv(Reserve(m, token, now).0)
  {
    LookupKeeps(m, token, now);
    var (m', id) := Lookup(m, token, now);
    if id.Some? && !m.sessionHeap[id.value].taken && !m.sessionHeap[id.value].attaching {
      ReplaceKeeps(m, id.value, m.sessionHeap[id.value].(attaching := true));
    }
  }

  lemma ReleaseKeeps(m: Manager, token: nat, now: int)
    requires Inv(m)
    ensures Inv(Release(m, token, now))
  {
    LookupKeeps(m, token, now);
    var (m', id) := Lookup(m, token, now);
    if id.Some? {
      ReplaceKeeps(m, id.value, m.sessionHeap[id.value].(attaching := false));
    }
  }

  lemma ConfirmKeeps(m: Manager, token: nat, now: int)
    requires Inv(m)
    ensures Inv(Confirm(m, token, now).0)
  {
    LookupKeeps(m, token, now);
    var (m', id) := Lookup(m, token, now);
    if id.Some? && !m.sessionHeap[id.value].taken && m.sessionHeap[id.value].attaching {
      TakeKeeps(m, id.value, token);
    }
  }

  lemma TakeKeeps(m: Manager, id: nat, token: nat)
    requires Inv(m) && id in m.sessions && id < |m.sessionHeap| && m.sessionHeap[id].token == Some(token)
    requires m.sessionHeap[id].attaching
    ensures var s := m.sessionHeap[id];
            Inv(m.(attachTokens := m.attachTokens - {token},
                   sessionHeap := m.sessionHeap[id :=
                     s.(attaching := false, taken := true, token := None, confirms := s.confirms + 1)]))
  {
    var s := m.sessionHeap[id];
    assert SessionAgrees(s, true);
    var m' := m.(attachTokens := m.attachTokens - {token},
                 sessionHeap := m.sessionHeap[id :=
                   s.(attaching := false, taken := true, token := None, confirms := s.confirms + 1)]);
    assert forall t: nat :: Registered(m', t) == Registered(m, t);
  }

  lemma ReceiveKeeps(m: Manager, i: nat)
    requires Inv(m)
    ensures Inv(Next(m, ReceiveRequest(i))) && Inv(Next(m, ReceiveMessage(i)))
  {
    if i < |m.tunnelHeap| {
      var m' := Next(m, ReceiveRequest(i));
      assert forall t: nat :: Registered(m', t) == Registered(m, t);
    }
    if i < |m.sessionHeap| {
      ReplaceKeeps(m, i, m.sessionHeap[i].(incoming := m.sessionHeap[i].incoming.Receive()));
    }
  }

  lemma Step(m: Manager, ev: Event)
    requires Inv(m)
    ensures Inv(Next(m, ev))
  {
    hide Inv, CloseWhere, Thinned;
    match ev
    case Register(node) => RegisterKeeps(m, node);
    case Unregister(t, order) => UnregisterKeeps(m, t, order);
    case SweepExpired(order, now) => CloseWhereKeeps(m, order, ExpiredAt(now));
    case Open(node, token, order, now) =>
      CloseWhereKeeps(m, order, ExpiredAt(now));
      SweptIssued(m, order, now);
      if token !in m.issued { OpenKeeps(Sweep(m, order, now), node, token, now); }
    case SendToNode(id, kind, order, now) =>
      CloseWhereKeeps(m, order, ExpiredAt(now));
      SendKeeps(Sweep(m, order, now), id, kind);
    case DeliverTo(id, payload) => DeliverKeeps(m, id, payload);
    case ReserveAttach(token, order, now, later) =>
      CloseWhereKeeps(m, order, ExpiredAt(now));
      ReserveKeeps(Sweep(m, order, now), token, later);
    case ConfirmAttach(token, order, now, later) =>
      CloseWhereKeeps(m, order, ExpiredAt(now));
      ConfirmKeeps(Sweep(m, order, now), token, later);
    case ReleaseAttach(token, order, now, later) =>
      CloseWhereKeeps(m, order, ExpiredAt(now));
      ReleaseKeeps(Sweep(m, order, now), token, later);
    case CloseOne(id) => CloseKeeps(m, id);
    case ReceiveRequest(t) => ReceiveKeeps(m, t);
    case ReceiveMessage(id) => ReceiveKeeps(m, id);
  }

  lemma SweptIssued(m: Manager, order: seq<nat>, now: int)
    requires Inv(m)
    ensures Sweep(m, order, now).issued == m.issued
  {
    CloseWhereKeeps(m, order, ExpiredAt(now));
  }

  lemma {:induction false} Always(events: seq<Event>)
    ensures Inv(Run(INIT, events))
  {
    if events != [] {
      hide Next, Inv;
      Always(Front(events));
      Step(Run(INIT, Front(events)), Last(events));
    }
  }

  // ----- The results -----

  /** No interleaving sends on a closed channel or closes one twice, and a channel is open
      exactly as long as its tunnel or session is the one in the manager's map. */
  lemma ChannelDiscipline(events: seq<Event>)
    ensures var m := Run(INIT, events);
            && !m.panicked
            && (forall t :: 0 <= t < |m.tunnelHeap| ==> (!m.tunnelHeap[t].sendCh.closed <==> Registered(m, t)))
            && (forall id :: 0 <= id < |m.sessionHeap| ==> (!m.sessionHeap[id].incoming.closed <==> id in m.sessions))
  {
    Always(events);
    forall id | 0 <= id < |Run(INIT, events).sessionHeap|
      ensures SessionAgrees(Run(INIT, events).sessionHeap[id], id in Run(INIT, events).sessions)
    {}
    hide Run;
  }

  /** attachTokens and sessions are inverse over the live sessions no browser has taken. */
  lemma TokensAreInverse(events: seq<Event>, id: nat, token: nat)
    requires id < |Run(INIT, events).sessionHeap|
    ensures var m := Run(INIT, events); var s := m.sessionHeap[id];
            && ((token in m.attachTokens && m.attachTokens[token] == id) <==> s.token == Some(token))
            && (s.token.Some? <==> id in m.sessions && !s.taken)
            && !(s.attaching && s.taken)
  {
    Always(events);
    var m := Run(INIT, events);
    hide Run;
    assert SessionAgrees(m.sessionHeap[id], id in m.sessions);
  }

  /** At most one attach of a session is ever confirmed, and only on a live session. */
  lemma ConfirmedOnce(events: seq<Event>, id: nat)
    requires id < |Run(INIT, events).sessionHeap|
    ensures var s := Run(INIT, events).sessionHeap[id]; s.confirms <= 1 && (s.confirms == 1 <==> s.taken)
  {
    Always(events);
    assert SessionAgrees(Run(INIT, events).sessionHeap[id], id in Run(INIT, events).sessions);
  }

  /** Exactly when an attach is confirmed: the token belongs to a live session, has not expired
      and is reserved. Then the session is taken and the token gone; otherwise no session
      becomes taken. */
  lemma ConfirmExactly(events: seq<Event>, token: nat, now: int)
    ensures var m := Run(INIT, events); var (m', id) := Confirm(m, token, now);
            && (id.Some? <==>
                  && token in m.attachTokens && m.attachTokens[token] < |m.sessionHeap|
                  && now < m.sessionHeap[m.attachTokens[token]].expires
                  && m.sessionHeap[m.attachTokens[token]].attaching)
            && (id.Some? ==>
                  && id.value == m.attachTokens[token] && token !in m'.attachTokens
                  && m'.sessionHeap[id.value].taken && !m.sessionHeap[id.value].taken && id.value in m'.sessions)
            && (id.None? ==>
                  forall k :: 0 <= k < |m.sessionHeap| && k < |m'.sessionHeap| ==>
                    m'.sessionHeap[k].taken == m.sessionHeap[k].taken)
  {
    Always(events);
    var m := Run(INIT, events);
    hide Run;
    LookupKeeps(m, token, now);
    if token in m.attachTokens {
      assert SessionAgrees(m.sessionHeap[m.attachTokens[token]], m.attachTokens[token] in m.sessions);
    }
  }

  // ----- Closed means closed -----

  /** From a closed channel things are only received. */
  ghost predicate Drains<M>(c: Channel<M>, c': Channel<M>) {
    c.closed ==> c'.closed && exists k :: 0 <= k <= |c.buffer| && c'.buffer == c.buffer[k..]
  }

  ghost predicate HeapsDrain(m: Manager, m': Manager) {
    && |m.tunnelHeap| <= |m'.tunnelHeap| && |m.sessionHeap| <= |m'.sessionHeap|
    && (forall t :: 0 <= t < |m.tunnelHeap| ==> Drains(m.tunnelHeap[t].sendCh, m'.tunnelHeap[t].sendCh))
    && (forall i :: 0 <= i < |m.sessionHeap| ==> Drains(m.sessionHeap[i].incoming, m'.sessionHeap[i].incoming))
  }

  lemma SameDrains<M>(c: Channel<M>, c': Channel<M>)
    requires SameOrReceived(c, c')
    ensures Drains(c, c')
  {
    assert c.buffer[0..] == c.buffer;
    if c.closed && c'.buffer != c.buffer {
      assert c'.buffer == c.buffer[1..];
    }
  }

  lemma DrainsTwice<M>(c: Channel<M>, c': Channel<M>, c'': Channel<M>)
    requires Drains(c, c') && Drains(c', c'')
    ensures Drains(c, c'')
  {
    if c.closed {
      var j :| 0 <= j <= |c.buffer| && c'.buffer == c.buffer[j..];
      var k :| 0 <= k <= |c'.buffer| && c''.buffer == c'.buffer[k..];
      assert c''.buffer == c.buffer[j + k..];
    }
  }

  /** A step leaves the content of every closed channel alone, but for its reader. */
  ghost predicate ClosedAlone(m: Manager, m': Manager) {
    && |m.tunnelHeap| <= |m'.tunnelHeap| && |m.sessionHeap| <= |m'.sessionHeap|
    && (forall t :: 0 <= t < |m.tunnelHeap| && m.tunnelHeap[t].sendCh.closed ==> m'.tunnelHeap[t].sendCh == m.tunnelHeap[t].sendCh)
    && (forall i :: 0 <= i < |m.sessionHeap| && m.sessionHeap[i].incoming.closed ==>
          m'.sessionHeap[i].incoming == m.sessionHeap[i].incoming)
  }

  lemma TellAlone(m: Manager, node: string, msg: Message)
    requires Inv(m)
    ensures ClosedAlone(m, Tell(m, node, msg).0)
  {
    assert node in m.tunnels ==> Registered(m, m.tunnels[node]);
  }

  lemma CloseAlone(m: Manager, id: nat)
    requires Inv(m)
    ensures ClosedAlone(m, CloseSession(m, id))
  {
    if id in m.sessions {
      assert SessionAgrees(m.sessionHeap[id], true);
      assert m.sessionHeap[id].node in m.tunnels ==> Registered(m, m.tunnels[m.sessionHeap[id].node]);
    }
  }

  lemma {:induction false} CloseWhereAlone(m: Manager, order: seq<nat>, which: Which)
    requires Inv(m)
    ensures ClosedAlone(m, CloseWhere(m, order, which))
  {
    if order != [] {
      CloseWhereAlone(m, Front(order), which);
      CloseWhereKeeps(m, Front(order), which);
      var m1, id := CloseWhere(m, Front(order), which), Last(order);
      CloseAlone(m1, id);
      CloseLast(m, order, which);
      hide Inv, CloseSession, CloseWhere;
    }
  }

  lemma OperationAlone(m: Manager, ev: Event)
    requires Inv(m) && !ev.ReceiveRequest? && !ev.ReceiveMessage?
    ensures ClosedAlone(m, Next(m, ev))
  {
    hide CloseWhere, Inv, ClosedAlone;
    match ev
    case Register(node) => RegisterAlone(m, node);
    case Unregister(t, order) => UnregisterAlone(m, t, order);
    case SweepExpired(order, now) => CloseWhereAlone(m, order, ExpiredAt(now));
    case Open(node, token, order, now) =>
      if token !in m.issued {
        SweepThen(m, order, now);
        SweptIssued(m, order, now);
        OpenAlone(Sweep(m, order, now), node, token, now);
        AloneTwice(m, Sweep(m, order, now), Next(m, ev));
      } else {
        AloneSame(m);
      }
    case SendToNode(id, kind, order, now) =>
      SweepThen(m, order, now);
      SendAlone(Sweep(m, order, now), id, kind);
      AloneTwice(m, Sweep(m, order, now), Next(m, ev));
    case DeliverTo(id, payload) => DeliverAlone(m, id, payload);
    case ReserveAttach(token, order, now, later) =>
      SweepThen(m, order, now);
      AttachAlone(Sweep(m, order, now), token, later);
      AloneTwice(m, Sweep(m, order, now), Next(m, ev));
    case ConfirmAttach(token, order, now, later) =>
      SweepThen(m, order, now);
      AttachAlone(Sweep(m, order, now), token, later);
      AloneTwice(m, Sweep(m, order, now), Next(m, ev));
    case ReleaseAttach(token, order, now, later) =>
      SweepThen(m, order, now);
      AttachAlone(Sweep(m, order, now), token, later);
      AloneTwice(m, Sweep(m, order, now), Next(m, ev));
    case CloseOne(id) => CloseAlone(m, id);
  }

  lemma AloneSame(m: Manager)
    ensures ClosedAlone(m, m)
  {}

  lemma AloneTwice(m: Manager, m': Manager, m'': Manager)
    requires ClosedAlone(m, m') && ClosedAlone(m', m'')
    ensures ClosedAlone(m, m'')
  {}

  lemma SweepThen(m: Manager, order: seq<nat>, now: int)
    requires Inv(m)
    ensures Inv(Sweep(m, order, now)) && ClosedAlone(m, Sweep(m, order, now))
  {
    CloseWhereKeeps(m, order, ExpiredAt(now));
    CloseWhereAlone(m, order, ExpiredAt(now));
  }

  lemma RegisterAlone(m: Manager, node: string)
    requires Inv(m)
    ensures ClosedAlone(m, RegisterTunnel(m, node))
  {
    assert node in m.tunnels ==> Registered(m, m.tunnels[node]);
  }

  lemma UnregisterAlone(m: Manager, t: nat, order: seq<nat>)
    requires Inv(m)
    ensures ClosedAlone(m, UnregisterTunnel(m, t, order))
  {
    if Registered(m, t) {
      var node := m.tunnelHeap[t].node;
      var m' := CloseTunnel(m, t).(tunnels := m.tunnels - {node});
      assert forall k: nat :: Registered(m', k) <==> Registered(m, k) && k != t;
      CloseWhereAlone(m', order, OnNode(node));
      AloneTwice(m, m', CloseWhere(m', order, OnNode(node)));
    }
  }

  lemma OpenAlone(m: Manager, node: string, token: nat, now: int)
    requires Inv(m) && token !in m.issued
    ensures ClosedAlone(m, OpenSession(m, node, token, now).0)
  {
    if node in m.tunnels {
      var id := |m.sessionHeap|;
      var s := Session(node, Some(token), now + ATTACH_TOKEN_TTL, Channel([], false), false, false, false, 0);
      var m' := m.(sessions := m.sessions + {id}, sessionHeap := m.sessionHeap + [s],
                   attachTokens := m.attachTokens[token := id], issued := m.issued + {token});
      AddKeeps(m, s, token, m');
      assert ClosedAlone(m, m');
      hide Inv, ClosedAlone, CloseSession;
      TellKeeps(m', node, Message(id, Start));
      TellAlone(m', node, Message(id, Start));
      var told := Tell(m', node, Message(id, Start)).0;
      AloneTwice(m, m', told);
      CloseAlone(told, id);
      AloneTwice(m, told, CloseSession(told, id));
    }
  }

  lemma SendAlone(m: Manager, id: nat, kind: Kind)
    requires Inv(m)
    ensures ClosedAlone(m, SendToSessionNode(m, id, kind).0)
  {
    AloneSame(m);
    if id < |m.sessionHeap| {
      hide Inv, ClosedAlone, CloseSession;
      var told := Tell(m, m.sessionHeap[id].node, Message(id, kind)).0;
      TellKeeps(m, m.sessionHeap[id].node, Message(id, kind));
      TellAlone(m, m.sessionHeap[id].node, Message(id, kind));
      CloseAlone(told, id);
      AloneTwice(m, told, CloseSession(told, id));
    }
  }

  lemma DeliverAlone(m: Manager, id: nat, payload: string)
    requires Inv(m)
    ensures ClosedAlone(m, Deliver(m, id, payload).0)
  {
    if id < |m.sessionHeap| {
      assert SessionAgrees(m.sessionHeap[id], id in m.sessions);
    }
  }

  lemma AttachAlone(m: Manager, token: nat, now: int)
    requires Inv(m)
    ensures ClosedAlone(m, Reserve(m, token, now).0)
    ensures ClosedAlone(m, Confirm(m, token, now).0)
    ensures ClosedAlone(m, Release(m, token, now))
  {
    LookupKeeps(m, token, now);
    if token in m.attachTokens {
      CloseAlone(m, m.attachTokens[token]);
    }
    hide Inv, CloseSession, Thinned;
  }

  ghost predicate SameOrReceived<M>(c: Channel<M>, c': Channel<M>) {
    c.closed ==> c'.closed && (c'.buffer == c.buffer || c' == c.Receive())
  }

  lemma AllDrain(m: Manager, m': Manager)
    requires |m.tunnelHeap| <= |m'.tunnelHeap| && |m.sessionHeap| <= |m'.sessionHeap|
    requires forall t :: 0 <= t < |m.tunnelHeap| ==> SameOrReceived(m.tunnelHeap[t].sendCh, m'.tunnelHeap[t].sendCh)
    requires forall i :: 0 <= i < |m.sessionHeap| ==> SameOrReceived(m.sessionHeap[i].incoming, m'.sessionHeap[i].incoming)
    ensures HeapsDrain(m, m')
  {
    forall t | 0 <= t < |m.tunnelHeap| ensures Drains(m.tunnelHeap[t].sendCh, m'.tunnelHeap[t].sendCh) {
      SameDrains(m.tunnelHeap[t].sendCh, m'.tunnelHeap[t].sendCh);
    }
    forall i | 0 <= i < |m.sessionHeap| ensures Drains(m.sessionHeap[i].incoming, m'.sessionHeap[i].incoming) {
      SameDrains(m.sessionHeap[i].incoming, m'.sessionHeap[i].incoming);
    }
  }

  lemma DrainStep(m: Manager, ev: Event)
    requires Inv(m)
    ensures HeapsDrain(m, Next(m, ev))
  {
    if !ev.ReceiveRequest? && !ev.ReceiveMessage? {
      OperationAlone(m, ev);
      hide Next;
      AllDrain(m, Next(m, ev));
    } else {
      AllDrain(m, Next(m, ev));
    }
  }

  /** Whatever happens later, a closed channel stays closed and its reader sees only what was in
      it when it was closed. */
  lemma {:induction false} ClosedForGood(before: seq<Event>, after: seq<Event>)
    ensures HeapsDrain(Run(INIT, before), Run(INIT, before + after))
  {
    hide Next, Inv;
    if after == [] {
      assert before + after == before;
      AllDrain(Run(INIT, before), Run(INIT, before));
    } else {
      ClosedForGood(before, Front(after));
      Always(before + Front(after));
      DrainStep(Run(INIT, before + Front(after)), Last(after));
      assert Front(before + after) == before + Front(after);
      DrainChain(Run(INIT, before), Run(INIT, before + Front(after)), Run(INIT, before + after));
    }
  }

  lemma DrainChain(m: Manager, m': Manager, m'': Manager)
    requires HeapsDrain(m, m') && HeapsDrain(m', m'')
    ensures HeapsDrain(m, m'')
  {
    forall t | 0 <= t < |m.tunnelHeap| ensures Drains(m.tunnelHeap[t].sendCh, m''.tunnelHeap[t].sendCh) {
      DrainsTwice(m.tunnelHeap[t].sendCh, m'.tunnelHeap[t].sendCh, m''.tunnelHeap[t].sendCh);
    }
    forall i | 0 <= i < |m.sessionHeap| ensures Drains(m.sessionHeap[i].incoming, m''.sessionHeap[i].incoming) {
      DrainsTwice(m.sessionHeap[i].incoming, m'.sessionHeap[i].incoming, m''.sessionHeap[i].incoming);
    }
  }

  // ----- Sweeps -----

  /** A sweep whose iteration visits every session closes exactly those whose token expired
      unused: a session a browser has taken or is attaching to survives every sweep. */
  lemma SweepExactly(events: seq<Event>, order: seq<nat>, now: int, id: nat)
    requires forall k :: k in Run(INIT, events).sessions ==> k in order
    requires id in Run(INIT, events).sessions && id < |Run(INIT, events).sessionHeap|
    ensures var m := Run(INIT, events); var s := m.sessionHeap[id];
            id !in Sweep(m, order, now).sessions <==> !s.taken && !s.attaching && now >= s.expires
  {
    Always(events);
    var m := Run(INIT, events);
    CloseWhereKeeps(m, order, ExpiredAt(now));
    assert SessionAgrees(m.sessionHeap[id], true);
  }

  /** When an agent's tunnel goes away its sessions go with it, and no others. */
  lemma UnregisterClosesItsSessions(events: seq<Event>, t: nat, order: seq<nat>, id: nat)
    requires Registered(Run(INIT, events), t) && id < |Run(INIT, events).sessionHeap|
    requires forall k :: k in Run(INIT, events).sessions ==> k in order
    ensures var m := Run(INIT, events); var m' := UnregisterTunnel(m, t, order);
            && m'.tunnels == m.tunnels - {m.tunnelHeap[t].node}
            && (id in m'.sessions <==> id in m.sessions && m.sessionHeap[id].node != m.tunnelHeap[t].node)
  {
    Always(events);
    var m := Run(INIT, events);
    var node := m.tunnelHeap[t].node;
    var m' := CloseTunnel(m, t).(tunnels := m.tunnels - {node});
    hide Run;
    assert forall k: nat :: Registered(m', k) <==> Registered(m, k) && k != t;
    CloseWhereKeeps(m', order, OnNode(node));
  }

  /** A session is opened iff the node has a tunnel with room for the start message; otherwise
      the manager's maps are as before. A new session is unclaimed and its token runs a minute. */
  lemma OpenExactly(events: seq<Event>, node: string, token: nat, now: int)
    requires token !in Run(INIT, events).issued
    ensures var m := Run(INIT, events); var (m', id) := OpenSession(m, node, token, now);
            && (id.Some? <==> node in m.tunnels && m.tunnels[node] < |m.tunnelHeap| && !m.tunnelHeap[m.tunnels[node]].sendCh.Full())
            && (id.Some? ==>
                  && id.value == |m.sessionHeap| && m'.sessions == m.sessions + {id.value}
                  && m'.attachTokens == m.attachTokens[token := id.value]
                  && m'.sessionHeap == m.sessionHeap +
                       [Session(node, Some(token), now + 60 * SECOND, Channel([], false), false, false, false, 0)]
                  && m'.tunnelHeap[m.tunnels[node]].sendCh.buffer ==
                       m.tunnelHeap[m.tunnels[node]].sendCh.buffer + [Message(id.value, Start)])
            && (id.None? ==> m'.sessions == m.sessions && m'.attachTokens == m.attachTokens && m'.tunnels == m.tunnels)
  {
    Always(events);
    var m := Run(INIT, events);
    hide Run;
    assert |m.sessionHeap| !in m.sessions && token !in m.attachTokens;
  }
}
