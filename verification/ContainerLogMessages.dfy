/** What the operations of the container-log manager do to the channels, message by message, and
    to the sessions they do not concern: in every reachable state. */
module ContainerLogMessages {
  import opened Common
  import opened Channels
  import opened ContainerLogProtocol
  import opened ContainerLogSafety

  /** The registered tunnel of `node` takes `msg` if it has room; no other channel changes. */
  ghost predicate Told(m: Manager, m': Manager, node: string, msg: Request) {
    && |m'.tunnelHeap| == |m.tunnelHeap|
    && forall t :: 0 <= t < |m.tunnelHeap| ==>
         && m'.tunnelHeap[t].node == m.tunnelHeap[t].node
         && m'.tunnelHeap[t].sendCh.closed == m.tunnelHeap[t].sendCh.closed
         && m'.tunnelHeap[t].sendCh.buffer ==
              if Registered(m, t) && m.tunnelHeap[t].node == node && |m.tunnelHeap[t].sendCh.buffer| < 256
              then m.tunnelHeap[t].sendCh.buffer + [msg] else m.tunnelHeap[t].sendCh.buffer
  }

  lemma TellTells(m: Manager, node: string, msg: Request)
    requires Inv(m)
    ensures Told(m, Tell(m, node, msg).0, node, msg)
  {
    assert node in m.tunnels ==> Registered(m, m.tunnels[node]);
  }

  /** An agent that connects gets a new open and empty tunnel; the one it had before is closed, with
      what is in it still to be read. No session notices. */
  lemma RegisterExactly(events: seq<Event>, node: string)
    ensures var m := Run(INIT, events); var m' := Next(m, Register(node));
            && |m'.tunnelHeap| == |m.tunnelHeap| + 1 && m'.tunnels == m.tunnels[node := |m.tunnelHeap|]
            && m'.tunnelHeap[|m.tunnelHeap|] == Tunnel(node, Channel([], false))
            && (forall t :: 0 <= t < |m.tunnelHeap| ==>
                  && m'.tunnelHeap[t].sendCh.buffer == m.tunnelHeap[t].sendCh.buffer
                  && (m'.tunnelHeap[t].sendCh.closed <==> m.tunnelHeap[t].sendCh.closed || m.tunnelHeap[t].node == node))
            && m'.sessions == m.sessions && m'.sessionHeap == m.sessionHeap && m'.deliveries == m.deliveries
  {
    Always(events);
    var m := Run(INIT, events);
    hide Run;
    assert node in m.tunnels ==> Registered(m, m.tunnels[node]);
  }

  // ----- Opening and closing -----

  /** A session is opened iff the node has a tunnel with room: then it is listed, open and empty,
      and the agent is told to start it. Otherwise the manager's maps and all tunnels stay as
      they are. */
  lemma OpenExactly(events: seq<Event>, node: string)
    ensures var m := Run(INIT, events); var (m', id) := OpenSession(m, node);
            && (id.Some? <==> node in m.tunnels && m.tunnels[node] < |m.tunnelHeap|
                              && |m.tunnelHeap[m.tunnels[node]].sendCh.buffer| < 256)
            && m'.tunnels == m.tunnels && m'.deliveries == m.deliveries
            && (id.Some? ==>
                  && id.value == |m.sessionHeap| && m'.sessions == m.sessions + {id.value}
                  && m'.sessionHeap == m.sessionHeap + [Session(node, Channel([], false), false)]
                  && Told(m, m', node, Start(id.value)))
            && (id.None? ==> m'.sessions == m.sessions && m'.tunnelHeap == m.tunnelHeap && m.sessionHeap <= m'.sessionHeap)
  {
    Always(events);
    var m := Run(INIT, events);
    hide Run;
    if node in m.tunnels {
      var id := |m.sessionHeap|;
      var s := Session(node, Channel([], false), false);
      var m1 := m.(sessions := m.sessions + {id}, sessionHeap := m.sessionHeap + [s]);
      assert id !in m.sessions;
      assert Registered(m, m.tunnels[node]);
      assert m.sessions + {id} - {id} == m.sessions;
    }
  }

  /** `m'` is `m` without the session `id`: its channel is closed, what is in it can still be read,
      and every other session is as before. */
  ghost predicate Dropped(m: Manager, m': Manager, id: nat)
    requires id < |m.sessionHeap|
  {
    && m'.sessions == m.sessions - {id} && m'.tunnels == m.tunnels && m'.deliveries == m.deliveries
    && m'.sessionHeap == m.sessionHeap[id :=
         Session(m.sessionHeap[id].node, Channel(m.sessionHeap[id].incoming.buffer, true), true)]
  }

  lemma CloseTells(m: Manager, id: nat)
    requires Inv(m)
    ensures var m' := CloseSession(m, id);
            if id in m.sessions
            then id < |m.sessionHeap| && Dropped(m, m', id) && Told(m, m', m.sessionHeap[id].node, Close(id))
            else m' == m
  {
    if id in m.sessions {
      assert SessionAgrees(m, id);
      ShutKeeps(m, id);
      var m1 := CloseChannel(m.(sessions := m.sessions - {id}), id);
      TellTells(m1, m.sessionHeap[id].node, Close(id));
      TellKeeps(m1, m.sessionHeap[id].node, Close(id));
      assert forall t: nat :: Registered(m1, t) == Registered(m, t);
      hide Tell, Inv;
    }
  }

  /** Closing a listed session removes exactly it and tells exactly its node to stop, if that has a
      tunnel with room; closing any other session does nothing. */
  lemma CloseExactly(events: seq<Event>, id: nat)
    ensures var m := Run(INIT, events); var m' := Next(m, CloseOne(id));
            if id in m.sessions
            then id < |m.sessionHeap| && Dropped(m, m', id) && Told(m, m', m.sessionHeap[id].node, Close(id))
            else m' == m
  {
    Always(events);
    CloseTells(Run(INIT, events), id);
    hide Run, Inv, CloseSession;
  }

  // ----- An agent that leaves -----

  /** `m'` is `m` without the sessions of `ids` on `node`, their channels closed. */
  ghost predicate NodeDropped(m: Manager, m': Manager, ids: seq<nat>, node: string) {
    && |m'.sessionHeap| == |m.sessionHeap|
    && m' == m.(sessions := m'.sessions, sessionHeap := m'.sessionHeap, panicked := m'.panicked)
    && (forall id :: id in m'.sessions <==>
          id in m.sessions && !(id in ids && id < |m.sessionHeap| && m.sessionHeap[id].node == node))
    && (forall id :: 0 <= id < |m.sessionHeap| ==>
          && m'.sessionHeap[id].node == m.sessionHeap[id].node
          && m'.sessionHeap[id].incoming.buffer == m.sessionHeap[id].incoming.buffer
          && (m'.sessionHeap[id].closed <==> m.sessionHeap[id].closed || (id in m.sessions && id !in m'.sessions)))
  }

  lemma {:induction false} DropDrops(m: Manager, order: seq<nat>, node: string)
    ensures NodeDropped(m, DropNode(m, order, node), order, node)
  {
    if order != [] {
      DropDrops(m, Front(order), node);
      assert order == Front(order) + [Last(order)];
    }
  }

  /** When an agent's tunnel goes away exactly the sessions on its node go with it, closed and with
      their buffers still to be read; no other tunnel changes, and nobody is told. */
  lemma UnregisterExactly(events: seq<Event>, t: nat, order: seq<nat>)
    requires Registered(Run(INIT, events), t)
    requires forall id :: id in Run(INIT, events).sessions ==> id in order
    ensures var m := Run(INIT, events); var m' := Next(m, Unregister(t, order)); var node := m.tunnelHeap[t].node;
            && m'.tunnels == m.tunnels - {node}
            && m'.tunnelHeap == m.tunnelHeap[t := Tunnel(node, Channel(m.tunnelHeap[t].sendCh.buffer, true))]
            && |m'.sessionHeap| == |m.sessionHeap|
            && (forall id :: 0 <= id < |m.sessionHeap| ==>
                  && (id in m'.sessions <==> id in m.sessions && m.sessionHeap[id].node != node)
                  && m'.sessionHeap[id].incoming.buffer == m.sessionHeap[id].incoming.buffer
                  && (m'.sessionHeap[id].incoming.closed <==>
                        m.sessionHeap[id].incoming.closed || (id in m.sessions && m.sessionHeap[id].node == node)))
  {
    Always(events);
    Always(events + [Unregister(t, order)]);
    assert Front(events + [Unregister(t, order)]) == events;
    var m := Run(INIT, events);
    var m' := Next(m, Unregister(t, order));
    var node := m.tunnelHeap[t].node;
    assert m' == Run(INIT, events + [Unregister(t, order)]);
    DropDrops(CloseTunnel(m, t).(tunnels := m.tunnels - {node}), order, node);
    forall id | 0 <= id < |m.sessionHeap|
      ensures m.sessionHeap[id].closed == m.sessionHeap[id].incoming.closed
    {
      assert SessionAgrees(m, id);
    }
    forall id | 0 <= id < |m'.sessionHeap|
      ensures m'.sessionHeap[id].closed == m'.sessionHeap[id].incoming.closed
    {
      assert SessionAgrees(m', id);
    }
    hide Run, DropNode;
  }

  /** When a tunnel that was replaced goes away nothing happens. */
  lemma ReplacedTunnelIsIgnored(events: seq<Event>, t: nat, order: seq<nat>)
    requires !Registered(Run(INIT, events), t)
    ensures Next(Run(INIT, events), Unregister(t, order)) == Run(INIT, events)
  {
    hide Run;
  }

  // ----- Delivering -----

  /** A delivery starts iff its session is listed, and takes the session off the list at once when
      the message is the last one; the tunnels and all channels stay as they are. */
  lemma BeginExactly(events: seq<Event>, g: nat, id: nat, msg: LogMessage)
    requires g !in Run(INIT, events).deliveries
    ensures var m := Run(INIT, events); var m' := Next(m, Begin(g, id, msg));
            && (g in m'.deliveries <==> id in m.sessions)
            && (g in m'.deliveries ==> m'.deliveries[g] == Delivery(id, msg, Found))
            && (forall k :: k in m'.sessions <==> k in m.sessions && !(k == id && (msg.Error? || msg.Closed?)))
            && m'.tunnels == m.tunnels && m'.tunnelHeap == m.tunnelHeap && m'.sessionHeap == m.sessionHeap
            && m'.deliveries - {g} == m.deliveries
  {
    hide Run;
  }

  /** A delivery that failed closes its session, as any close does, if that is still listed; one that
      got its last message through closes the channel and tells nobody. */
  lemma FinishExactly(events: seq<Event>, g: nat)
    requires var m := Run(INIT, events); g in m.deliveries && !m.deliveries[g].stage.Found?
    ensures var m := Run(INIT, events); var m' := Next(m, Finish(g)); var d := m.deliveries[g];
            var rest := m.(deliveries := m.deliveries - {g});
            && d.session < |m.sessionHeap|
            && (d.stage.Failed? ==>
                  if d.session in m.sessions
                  then Dropped(rest, m', d.session) && Told(rest, m', m.sessionHeap[d.session].node, Close(d.session))
                  else m' == rest)
            && (d.stage.Sent? ==>
                  && m'.sessions == m.sessions && m'.tunnels == m.tunnels && m'.tunnelHeap == m.tunnelHeap
                  && m'.sessionHeap == m.sessionHeap[d.session :=
                       m.sessionHeap[d.session].(closed := true,
                         incoming := Channel(m.sessionHeap[d.session].incoming.buffer, true))])
  {
    Always(events);
    var m := Run(INIT, events);
    hide Run;
    var d := m.deliveries[g];
    assert SessionAgrees(m, d.session);
    if d.stage.Failed? {
      ForgetFailedKeeps(m, g);
      CloseTells(m.(deliveries := m.deliveries - {g}), d.session);
      hide CloseSession, Inv, Told, Dropped;
    }
  }

  /** A message on its way enters the session's channel, last and unchanged, iff the session is
      still open and has room; in no case does any other channel change. */
  lemma SendExactly(events: seq<Event>, g: nat)
    requires var m := Run(INIT, events); g in m.deliveries && m.deliveries[g].stage.Found?
    ensures var m := Run(INIT, events); var m' := Next(m, Send(g)); var d := m.deliveries[g];
            && d.session < |m.sessionHeap|
            && m'.sessions == m.sessions && m'.tunnels == m.tunnels && m'.tunnelHeap == m.tunnelHeap
            && m'.sessionHeap ==
                 if !m.sessionHeap[d.session].incoming.closed && |m.sessionHeap[d.session].incoming.buffer| < 256
                 then m.sessionHeap[d.session := m.sessionHeap[d.session].(incoming :=
                        Channel(m.sessionHeap[d.session].incoming.buffer + [d.message], false))]
                 else m.sessionHeap
  {
    Always(events);
    var m := Run(INIT, events);
    hide Run;
    assert SessionAgrees(m, m.deliveries[g].session);
  }
}
