/** What every interleaving of the container-log manager keeps, and when a session leaves it
    without its channel being closed. */
module ContainerLogSafety {
  import opened Common
  import opened Channels
  import opened ContainerLogProtocol

  predicate Registered(m: Manager, t: nat) {
    t < |m.tunnelHeap| && m.tunnelHeap[t].node in m.tunnels && m.tunnels[m.tunnelHeap[t].node] == t
  }

  ghost predicate TunnelsAgree(m: Manager) {
    && (forall n :: n in m.tunnels ==> m.tunnels[n] < |m.tunnelHeap| && m.tunnelHeap[m.tunnels[n]].node == n)
    && (forall t :: 0 <= t < |m.tunnelHeap| ==> (m.tunnelHeap[t].sendCh.closed <==> !Registered(m, t)))
  }

  /** Goroutine `g` is delivering a terminal message to `id` and has not failed. */
  predicate Ending(m: Manager, g: nat, id: nat) {
    g in m.deliveries && m.deliveries[g].session == id && Terminal(m.deliveries[g].message) && !m.deliveries[g].stage.Failed?
  }

  /** The flag mirrors the channel; listed sessions are open; an unlisted session is closed, or
      about to be, or its terminal message met a full buffer. */
  ghost predicate SessionAgrees(m: Manager, id: nat)
    requires id < |m.sessionHeap|
  {
    && m.sessionHeap[id].closed == m.sessionHeap[id].incoming.closed
    && (id in m.sessions ==> !m.sessionHeap[id].closed)
    && (id !in m.sessions ==> m.sessionHeap[id].closed || id in m.orphans || exists g :: Ending(m, g, id))
  }

  ghost predicate Inv(m: Manager) {
    && !m.panicked && TunnelsAgree(m)
    && (forall id :: id in m.sessions ==> id < |m.sessionHeap|)
    && (forall id :: 0 <= id < |m.sessionHeap| ==> SessionAgrees(m, id))
    && (forall g :: g in m.deliveries ==>
          && m.deliveries[g].session < |m.sessionHeap|
          && (Terminal(m.deliveries[g].message) ==> m.deliveries[g].session !in m.sessions)
          && (m.deliveries[g].stage.Sent? ==> Terminal(m.deliveries[g].message)))
  }

  // ----- The operations keep it -----

  lemma RegisterKeeps(m: Manager, node: string)
    requires Inv(m)
    ensures Inv(RegisterTunnel(m, node))
  {
    var m' := RegisterTunnel(m, node);
    assert node in m.tunnels ==> Registered(m, m.tunnels[node]);
    SameSessions(m, m');
  }

  /** Sessions agree as before when nothing they depend on changed. */
  lemma SameSessions(m: Manager, m': Manager)
    requires Inv(m)
    requires m'.sessions == m.sessions && m'.sessionHeap == m.sessionHeap && m'.deliveries == m.deliveries && m'.orphans == m.orphans
    ensures forall id :: 0 <= id < |m'.sessionHeap| ==> SessionAgrees(m', id)
  {
    forall id | 0 <= id < |m'.sessionHeap| ensures SessionAgrees(m', id) {
      assert SessionAgrees(m, id);
      assert forall g: nat :: Ending(m, g, id) ==> Ending(m', g, id);
    }
  }

  lemma TellKeeps(m: Manager, node: string, msg: Request)
    requires Inv(m)
    ensures Inv(Tell(m, node, msg).0)
    ensures Tell(m, node, msg).0 == m.(tunnelHeap := Tell(m, node, msg).0.tunnelHeap)
    ensures |Tell(m, node, msg).0.tunnelHeap| == |m.tunnelHeap|
    ensures Tell(m, node, msg).1 <==> node in m.tunnels && !m.tunnelHeap[m.tunnels[node]].sendCh.Full()
  {
    assert node in m.tunnels ==> Registered(m, m.tunnels[node]);
    SameSessions(m, Tell(m, node, msg).0);
  }

  /** Unlisting and closing a session. */
  lemma ShutKeeps(m: Manager, id: nat)
    requires Inv(m) && id < |m.sessionHeap|
    ensures Inv(CloseChannel(m.(sessions := m.sessions - {id}), id))
  {
    var m' := CloseChannel(m.(sessions := m.sessions - {id}), id);
    assert SessionAgrees(m, id);
    forall k | 0 <= k < |m'.sessionHeap| ensures SessionAgrees(m', k) {
      assert SessionAgrees(m, k);
      assert forall g: nat :: Ending(m, g, k) ==> Ending(m', g, k);
    }
    assert forall t: nat :: Registered(m', t) == Registered(m, t);
  }

  lemma CloseKeeps(m: Manager, id: nat)
    requires Inv(m)
    ensures Inv(CloseSession(m, id))
  {
    if id in m.sessions {
      ShutKeeps(m, id);
      hide Inv, CloseChannel;
      TellKeeps(CloseChannel(m.(sessions := m.sessions - {id}), id), m.sessionHeap[id].node, Close(id));
    }
  }

  lemma {:induction false} DropKeeps(m: Manager, order: seq<nat>, node: string)
    requires Inv(m)
    ensures Inv(DropNode(m, order, node))
  {
    if order != [] {
      hide Inv, CloseChannel;
      DropKeeps(m, Front(order), node);
      var m1 := DropNode(m, Front(order), node);
      if Last(order) < |m1.sessionHeap| {
        ShutKeeps(m1, Last(order));
      }
    }
  }

  lemma UnregisterKeeps(m: Manager, t: nat, order: seq<nat>)
    requires Inv(m)
    ensures Inv(UnregisterTunnel(m, t, order))
  {
    if Registered(m, t) {
      var node := m.tunnelHeap[t].node;
      var m' := CloseTunnel(m, t).(tunnels := m.tunnels - {node});
      assert forall k: nat :: Registered(m', k) <==> Registered(m, k) && k != t;
      SameSessions(m, m');
      DropKeeps(m', order, node);
    }
  }

  lemma OpenKeeps(m: Manager, node: string)
    requires Inv(m)
    ensures Inv(OpenSession(m, node).0)
  {
    if node in m.tunnels {
      var id := |m.sessionHeap|;
      var m' := m.(sessions := m.sessions + {id}, sessionHeap := m.sessionHeap + [Session(node, Channel([], false), false)]);
      AddKeeps(m, m', Session(node, Channel([], false), false));
      hide Inv, CloseChannel;
      TellKeeps(m', node, Start(id));
      ShutKeeps(Tell(m', node, Start(id)).0, id);
    }
  }

  lemma AddKeeps(m: Manager, m': Manager, s: Session)
    requires Inv(m) && !s.closed && !s.incoming.closed
    requires m' == m.(sessions := m.sessions + {|m.sessionHeap|}, sessionHeap := m.sessionHeap + [s])
    ensures Inv(m')
  {
    forall k | 0 <= k < |m'.sessionHeap| ensures SessionAgrees(m', k) {
      if k < |m.sessionHeap| {
        assert SessionAgrees(m, k);
        assert forall g: nat :: Ending(m, g, k) ==> Ending(m', g, k);
      }
    }
    assert forall t: nat :: Registered(m', t) == Registered(m, t);
  }

  lemma BeginKeeps(m: Manager, g: nat, id: nat, msg: LogMessage)
    requires Inv(m)
    ensures Inv(BeginDelivery(m, g, id, msg))
  {
    var m' := BeginDelivery(m, g, id, msg);
    if m' != m {
      forall k | 0 <= k < |m'.sessionHeap| ensures SessionAgrees(m', k) {
        assert SessionAgrees(m, k);
        assert forall h: nat :: Ending(m, h, k) ==> Ending(m', h, k);
        assert k == id && Terminal(msg) ==> Ending(m', g, k);
      }
      assert forall t: nat :: Registered(m', t) == Registered(m, t);
    }
  }

  lemma SendKeeps(m: Manager, g: nat)
    requires Inv(m)
    ensures Inv(SendDelivery(m, g))
  {
    var m' := SendDelivery(m, g);
    if g in m.deliveries && m.deliveries[g].stage.Found? {
      var id := m.deliveries[g].session;
      assert SessionAgrees(m, id);
      forall k | 0 <= k < |m'.sessionHeap| ensures SessionAgrees(m', k) {
        assert SessionAgrees(m, k);
        assert forall h: nat :: Ending(m, h, k) && h != g ==> Ending(m', h, k);
        assert Ending(m, g, k) ==> k == id && (Ending(m', g, k) || m'.sessionHeap[k].closed || k in m'.orphans);
      }
      assert forall t: nat :: Registered(m', t) == Registered(m, t);
    }
  }

  lemma FinishKeeps(m: Manager, g: nat)
    requires Inv(m)
    ensures Inv(FinishDelivery(m, g))
  {
    if g in m.deliveries && !m.deliveries[g].stage.Found? {
      var d := m.deliveries[g];
      var m' := m.(deliveries := m.deliveries - {g});
      if d.stage.Failed? {
        ForgetFailedKeeps(m, g);
        CloseKeeps(m', d.session);
      } else {
        FinishSentKeeps(m, g);
      }
    }
  }

  lemma ForgetFailedKeeps(m: Manager, g: nat)
    requires Inv(m) && g in m.deliveries && m.deliveries[g].stage.Failed?
    ensures Inv(m.(deliveries := m.deliveries - {g}))
  {
    var m' := m.(deliveries := m.deliveries - {g});
    forall k | 0 <= k < |m'.sessionHeap| ensures SessionAgrees(m', k) {
      assert SessionAgrees(m, k);
      assert forall h: nat :: Ending(m, h, k) ==> Ending(m', h, k);
    }
    assert forall t: nat :: Registered(m', t) == Registered(m, t);
  }

  lemma FinishSentKeeps(m: Manager, g: nat)
    requires Inv(m) && g in m.deliveries && m.deliveries[g].stage.Sent?
    ensures Inv(CloseChannel(m.(deliveries := m.deliveries - {g}), m.deliveries[g].session))
  {
    var id := m.deliveries[g].session;
    var m' := CloseChannel(m.(deliveries := m.deliveries - {g}), id);
    assert SessionAgrees(m, id);
    forall k | 0 <= k < |m'.sessionHeap| ensures SessionAgrees(m', k) {
      assert SessionAgrees(m, k);
      assert forall h: nat :: Ending(m, h, k) && h != g ==> Ending(m', h, k);
      assert Ending(m, g, k) ==> k == id;
    }
    assert forall t: nat :: Registered(m', t) == Registered(m, t);
  }

  lemma ReceiveRequestKeeps(m: Manager, t: nat)
    requires Inv(m)
    ensures Inv(Next(m, ReceiveRequest(t)))
  {
    var m' := Next(m, ReceiveRequest(t));
    SameSessions(m, m');
    assert forall k: nat :: Registered(m', k) == Registered(m, k);
    hide SessionAgrees;
  }

  lemma ReceiveMessageKeeps(m: Manager, i: nat)
    requires Inv(m)
    ensures Inv(Next(m, ReceiveMessage(i)))
  {
    var m' := Next(m, ReceiveMessage(i));
    forall k | 0 <= k < |m'.sessionHeap| ensures SessionAgrees(m', k) {
      assert SessionAgrees(m, k);
      assert forall h: nat :: Ending(m, h, k) ==> Ending(m', h, k);
    }
    assert forall t: nat :: Registered(m', t) == Registered(m, t);
    hide SessionAgrees;
  }

  lemma Step(m: Manager, ev: Event)
    requires Inv(m)
    ensures Inv(Next(m, ev))
  {
    hide Inv;
    match ev
    case Register(node) => RegisterKeeps(m, node);
    case Unregister(t, order) => UnregisterKeeps(m, t, order);
    case Open(node) => OpenKeeps(m, node);
    case CloseOne(id) => CloseKeeps(m, id);
    case Begin(g, id, msg) => BeginKeeps(m, g, id, msg);
    case Send(g) => SendKeeps(m, g);
    case Finish(g) => FinishKeeps(m, g);
    case ReceiveRequest(t) => ReceiveRequestKeeps(m, t);
    case ReceiveMessage(id) => ReceiveMessageKeeps(m, id);
  }

  lemma {:induction false} Always(events: seq<Event>)
    ensures Inv(Run(INIT, events))
  {
    if events != [] {
      hide Next, Inv;
      Always(Front(events));
      Step(Run(INIT, Front(events)), Last(events));
    }
  }

  // ----- The results -----

  /** No interleaving sends on a closed channel or closes one twice; a tunnel's channel is open
      iff it is the one in the map; and a listed session is open. */
  lemma ChannelDiscipline(events: seq<Event>)
    ensures var m := Run(INIT, events);
            && !m.panicked
            && (forall t :: 0 <= t < |m.tunnelHeap| ==> (!m.tunnelHeap[t].sendCh.closed <==> Registered(m, t)))
            && (forall id :: 0 <= id < |m.sessionHeap| && id in m.sessions ==> !m.sessionHeap[id].incoming.closed)
  {
    Always(events);
    var m := Run(INIT, events);
    forall id | 0 <= id < |m.sessionHeap| && id in m.sessions ensures !m.sessionHeap[id].incoming.closed {
      assert SessionAgrees(m, id);
    }
  }

  /** An undisturbed delivery of a terminal message removes the session, and closes its channel
      exactly when the buffer has room. */
  lemma TerminalClosesIffRoom(events: seq<Event>, g: nat, id: nat, msg: LogMessage)
    requires var m := Run(INIT, events); g !in m.deliveries && id in m.sessions && id < |m.sessionHeap| && Terminal(msg)
    ensures var m := Run(INIT, events);
            var m' := Next(Next(Next(m, Begin(g, id, msg)), Send(g)), Finish(g));
            && id !in m'.sessions && |m'.sessionHeap| == |m.sessionHeap|
            && (m'.sessionHeap[id].incoming.closed <==> !m.sessionHeap[id].incoming.Full())
  {
    Always(events);
    assert SessionAgrees(Run(INIT, events), id);
    hide Run, TunnelsAgree;
  }

  // ----- Sessions that are never closed -----

  /** Unlisted, open, and with no terminal message on its way. */
  ghost predicate Abandoned(m: Manager, id: nat) {
    id < |m.sessionHeap| && id !in m.sessions && !m.sessionHeap[id].incoming.closed && forall g :: !Ending(m, g, id)
  }

  lemma CloseLeaves(m: Manager, k: nat, id: nat)
    requires Abandoned(m, id)
    ensures Abandoned(CloseSession(m, k), id)
  {
    var m' := CloseSession(m, k);
    assert m'.deliveries == m.deliveries;
    assert forall g: nat :: Ending(m', g, id) == Ending(m, g, id);
  }

  lemma {:induction false} DropLeaves(m: Manager, order: seq<nat>, node: string, id: nat)
    requires Abandoned(m, id)
    ensures Abandoned(DropNode(m, order, node), id)
  {
    if order != [] {
      DropLeaves(m, Front(order), node, id);
      var m1, m' := DropNode(m, Front(order), node), DropNode(m, order, node);
      assert m'.deliveries == m1.deliveries;
      assert forall g: nat :: Ending(m', g, id) == Ending(m1, g, id);
    }
  }

  lemma FinishLeaves(m: Manager, g: nat, id: nat)
    requires Inv(m) && Abandoned(m, id)
    ensures Abandoned(FinishDelivery(m, g), id)
  {
    if g in m.deliveries && !m.deliveries[g].stage.Found? {
      var m' := m.(deliveries := m.deliveries - {g});
      assert !Ending(m, g, id);
      assert forall h: nat :: Ending(m', h, id) ==> Ending(m, h, id);
      assert Abandoned(m', id);
      CloseLeaves(m', m.deliveries[g].session, id);
      if m.deliveries[g].stage.Sent? {
        var m2 := CloseChannel(m', m.deliveries[g].session);
        assert forall h: nat :: Ending(m2, h, id) == Ending(m', h, id);
      }
    }
  }

  lemma AbandonedStep(m: Manager, ev: Event, id: nat)
    requires Inv(m) && Abandoned(m, id)
    ensures Abandoned(Next(m, ev), id)
  {
    var m' := Next(m, ev);
    match ev
    case CloseOne(k) => CloseLeaves(m, k, id);
    case Finish(g) => FinishLeaves(m, g, id);
    case Unregister(t, order) =>
      if Registered(m, t) {
        var m1 := CloseTunnel(m, t).(tunnels := m.tunnels - {m.tunnelHeap[t].node});
        assert forall g: nat :: Ending(m1, g, id) == Ending(m, g, id);
        DropLeaves(m1, order, m.tunnelHeap[t].node, id);
      }
    case Open(node) =>
      hide Inv;
      assert m'.deliveries == m.deliveries;
      assert forall g: nat :: Ending(m', g, id) == Ending(m, g, id);
    case _ =>
      hide Inv;
      assert forall g: nat :: Ending(m', g, id) ==> Ending(m, g, id);
  }

  /** Once a session is unlisted without being closed and nothing terminal is on its way, no
      later event ever closes its channel: its reader waits for its own context to end. */
  lemma {:induction false} AbandonedForGood(before: seq<Event>, after: seq<Event>, id: nat)
    requires Abandoned(Run(INIT, before), id)
    ensures Abandoned(Run(INIT, before + after), id)
  {
    hide Next, Inv, Abandoned;
    if after == [] {
      assert before + after == before;
    } else {
      AbandonedForGood(before, Front(after), id);
      Always(before + Front(after));
      AbandonedStep(Run(INIT, before + Front(after)), Last(after), id);
      assert Front(before + after) == before + Front(after);
    }
  }

  /** Such a session is reachable: a reader 256 messages behind when the last one arrives. */
  lemma AbandonedIsReachable()
    ensures exists events :: Abandoned(Run(INIT, events), 0)
  {
    var full := FillUp(CAPACITY);
    var begun := full + [Begin(0, 0, LogMessage.Closed)];
    var failed := begun + [Send(0)];
    assert Front(begun) == full && Front(failed) == begun;
    assert Run(INIT, begun) == Next(Run(INIT, full), Begin(0, 0, LogMessage.Closed));
    assert Run(INIT, failed) == Next(Run(INIT, begun), Send(0));
    assert Abandoned(Run(INIT, failed), 0);
  }

  /** A run after which session 0 is listed with `n` messages in its buffer. */
  lemma {:induction false} FillUp(n: nat) returns (events: seq<Event>)
    requires n <= CAPACITY
    ensures var m := Run(INIT, events);
            && m.sessions == {0} && |m.sessionHeap| == 1 && m.deliveries == map[]
            && |m.sessionHeap[0].incoming.buffer| == n
            && !m.sessionHeap[0].incoming.closed && !m.sessionHeap[0].closed
  {
    if n == 0 {
      events := [Register("n"), Open("n")];
      assert Front(events) == [Register("n")] && Front(Front(events)) == [];
      assert Run(INIT, Front(events)) == Next(INIT, Register("n"));
    } else {
      var before := FillUp(n - 1);
      var mid := before + [Begin(0, 0, Chunk(""))];
      events := mid + [Send(0)];
      assert Front(mid) == before && Front(events) == mid;
      var m := Run(INIT, before);
      assert Run(INIT, mid) == BeginDelivery(m, 0, 0, Chunk(""));
      assert Run(INIT, events) == SendDelivery(BeginDelivery(m, 0, 0, Chunk("")), 0);
      assert m.deliveries[0 := Delivery(0, Chunk(""), Found)] - {0} == map[];
    }
  }

  // ----- Exactly which removed sessions are closed -----

  /** A terminal message on its way is the only one for its session, which is unlisted and open. */
  ghost predicate Awaited(m: Manager, g: nat, id: nat) {
    && id < |m.sessionHeap| && id !in m.sessions && !m.sessionHeap[id].incoming.closed
    && forall h: nat :: Ending(m, h, id) ==> h == g
  }

  ghost predicate OrphansAgree(m: Manager) {
    && (forall id :: id in m.orphans ==> Abandoned(m, id))
    && (forall g: nat, id: nat :: Ending(m, g, id) ==> Awaited(m, g, id))
  }

  /** An unlisted session stays unlisted and as open as it was. */
  ghost predicate Untouched(m: Manager, m': Manager, id: nat) {
    && id < |m.sessionHeap| <= |m'.sessionHeap| && (id !in m.sessions ==>
         id !in m'.sessions && m'.sessionHeap[id].incoming.closed == m.sessionHeap[id].incoming.closed)
  }

  lemma {:induction false} DropUntouched(m: Manager, order: seq<nat>, node: string, id: nat)
    requires id < |m.sessionHeap|
    ensures Untouched(m, DropNode(m, order, node), id) && DropNode(m, order, node).sessions <= m.sessions
    ensures DropNode(m, order, node).deliveries == m.deliveries && DropNode(m, order, node).orphans == m.orphans
  {
    if order != [] {
      DropUntouched(m, Front(order), node, id);
    }
  }

  /** No call but a delivery's own steps touches an unlisted session or a delivery. */
  lemma OtherStepUntouched(m: Manager, ev: Event, id: nat)
    requires id < |m.sessionHeap| && !ev.Begin? && !ev.Send? && !ev.Finish?
    ensures Untouched(m, Next(m, ev), id)
    ensures Next(m, ev).deliveries == m.deliveries && Next(m, ev).orphans == m.orphans
  {
    match ev
    case Unregister(t, order) =>
      if t < |m.tunnelHeap| {
        DropUntouched(CloseTunnel(m, t).(tunnels := m.tunnels - {m.tunnelHeap[t].node}), order, m.tunnelHeap[t].node, id);
      }
    case _ =>
  }

  lemma OtherStepKeeps(m: Manager, ev: Event)
    requires Inv(m) && OrphansAgree(m) && !ev.Begin? && !ev.Send? && !ev.Finish? && m.sessionHeap != []
    ensures OrphansAgree(Next(m, ev))
  {
    var m' := Next(m, ev);
    OtherStepUntouched(m, ev, 0);
    hide Next, Inv;
    forall id | id in m'.orphans ensures Abandoned(m', id) {
      OtherStepUntouched(m, ev, id);
      assert Abandoned(m, id);
      assert forall g: nat :: Ending(m', g, id) == Ending(m, g, id);
    }
    forall g: nat, id: nat | Ending(m', g, id) ensures Awaited(m', g, id) {
      assert Ending(m, g, id) && Awaited(m, g, id);
      OtherStepUntouched(m, ev, id);
      assert forall h: nat :: Ending(m', h, id) == Ending(m, h, id);
    }
  }

  lemma BeginAgrees(m: Manager, g: nat, id: nat, msg: LogMessage)
    requires Inv(m) && OrphansAgree(m)
    ensures OrphansAgree(BeginDelivery(m, g, id, msg))
  {
    var m' := BeginDelivery(m, g, id, msg);
    if m' != m {
      assert SessionAgrees(m, id);
      assert forall h: nat :: !Ending(m, h, id);
      hide SessionAgrees;
      forall k | k in m'.orphans ensures Abandoned(m', k) {
        assert Abandoned(m, k);
        assert forall h: nat :: Ending(m', h, k) ==> Ending(m, h, k);
      }
      forall h: nat, k: nat | Ending(m', h, k) ensures Awaited(m', h, k) {
        if h != g {
          assert Ending(m, h, k) && Awaited(m, h, k);
        }
        assert forall i: nat :: Ending(m', i, k) ==> i == g || Ending(m, i, k);
      }
    }
  }

  lemma SendAgrees(m: Manager, g: nat)
    requires Inv(m) && OrphansAgree(m)
    ensures OrphansAgree(SendDelivery(m, g))
  {
    var m' := SendDelivery(m, g);
    if g in m.deliveries && m.deliveries[g].stage.Found? {
      var id := m.deliveries[g].session;
      assert SessionAgrees(m, id);
      hide SessionAgrees;
      assert forall h: nat, k: nat :: Ending(m', h, k) ==> Ending(m, h, k);
      assert Terminal(m.deliveries[g].message) ==> Ending(m, g, id) && Awaited(m, g, id);
      forall k | k in m'.orphans ensures Abandoned(m', k) {
        if k in m.orphans {
          assert Abandoned(m, k);
        } else {
          assert k == id && !Ending(m', g, id);
        }
      }
      forall h: nat, k: nat | Ending(m', h, k) ensures Awaited(m', h, k) {
        assert Awaited(m, h, k);
      }
    }
  }

  lemma FinishAgrees(m: Manager, g: nat)
    requires Inv(m) && OrphansAgree(m)
    ensures OrphansAgree(FinishDelivery(m, g))
  {
    var m' := FinishDelivery(m, g);
    if g in m.deliveries && !m.deliveries[g].stage.Found? {
      var d := m.deliveries[g];
      assert m'.deliveries == m.deliveries - {g} && m'.orphans == m.orphans && |m'.sessionHeap| == |m.sessionHeap|;
      assert d.stage.Sent? ==> Ending(m, g, d.session);
      assert forall h: nat, k: nat :: Ending(m', h, k) ==> Ending(m, h, k) && h != g;
      forall k | k in m'.orphans ensures Abandoned(m', k) {
        assert Abandoned(m, k);
        assert d.stage.Sent? ==> k != d.session;
      }
      forall h: nat, k: nat | Ending(m', h, k) ensures Awaited(m', h, k) {
        assert Awaited(m, h, k);
        assert d.stage.Sent? && k == d.session ==> g == h;
      }
    }
  }

  lemma OrphansStep(m: Manager, ev: Event)
    requires Inv(m) && OrphansAgree(m)
    ensures OrphansAgree(Next(m, ev))
  {
    match ev
    case Begin(g, id, msg) => BeginAgrees(m, g, id, msg);
    case Send(g) => SendAgrees(m, g);
    case Finish(g) => FinishAgrees(m, g);
    case _ =>
      if m.sessionHeap != [] {
        OtherStepKeeps(m, ev);
      } else {
        NoSessionYet(m, ev);
      }
  }

  lemma NoSessionYet(m: Manager, ev: Event)
    requires Inv(m) && OrphansAgree(m) && m.sessionHeap == [] && !ev.Begin? && !ev.Send? && !ev.Finish?
    ensures OrphansAgree(Next(m, ev))
  {
    assert forall g :: g !in m.deliveries;
    assert m.orphans == {};
    NoDeliveryAgrees(m, ev);
  }

  lemma NoDeliveryAgrees(m: Manager, ev: Event)
    requires m.deliveries == map[] && m.orphans == {} && m.sessions == {} && !ev.Begin? && !ev.Send? && !ev.Finish?
    ensures Next(m, ev).deliveries == map[] && Next(m, ev).orphans == {}
  {
    match ev
    case Unregister(t, order) =>
      if t < |m.tunnelHeap| {
        DropNothing(CloseTunnel(m, t).(tunnels := m.tunnels - {m.tunnelHeap[t].node}), order, m.tunnelHeap[t].node);
      }
    case _ =>
  }

  lemma {:induction false} DropNothing(m: Manager, order: seq<nat>, node: string)
    requires m.sessions == {}
    ensures DropNode(m, order, node) == m
  {
    if order != [] {
      DropNothing(m, Front(order), node);
    }
  }

  lemma {:induction false} OrphansAlways(events: seq<Event>)
    ensures OrphansAgree(Run(INIT, events))
  {
    if events != [] {
      hide Next, Inv, OrphansAgree;
      OrphansAlways(Front(events));
      Always(Front(events));
      OrphansStep(Run(INIT, Front(events)), Last(events));
    }
  }

  /** Over every run: a removed session without a terminal message on its way is closed if and only
      if none of its terminal messages met a full buffer. */
  lemma RemovedIsClosedIff(events: seq<Event>, id: nat)
    requires id < |Run(INIT, events).sessionHeap| && id !in Run(INIT, events).sessions
    requires forall g :: !Ending(Run(INIT, events), g, id)
    ensures Run(INIT, events).sessionHeap[id].incoming.closed <==> id !in Run(INIT, events).orphans
  {
    Always(events);
    OrphansAlways(events);
    var m := Run(INIT, events);
    hide Run;
    assert SessionAgrees(m, id);
    if id in m.orphans {
      assert Abandoned(m, id);
    }
  }
}
