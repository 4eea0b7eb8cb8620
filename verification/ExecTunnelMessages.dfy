/** What the operations of the exec tunnel manager do to the channels, message by message, and
    to the sessions and tokens they do not concern: in every reachable state. */
module ExecTunnelMessages {
  import opened Common
  import opened Channels
  import opened ExecTunnelProtocol
  import opened ExecTunnelSafety

  /** How many more messages a channel of 256 takes. */
  function Room<M>(c: Channel<M>): nat {
    if |c.buffer| < 256 then 256 - |c.buffer| else 0
  }

  /** `c` after as many of `msgs` as it has room for. */
  function Filled<M>(c: Channel<M>, msgs: seq<M>): Channel<M> {
    c.(buffer := c.buffer + msgs[..if |msgs| < Room(c) then |msgs| else Room(c)])
  }

  /** The registered tunnels take what is meant for their nodes, and no other channel changes. */
  ghost predicate Told(m: Manager, m': Manager, msgs: string -> seq<Message>) {
    && |m'.tunnelHeap| == |m.tunnelHeap|
    && forall t :: 0 <= t < |m.tunnelHeap| ==>
         && m'.tunnelHeap[t].node == m.tunnelHeap[t].node
         && m'.tunnelHeap[t].sendCh ==
              if Registered(m, t) then Filled(m.tunnelHeap[t].sendCh, msgs(m.tunnelHeap[t].node)) else m.tunnelHeap[t].sendCh
  }

  function Only(node: string, msg: Message): string -> seq<Message> {
    n => if n == node then [msg] else []
  }

  lemma TellTells(m: Manager, node: string, msg: Message)
    requires Inv(m)
    ensures Told(m, Tell(m, node, msg).0, Only(node, msg))
  {
    assert node in m.tunnels ==> Registered(m, m.tunnels[node]);
    forall t | 0 <= t < |m.tunnelHeap| && m.tunnelHeap[t].node == node && Registered(m, t)
      ensures Tell(m, node, msg).0.tunnelHeap[t].sendCh == Filled(m.tunnelHeap[t].sendCh, [msg])
    {
      assert m.tunnels[node] == t;
      assert [msg][..1] == [msg] && [msg][..0] == [];
      assert m.tunnelHeap[t].sendCh.buffer + [] == m.tunnelHeap[t].sendCh.buffer;
    }
    forall t | 0 <= t < |m.tunnelHeap|
      ensures Filled(m.tunnelHeap[t].sendCh, []) == m.tunnelHeap[t].sendCh
    {
      assert m.tunnelHeap[t].sendCh.buffer + [] == m.tunnelHeap[t].sendCh.buffer;
    }
  }

  // ----- Closing -----

  /** `m'` has no session `id` and no token of it any more: its channel is closed, what is in it can
      still be read, and no other session or token changes. */
  ghost predicate Forgotten(m: Manager, m': Manager, id: nat)
    requires id < |m.sessionHeap|
  {
    && m'.sessions == m.sessions - {id}
    && (forall k :: k in m'.attachTokens <==> k in m.attachTokens && m.attachTokens[k] != id)
    && (forall k :: k in m'.attachTokens ==> m'.attachTokens[k] == m.attachTokens[k])
    && m'.tunnels == m.tunnels
    && |m'.sessionHeap| == |m.sessionHeap|
    && (forall k :: 0 <= k < |m.sessionHeap| && k != id ==> m'.sessionHeap[k] == m.sessionHeap[k])
    && m'.sessionHeap[id].incoming == Channel(m.sessionHeap[id].incoming.buffer, true)
    && m'.sessionHeap[id].closed && m'.sessionHeap[id].token.None?
  }

  /** ... and its node's tunnel is told to close it, which is all the tunnels see. */
  ghost predicate ClosedOne(m: Manager, m': Manager, id: nat)
    requires id < |m.sessionHeap|
  {
    Forgotten(m, m', id) && Told(m, m', Only(m.sessionHeap[id].node, Message(id, CloseKind)))
  }

  /** The first half of closing, before the node is told. */
  function Forget(m: Manager, id: nat): Manager
    requires id < |m.sessionHeap|
  {
    var s := m.sessionHeap[id];
    m.(panicked := m.panicked || s.incoming.closed,
       sessionHeap := m.sessionHeap[id := Shut(s)],
       attachTokens := if s.token.Some? then m.attachTokens - {s.token.value} else m.attachTokens,
       sessions := m.sessions - {id})
  }

  lemma ForgetFacts(m: Manager, id: nat)
    requires Inv(m) && id in m.sessions
    ensures id < |m.sessionHeap| && !m.sessionHeap[id].closed
    ensures Inv(Forget(m, id)) && Forgotten(m, Forget(m, id), id)
  {
    assert SessionAgrees(m.sessionHeap[id], true);
    ForgetKeeps(m, id, Forget(m, id));
  }

  lemma CloseTells(m: Manager, id: nat)
    requires Inv(m) && id in m.sessions
    ensures id < |m.sessionHeap| && ClosedOne(m, CloseSession(m, id), id)
  {
    ForgetFacts(m, id);
    hide Inv, Shut;
    var m1, node := Forget(m, id), m.sessionHeap[id].node;
    TellTells(m1, node, Message(id, CloseKind));
    TellKeeps(m1, node, Message(id, CloseKind));
    hide Tell, Filled, Only;
    assert forall t: nat :: Registered(m1, t) == Registered(m, t);
    var m2 := CloseSession(m, id);
    assert Forgotten(m, m2, id) by { hide Told; }
    assert Told(m, m2, Only(node, Message(id, CloseKind))) by { hide Forgotten; }
  }

  /** Closing a listed session removes exactly it and its token and tells exactly its node, if that
      has a tunnel with room; closing any other session does nothing. */
  lemma CloseExactly(events: seq<Event>, id: nat)
    ensures var m := Run(INIT, events); var m' := Next(m, CloseOne(id));
            if id in m.sessions then id < |m.sessionHeap| && ClosedOne(m, m', id) else m' == m
  {
    Always(events);
    hide Run, Inv;
    if id in Run(INIT, events).sessions {
      CloseTells(Run(INIT, events), id);
    }
  }

  // ----- Sweeping -----

  /** The close messages for the sessions on `node` that an iteration over `order` closes. */
  function Closes(m: Manager, order: seq<nat>, which: Which, node: string): seq<Message> {
    if order == [] then []
    else
      var id := Last(order);
      var before := Closes(m, Front(order), which, node);
      if id in m.sessions && id < |m.sessionHeap| && Selected(m.sessionHeap[id], which)
         && id !in Front(order) && m.sessionHeap[id].node == node
      then before + [Message(id, CloseKind)] else before
  }

  lemma FilledTwice<M>(c: Channel<M>, xs: seq<M>, ys: seq<M>)
    requires |ys| <= 1
    ensures Filled(Filled(c, xs), ys) == Filled(c, xs + ys)
  {
    if |xs| < Room(c) {
      assert xs[..|xs|] == xs;
      assert Filled(c, xs).buffer == c.buffer + xs;
      if ys == [] {
        assert xs + ys == xs;
      } else {
        assert (xs + ys)[..|xs| + 1] == xs + ys && ys[..1] == ys;
        assert c.buffer + (xs + ys) == c.buffer + xs + ys;
      }
    } else {
      assert (xs + ys)[..Room(c)] == xs[..Room(c)];
      assert Room(Filled(c, xs)) == 0;
      assert Filled(c, xs).buffer + ys[..0] == Filled(c, xs).buffer;
    }
  }

  lemma ToldTwice(m: Manager, m1: Manager, m2: Manager, xs: string -> seq<Message>, ys: string -> seq<Message>,
                  zs: string -> seq<Message>)
    requires Told(m, m1, xs) && Told(m1, m2, ys) && m1.tunnels == m.tunnels
    requires forall n :: |ys(n)| <= 1 && zs(n) == xs(n) + ys(n)
    ensures Told(m, m2, zs)
  {
    assert forall t: nat :: Registered(m1, t) == Registered(m, t);
    forall t | 0 <= t < |m.tunnelHeap|
      ensures m2.tunnelHeap[t].sendCh ==
                if Registered(m, t) then Filled(m.tunnelHeap[t].sendCh, zs(m.tunnelHeap[t].node)) else m.tunnelHeap[t].sendCh
    {
      var n := m.tunnelHeap[t].node;
      FilledTwice(m.tunnelHeap[t].sendCh, xs(n), ys(n));
    }
  }

  lemma ToldNothing(m: Manager, xs: string -> seq<Message>)
    requires forall n :: xs(n) == []
    ensures Told(m, m, xs)
  {
    forall t | 0 <= t < |m.tunnelHeap|
      ensures Filled(m.tunnelHeap[t].sendCh, xs(m.tunnelHeap[t].node)) == m.tunnelHeap[t].sendCh
    {
      assert m.tunnelHeap[t].sendCh.buffer + [] == m.tunnelHeap[t].sendCh.buffer;
    }
  }

  lemma {:induction false} CloseWhereTells(m: Manager, order: seq<nat>, which: Which)
    requires Inv(m)
    ensures Told(m, CloseWhere(m, order, which), n => Closes(m, order, which, n))
  {
    if order == [] {
      ToldNothing(m, n => Closes(m, order, which, n));
    } else {
      hide Inv, Told, Selected;
      CloseWhereTells(m, Front(order), which);
      CloseWhereKeeps(m, Front(order), which);
      var m1, id := CloseWhere(m, Front(order), which), Last(order);
      CloseLast(m, order, which);
      if id in m1.sessions && id < |m1.sessionHeap| && Selected(m1.sessionHeap[id], which) {
        CloseTells(m1, id);
        ToldTwice(m, m1, CloseSession(m1, id), n => Closes(m, Front(order), which, n),
                  Only(m.sessionHeap[id].node, Message(id, CloseKind)), n => Closes(m, order, which, n));
      } else {
        ToldNothing(m1, n => []);
        ToldTwice(m, m1, m1, n => Closes(m, Front(order), which, n), n => [], n => Closes(m, order, which, n));
      }
    }
  }

  /** A sweep tells every node about exactly the sessions on it that the sweep closes, in the order
      it visits them and as far as the node's tunnel has room. */
  lemma SweepTells(events: seq<Event>, order: seq<nat>, now: int, t: nat)
    requires t < |Run(INIT, events).tunnelHeap|
    ensures var m := Run(INIT, events); var m' := Next(m, SweepExpired(order, now));
            && |m'.tunnelHeap| == |m.tunnelHeap|
            && m'.tunnelHeap[t].sendCh ==
                 if Registered(m, t)
                 then Filled(m.tunnelHeap[t].sendCh, Closes(m, order, ExpiredAt(now), m.tunnelHeap[t].node))
                 else m.tunnelHeap[t].sendCh
  {
    Always(events);
    hide Run, Inv, Filled, Closes, CloseWhere;
    CloseWhereTells(Run(INIT, events), order, ExpiredAt(now));
  }

  /** The messages of an iteration are those of the selected sessions on the node, each once. */
  lemma {:induction false} ClosesAreSelected(m: Manager, order: seq<nat>, which: Which, node: string, msg: Message)
    ensures msg in Closes(m, order, which, node) <==>
              && msg.kind == CloseKind && msg.session in order && msg.session in m.sessions
              && msg.session < |m.sessionHeap|
              && Selected(m.sessionHeap[msg.session], which) && m.sessionHeap[msg.session].node == node
    ensures forall i, j :: 0 <= i < j < |Closes(m, order, which, node)| ==>
              Closes(m, order, which, node)[i] != Closes(m, order, which, node)[j]
  {
    if order != [] {
      var id, front := Last(order), Front(order);
      assert order == front + [id];
      ClosesAreSelected(m, front, which, node, msg);
      ClosesAreSelected(m, front, which, node, Message(id, CloseKind));
    }
  }

  lemma NothingElsewhere(m: Manager, order: seq<nat>, node: string, n: string)
    requires n != node
    ensures Closes(m, order, OnNode(node), n) == []
  {
    var closes := Closes(m, order, OnNode(node), n);
    if closes != [] {
      ClosesAreSelected(m, order, OnNode(node), n, closes[0]);
    }
  }

  /** When an agent's tunnel goes away only that tunnel is closed, with what is in it still to be
      read, and nobody is told anything; when a tunnel that was replaced goes away nothing happens. */
  lemma UnregisterTellsNobody(events: seq<Event>, t: nat, order: seq<nat>)
    ensures var m := Run(INIT, events); var m' := Next(m, Unregister(t, order));
            && (!Registered(m, t) ==> m' == m)
            && |m'.tunnelHeap| == |m.tunnelHeap|
            && (forall k :: 0 <= k < |m.tunnelHeap| ==>
                  && m'.tunnelHeap[k].sendCh.buffer == m.tunnelHeap[k].sendCh.buffer
                  && (m'.tunnelHeap[k].sendCh.closed <==> m.tunnelHeap[k].sendCh.closed || k == t))
  {
    Always(events);
    var m := Run(INIT, events);
    hide Run;
    if Registered(m, t) {
      var node := m.tunnelHeap[t].node;
      var m1 := CloseTunnel(m, t).(tunnels := m.tunnels - {node});
      assert forall k: nat :: Registered(m1, k) <==> Registered(m, k) && k != t;
      UnregisteredKeeps(m, t);
      CloseWhereTells(m1, order, OnNode(node));
      hide Inv, Closes, CloseWhere;
      forall k | 0 <= k < |m.tunnelHeap| && Registered(m1, k)
        ensures Closes(m1, order, OnNode(node), m1.tunnelHeap[k].node) == []
      {
        NothingElsewhere(m1, order, node, m1.tunnelHeap[k].node);
      }
    }
  }

  lemma UnregisteredKeeps(m: Manager, t: nat)
    requires Inv(m) && Registered(m, t)
    ensures Inv(CloseTunnel(m, t).(tunnels := m.tunnels - {m.tunnelHeap[t].node}))
  {
    var m1 := CloseTunnel(m, t).(tunnels := m.tunnels - {m.tunnelHeap[t].node});
    assert forall k: nat :: Registered(m1, k) <==> Registered(m, k) && k != t;
  }

  // ----- The other operations -----

  /** An agent that connects gets a new open and empty tunnel; the one it had before is closed, with
      what is in it still to be read. No session notices. */
  lemma RegisterExactly(events: seq<Event>, node: string)
    ensures var m := Run(INIT, events); var m' := Next(m, Register(node));
            && |m'.tunnelHeap| == |m.tunnelHeap| + 1 && m'.tunnels == m.tunnels[node := |m.tunnelHeap|]
            && m'.tunnelHeap[|m.tunnelHeap|] == Tunnel(node, Channel([], false))
            && (forall t :: 0 <= t < |m.tunnelHeap| ==>
                  && m'.tunnelHeap[t].sendCh.buffer == m.tunnelHeap[t].sendCh.buffer
                  && (m'.tunnelHeap[t].sendCh.closed <==> m.tunnelHeap[t].sendCh.closed || m.tunnelHeap[t].node == node))
            && m'.sessions == m.sessions && m'.sessionHeap == m.sessionHeap && m'.attachTokens == m.attachTokens
  {
    Always(events);
    var m := Run(INIT, events);
    hide Run;
    assert node in m.tunnels ==> Registered(m, m.tunnels[node]);
  }

  /** A message to a session's agent arrives iff the session is listed and its node has a tunnel with
      room; a full tunnel closes the session, silently, and a session that cannot be reached
      otherwise stays as it is. */
  lemma SendExactly(events: seq<Event>, id: nat, kind: Kind)
    ensures var m := Run(INIT, events); var (m', ok) := SendToSessionNode(m, id, kind);
            if !(id in m.sessions && id < |m.sessionHeap| && m.sessionHeap[id].node in m.tunnels) then !ok && m' == m
            else
              var t := m.tunnels[m.sessionHeap[id].node];
              && t < |m.tunnelHeap|
              && (ok <==> |m.tunnelHeap[t].sendCh.buffer| < 256)
              && (ok ==> Told(m, m', Only(m.sessionHeap[id].node, Message(id, kind)))
                         && m' == m.(tunnelHeap := m'.tunnelHeap))
              && (!ok ==> ClosedOne(m, m', id) && m'.tunnelHeap == m.tunnelHeap)
  {
    Always(events);
    var m := Run(INIT, events);
    hide Run;
    if id in m.sessions && m.sessionHeap[id].node in m.tunnels {
      assert SessionAgrees(m.sessionHeap[id], true);
      var node := m.sessionHeap[id].node;
      TellTells(m, node, Message(id, kind));
      TellKeeps(m, node, Message(id, kind));
      var told := Tell(m, node, Message(id, kind)).0;
      if m.tunnelHeap[m.tunnels[node]].sendCh.Full() {
        assert told.tunnelHeap == m.tunnelHeap;
        assert told == m;
        CloseTells(m, id);
        FullStays(m, id);
      }
      hide Told, Only, ClosedOne, CloseSession;
    }
  }

  lemma FullStays(m: Manager, id: nat)
    requires Inv(m) && id in m.sessions && m.sessionHeap[id].node in m.tunnels
    requires m.tunnelHeap[m.tunnels[m.sessionHeap[id].node]].sendCh.Full()
    ensures CloseSession(m, id).tunnelHeap == m.tunnelHeap
  {
    assert SessionAgrees(m.sessionHeap[id], true);
    assert Registered(m, m.tunnels[m.sessionHeap[id].node]);
  }

  /** `m'` is `m` but for the channel and flags of the session `id`. */
  ghost predicate ButOne(m: Manager, m': Manager, id: nat)
    requires id < |m.sessionHeap|
  {
    && |m'.sessionHeap| == |m.sessionHeap|
    && m' == m.(sessionHeap := m'.sessionHeap)
    && forall k :: 0 <= k < |m.sessionHeap| && k != id ==> m'.sessionHeap[k] == m.sessionHeap[k]
  }

  /** What an agent says reaches the browser's channel iff the session is open and the channel has
      room, last and unchanged; otherwise nothing happens. */
  lemma DeliverExactly(events: seq<Event>, id: nat, payload: string)
    ensures var m := Run(INIT, events); var (m', ok) := Deliver(m, id, payload);
            && (ok <==> id in m.sessions && id < |m.sessionHeap| && |m.sessionHeap[id].incoming.buffer| < 256)
            && (ok ==> ButOne(m, m', id)
                       && m'.sessionHeap[id] == m.sessionHeap[id].(incoming :=
                            Channel(m.sessionHeap[id].incoming.buffer + [payload], false)))
            && (!ok ==> m' == m)
  {
    Always(events);
    var m := Run(INIT, events);
    hide Run;
    if id < |m.sessionHeap| {
      assert SessionAgrees(m.sessionHeap[id], id in m.sessions);
    }
  }

  /** The session of a token that is known and has not expired. */
  ghost predicate Redeems(m: Manager, token: nat, now: int, id: nat) {
    token in m.attachTokens && m.attachTokens[token] == id && id < |m.sessionHeap| && now < m.sessionHeap[id].expires
  }

  /** A browser reserves a session iff it holds the session's unexpired token and no other browser
      is attaching; that marks the session and changes nothing else. An expired token closes its
      session; otherwise a refused reservation changes nothing. */
  lemma ReserveExactly(events: seq<Event>, token: nat, now: int)
    ensures var m := Run(INIT, events); var (m', r) := Reserve(m, token, now);
            && (forall id: nat :: r == Some(id) <==> Redeems(m, token, now, id) && !m.sessionHeap[id].attaching)
            && (r.Some? ==> ButOne(m, m', r.value)
                            && m'.sessionHeap[r.value] == m.sessionHeap[r.value].(attaching := true))
            && (r.None? ==>
                  if token in m.attachTokens && m.attachTokens[token] < |m.sessionHeap| && !Redeems(m, token, now, m.attachTokens[token])
                  then ClosedOne(m, m', m.attachTokens[token]) else m' == m)
  {
    Always(events);
    var m := Run(INIT, events);
    hide Run;
    LookupKeeps(m, token, now);
    if token in m.attachTokens {
      var id := m.attachTokens[token];
      assert SessionAgrees(m.sessionHeap[id], id in m.sessions);
      CloseTells(m, id);
    }
    hide Inv, ClosedOne, CloseSession, Thinned;
  }

  /** Giving a reservation up unmarks the session of an unexpired token and changes nothing else. */
  lemma ReleaseExactly(events: seq<Event>, token: nat, now: int, id: nat)
    requires Redeems(Run(INIT, events), token, now, id)
    ensures var m := Run(INIT, events); var m' := Release(m, token, now);
            ButOne(m, m', id) && m'.sessionHeap[id] == m.sessionHeap[id].(attaching := false)
  {
    Always(events);
    var m := Run(INIT, events);
    hide Run;
    LookupKeeps(m, token, now);
    assert SessionAgrees(m.sessionHeap[id], id in m.sessions);
    hide Inv, CloseSession, Thinned;
  }
}
