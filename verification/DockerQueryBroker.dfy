/** The docker query broker as the object it is: maps updated under one lock, queues compacted
    in place, and one wake-up channel per waiting request. Proved against the functions of
    DockerQueryProtocol. */
module DockerQueryBroker {
  import opened Common
  import opened DockerQueryProtocol
  import opened DockerQuerySafety
  import Results = DockerQueryResults

  /** Moves the queries to keep to the front, in order, and returns how many there are. */
  method CompactInPlace(queue: array<Query>, keep: Keep) returns (n: nat)
    modifies queue
    ensures n <= queue.Length && queue[..n] == Filter(keep, old(queue[..]))
  {
    n := 0;
    for i := 0 to queue.Length
      invariant n <= i
      invariant queue[..n] == Filter(keep, old(queue[..i]))
      invariant queue[i..] == old(queue[i..])
    {
      assert Front(old(queue[..i+1])) == old(queue[..i]);
      assert queue[i] == queue[i..][0] == old(queue[i]);
      if Keeps(keep, queue[i]) {
        queue[n] := queue[i];
        n := n + 1;
        assert queue[..n] == queue[..n-1] + [old(queue[i])];
      }
    }
    assert old(queue[..queue.Length]) == old(queue[..]);
  }

  method Compact(queue: seq<Query>, keep: Keep) returns (filtered: seq<Query>)
    ensures filtered == Filter(keep, queue)
  {
    var buffer := new Query[|queue|](i requires 0 <= i < |queue| => queue[i]);
    assert buffer[..] == queue;
    var n := CompactInPlace(buffer, keep);
    filtered := buffer[..n];
  }

  class QueryBroker {
    var pendingByNode: map<string, seq<Query>>
    var assignedByID: map<nat, Assigned>
    var results: map<nat, Stored>

    function View(): Broker
      reads this
    {
      Broker(pendingByNode, assignedByID, results)
    }

    constructor ()
      ensures View() == Broker(map[], map[], map[])
    {
      pendingByNode, assignedByID, results := map[], map[], map[];
    }

    /** The compaction loop over all nodes, shared by the sweep and by Cancel. */
    method CompactQueues(keep: Keep)
      modifies this`pendingByNode
      ensures pendingByNode == FilterQueues(keep, old(pendingByNode))
    {
      var nodes := pendingByNode.Keys;
      while nodes != {}
        invariant nodes <= old(pendingByNode).Keys && pendingByNode.Keys <= old(pendingByNode).Keys
        invariant forall n :: n in nodes ==> n in pendingByNode && pendingByNode[n] == old(pendingByNode)[n]
        invariant forall n :: n in old(pendingByNode) && n !in nodes ==>
                    (n in pendingByNode <==> Filter(keep, old(pendingByNode)[n]) != [])
        invariant forall n :: n in pendingByNode && n !in nodes ==> pendingByNode[n] == Filter(keep, old(pendingByNode)[n])
        decreases nodes
      {
        var node :| node in nodes;
        nodes := nodes - {node};
        var filtered := Compact(pendingByNode[node], keep);
        if |filtered| == 0 {
          pendingByNode := pendingByNode - {node};
        } else {
          pendingByNode := pendingByNode[node := filtered];
        }
      }
    }

    method SweepExpired(now: int)
      modifies this
      ensures View() == Swept(old(View()), now)
    {
      CompactQueues(Unexpired(now));
      SweepAssigned(now);
      SweepResults(now);
    }

    method SweepAssigned(now: int)
      modifies this`assignedByID
      ensures assignedByID == map id | id in old(assignedByID) && old(assignedByID)[id].expires > now :: old(assignedByID)[id]
    {
      var ids := assignedByID.Keys;
      while ids != {}
        invariant ids <= old(assignedByID).Keys && assignedByID.Keys <= old(assignedByID).Keys
        invariant forall id :: id in assignedByID ==> assignedByID[id] == old(assignedByID)[id]
        invariant forall id :: id in ids ==> id in assignedByID
        invariant forall id :: id in old(assignedByID) && id !in ids ==>
                    (id in assignedByID <==> old(assignedByID)[id].expires > now)
        decreases ids
      {
        var id :| id in ids;
        ids := ids - {id};
        if assignedByID[id].expires <= now {
          assignedByID := assignedByID - {id};
        }
      }
    }

    method SweepResults(now: int)
      modifies this`results
      ensures results == map id | id in old(results) && old(results)[id].expires > now :: old(results)[id]
    {
      var ids := results.Keys;
      while ids != {}
        invariant ids <= old(results).Keys && results.Keys <= old(results).Keys
        invariant forall id :: id in results ==> results[id] == old(results)[id]
        invariant forall id :: id in ids ==> id in results
        invariant forall id :: id in old(results) && id !in ids ==> (id in results <==> old(results)[id].expires > now)
        decreases ids
      {
        var id :| id in ids;
        ids := ids - {id};
        if results[id].expires <= now {
          results := results - {id};
        }
      }
    }

    /** `id` is the generated query id; the expiry is fixed here, from the timeout. */
    method Enqueue(id: nat, node: string, timeout: int, now: int)
      modifies this
      ensures View() == DockerQueryProtocol.Enqueue(old(View()), Query(id, node, timeout, now + Ttl(timeout)), now)
    {
      var ttl := MAX_WAIT + CLEANUP_GRACE;
      if timeout > 0 && timeout + CLEANUP_GRACE > ttl {
        ttl := timeout + CLEANUP_GRACE;
      }
      assert ttl == Ttl(timeout);
      SweepExpired(now);
      hide Swept, Ttl;
      var queue := if node in pendingByNode then pendingByNode[node] else [];
      pendingByNode := pendingByNode[node := queue + [Query(id, node, timeout, now + ttl)]];
    }

    method Pull(node: string, now: int) returns (q: Option<Query>)
      modifies this
      ensures (View(), q) == DockerQueryProtocol.Pull(old(View()), node, now)
    {
      if node == "" {
        return None;
      }
      SweepExpired(now);
      if node !in pendingByNode || |pendingByNode[node]| == 0 {
        return None;
      }
      var queue := pendingByNode[node];
      var query := queue[0];
      if |queue| == 1 {
        pendingByNode := pendingByNode - {node};
      } else {
        pendingByNode := pendingByNode[node := queue[1..]];
      }
      assignedByID := assignedByID[query.id := Assigned(node, query.expires)];
      return Some(query);
    }

    method StoreResult(r: Result, now: int) returns (outcome: StoreOutcome)
      modifies this
      ensures (View(), outcome) == DockerQueryProtocol.StoreResult(old(View()), r, now)
    {
      SweepExpired(now);
      if r.id !in assignedByID || assignedByID[r.id].node == "" {
        return NotPending;
      }
      var assignment := assignedByID[r.id];
      if assignment.node != r.node {
        return WrongNode;
      }
      assignedByID := assignedByID - {r.id};
      results := results[r.id := Stored(r, assignment.expires + CLEANUP_GRACE)];
      return Accepted;
    }

    method PopResult(id: nat, now: int) returns (r: Option<Result>)
      modifies this
      ensures (View(), r) == DockerQueryProtocol.PopResult(old(View()), id, now)
    {
      SweepExpired(now);
      if id !in results {
        return None;
      }
      r := Some(results[id].result);
      results := results - {id};
    }

    method Cancel(id: nat)
      modifies this
      ensures View() == DockerQueryProtocol.Cancel(old(View()), id)
    {
      results := results - {id};
      assignedByID := assignedByID - {id};
      CompactQueues(OtherThan(id));
    }
  }

  // ----- The broker with its wake-up channels and the requests that wait -----

  /** One channel per waiting request, numbered like the request; it holds at most one token
      and is closed when the request returns. */
  class QueryServer {
    const broker: QueryBroker
    var clock: int
    var nextID: nat
    var timeouts: map<nat, int>
    var resultSubscribers: map<nat, set<nat>>
    var channels: nat
    var tokens: set<nat>
    var closed: set<nat>
    ghost var history: seq<Event>
    ghost var world: World

    ghost predicate Valid()
      reads this, broker
    {
      && world == Run(INIT, history)
      && world.b == broker.View() && world.now == clock
      && Counted()
      && Wired(world.waiters)
    }

    /** The channels say what the requests say: a channel is closed iff its request returned,
        and subscribed iff it is open. */
    ghost predicate Wired(waiters: seq<Waiter>)
      reads this`resultSubscribers, this`tokens, this`closed
    {
      && (forall i :: 0 <= i < |waiters| ==>
            && (i in closed <==> waiters[i].phase.Returned?)
            && (i !in closed ==> (i in tokens <==> waiters[i].token)))
      && (forall id: nat, i: nat :: Subscribed(id, i) <==> i < |waiters| && waiters[i].query == id && i !in closed)
    }

    predicate Subscribed(id: nat, i: nat)
      reads this`resultSubscribers
    {
      id in resultSubscribers && i in resultSubscribers[id]
    }

    constructor ()
      ensures Valid() && fresh(broker) && history == []
    {
      broker := new QueryBroker();
      clock, nextID, timeouts, resultSubscribers, channels, tokens, closed := 0, 0, map[], map[], 0, {}, {};
      history, world := [], INIT;
    }

    ghost method Note(ev: Event)
      requires world == Run(INIT, history)
      modifies this`history, this`world
      ensures world == Run(INIT, history) && world == Next(old(world), ev)
      ensures history == old(history) + [ev]
    {
      hide Next;
      history := history + [ev];
      assert Front(history) == old(history);
      world := Next(world, ev);
    }

    /** Sends a token to every subscribed channel that is empty; none of them is closed. */
    method NotifyResult(id: nat)
      requires forall i: nat :: Subscribed(id, i) ==> i !in closed
      modifies this`tokens
      ensures forall i: nat :: i in tokens <==> i in old(tokens) || Subscribed(id, i)
    {
      if id !in resultSubscribers {
        return;
      }
      var left := resultSubscribers[id];
      while left != {}
        invariant left <= resultSubscribers[id]
        invariant forall i: nat :: i in tokens <==> i in old(tokens) || (i in resultSubscribers[id] && i !in left)
        decreases left
      {
        var ch :| ch in left;
        left := left - {ch};
        assert Subscribed(id, ch);
        Send(ch);
      }
    }

    /** A send that is skipped when the channel is full. Sending on a closed channel panics. */
    method Send(ch: nat)
      requires ch !in closed
      modifies this`tokens
      ensures tokens == old(tokens) + {ch}
    {
      tokens := tokens + {ch};
    }

    method SubscribeResult(id: nat) returns (ch: nat)
      requires Valid() && id < nextID
      modifies this
      ensures Valid() && ch == old(channels) && old(history) < history && nextID == old(nextID)
      ensures Stands(ch, id, old(clock + WaitTimeout(timeouts[id])), Checking)
    {
      hide Run, WaitTimeout;
      ch := channels;
      assert forall k: nat :: !Subscribed(k, ch);
      assert forall k: nat, i: nat :: Subscribed(k, i) ==> i < channels;
      MakeChannel(id, ch);
      Note(StartWait(id));
    }

    /** A new open, empty channel in the subscriber set of `id`. */
    method MakeChannel(id: nat, ch: nat)
      modifies this`channels, this`tokens, this`closed, this`resultSubscribers
      ensures channels == ch + 1 && tokens == old(tokens) - {ch} && closed == old(closed) - {ch}
      ensures forall k: nat, i: nat :: Subscribed(k, i) <==> old(Subscribed(k, i)) || (k == id && i == ch)
    {
      channels := ch + 1;
      tokens, closed := tokens - {ch}, closed - {ch};
      var before := if id in resultSubscribers then resultSubscribers[id] else {};
      resultSubscribers := resultSubscribers[id := before + {ch}];
    }

    /** Closes the channel of a request that returns; a channel is closed once. */
    method UnsubscribeResult(id: nat, ch: nat)
      requires ch !in closed && Subscribed(id, ch)
      modifies this`resultSubscribers, this`closed
      ensures closed == old(closed) + {ch}
      ensures forall k: nat, i: nat :: Subscribed(k, i) <==> old(Subscribed(k, i)) && !(k == id && i == ch)
    {
      resultSubscribers := resultSubscribers[id := resultSubscribers[id] - {ch}];
      closed := closed + {ch};
      if |resultSubscribers[id]| == 0 {
        resultSubscribers := resultSubscribers - {id};
      }
    }

    // ----- The broker's operations as steps of the machine -----

    method EnqueueQuery(node: string, timeout: int) returns (id: nat)
      requires Valid()
      modifies this, broker
      ensures Valid() && id == old(nextID) && nextID == id + 1 && old(history) < history
      ensures world.waiters == old(world.waiters)
    {
      hide Run, Enqueue;
      id := nextID;
      broker.Enqueue(id, node, timeout, clock);
      nextID := nextID + 1;
      timeouts := timeouts[id := timeout];
      Note(Event.EnqueueQuery(node, timeout));
    }

    method PullQuery(node: string) returns (q: Option<Query>)
      requires Valid()
      modifies this, broker
      ensures Valid() && old(history) < history && nextID == old(nextID)
      ensures world.waiters == old(world.waiters)
      ensures q.Some? ==> world.pulled == old(world.pulled) + [q.value]
    {
      hide Run, Pull;
      q := broker.Pull(node, clock);
      Note(Event.PullQuery(node));
    }

    method ReportResult(r: Result) returns (outcome: StoreOutcome)
      requires Valid()
      modifies this, broker
      ensures Valid() && old(history) < history && nextID == old(nextID)
      ensures |world.waiters| == |old(world.waiters)|
      ensures forall i :: 0 <= i < |world.waiters| ==> world.waiters[i] == old(world.waiters[i]).(token := world.waiters[i].token)
    {
      hide Run, StoreResult;
      outcome := broker.StoreResult(r, clock);
      if outcome.Accepted? {
        NotifyResult(r.id);
      }
      Note(Event.ReportResult(r));
    }

    method CancelQuery(id: nat)
      requires Valid()
      modifies this, broker
      ensures Valid() && old(history) < history && nextID == old(nextID)
      ensures world.waiters == old(world.waiters)
    {
      hide Run, Cancel;
      broker.Cancel(id);
      Note(Event.CancelQuery(id));
    }

    method Advance(elapsed: nat)
      requires Valid()
      modifies this
      ensures Valid() && old(history) < history && nextID == old(nextID)
      ensures world.waiters == old(world.waiters)
    {
      hide Run;
      clock := clock + elapsed;
      Note(Tick(elapsed));
    }

    /** Request `ch` waits for `id` until `deadline` and stands at `phase`. */
    ghost predicate Stands(ch: nat, id: nat, deadline: int, phase: Phase)
      reads this
    {
      && ch < |world.waiters|
      && world.waiters[ch].query == id && world.waiters[ch].deadline == deadline && world.waiters[ch].phase == phase
    }

    /** What other goroutines do between two steps of a request. */
    method Others(ch: nat, id: nat, deadline: int, ghost phase: Phase)
      requires Valid() && Stands(ch, id, deadline, phase)
      modifies this, broker
      ensures Valid() && Stands(ch, id, deadline, phase) && old(history) <= history && old(nextID) <= nextID
    {
      hide Next, Run, Wired;
      var events: seq<Event> := *;
      for i := 0 to |events|
        invariant Valid() && Stands(ch, id, deadline, phase) && old(history) <= history && old(nextID) <= nextID
      {
        match events[i]
        case EnqueueQuery(node, timeout) => var _ := EnqueueQuery(node, timeout);
        case PullQuery(node) => var _ := PullQuery(node);
        case ReportResult(r) => var _ := ReportResult(r);
        case CancelQuery(k) => CancelQuery(k);
        case Tick(elapsed) => Advance(elapsed);
        case _ =>
      }
    }

    // ----- WaitResult -----

    /** PopResult; a hit ends the wait. */
    method TryPop(ch: nat, id: nat, deadline: int) returns (r: Option<Result>)
      requires Valid() && Stands(ch, id, deadline, Checking)
      modifies this, broker
      ensures Valid() && old(history) < history && nextID == old(nextID)
      ensures Stands(ch, id, deadline, if r.Some? then Returned(r) else Deciding)
      ensures r.Some? ==> world.popped == old(world.popped) + [r.value] && r.value.id == id
    {
      ResultHasItsId(world, history, id);
      hide Run, PopResult, Discarded;
      r := broker.PopResult(id, clock);
      NotePop(ch, id, deadline, r);
    }

    /** After the pop: a hit closes the channel, a miss goes on. */
    method NotePop(ch: nat, id: nat, deadline: int, r: Option<Result>)
      requires world == Run(INIT, history) && Wired(world.waiters) && Stands(ch, id, deadline, Checking)
      requires (broker.View(), r) == PopResult(world.b, id, world.now) && world.now == clock
      requires Counted()
      modifies this
      ensures Valid() && old(history) < history && nextID == old(nextID)
      ensures Stands(ch, id, deadline, if r.Some? then Returned(r) else Deciding)
      ensures r.Some? ==> world.popped == old(world.popped) + [r.value]
    {
      hide Run, PopResult, Discarded, NextBroker;
      if r.Some? {
        assert Subscribed(id, ch);
        UnsubscribeResult(id, ch);
      }
      Note(Check(ch));
    }

    /** The counters and timeouts are those of the machine. */
    ghost predicate Counted()
      reads this
    {
      && |world.enqueued| == nextID && |world.waiters| == channels
      && (forall id: nat :: id in timeouts <==> id < nextID)
      && (forall id: nat :: id < nextID ==> timeouts[id] == world.enqueued[id].timeout)
    }

    static lemma ResultHasItsId(w: World, events: seq<Event>, id: nat)
      requires w == Run(INIT, events)
      ensures var (_, r) := PopResult(w.b, id, w.now); r.Some? ==> r.value.id == id
    {
      Always(events);
    }

    /** The query is cancelled and the request returns nothing. */
    method GiveUp(ch: nat, id: nat, deadline: int, ghost phase: Phase, ghost ev: Event)
      requires Valid() && Stands(ch, id, deadline, phase) && !phase.Returned?
      requires ev.Decide? || ev.TimerFires? || ev.ContextEnds?
      requires NextWaiter(world, ev) == DockerQueryProtocol.GiveUp(world, ch)
      modifies this, broker
      ensures Valid() && old(history) < history && nextID == old(nextID)
      ensures Stands(ch, id, deadline, Returned(None)) && world.popped == old(world.popped)
    {
      hide Run, Cancel, NextWaiter, Discarded;
      broker.Cancel(id);
      assert Subscribed(id, ch);
      UnsubscribeResult(id, ch);
      Note(ev);
    }

    /** The wait is over, or goes into the select. */
    method DecideToBlock(ch: nat, id: nat, deadline: int) returns (blocked: bool)
      requires Valid() && Stands(ch, id, deadline, Deciding)
      modifies this, broker
      ensures Valid() && old(history) < history && nextID == old(nextID)
      ensures Stands(ch, id, deadline, if blocked then Blocked else Returned(None))
    {
      hide Run;
      if deadline - clock <= 0 {
        GiveUp(ch, id, deadline, Deciding, Decide(ch));
        return false;
      }
      Note(Decide(ch));
      return true;
    }

    /** The select: a token, the timer or the end of the context, whichever is ready. */
    method Select(ch: nat, id: nat, deadline: int, prefersToken: bool) returns (woken: bool)
      requires Valid() && Stands(ch, id, deadline, Blocked)
      modifies this, broker
      ensures Valid() && old(history) < history && nextID == old(nextID)
      ensures woken ==> prefersToken
      ensures Stands(ch, id, deadline, if woken then Checking else Returned(None))
    {
      hide Run;
      if ch in tokens && prefersToken {
        tokens := tokens - {ch};
        Note(Wake(ch));
        return true;
      }
      if clock >= deadline {
        GiveUp(ch, id, deadline, Blocked, TimerFires(ch));
      } else {
        GiveUp(ch, id, deadline, Blocked, ContextEnds(ch));
      }
      return false;
    }

    /** One turn of the loop, with other goroutines running between its steps. */
    method Turn(ch: nat, id: nat, deadline: int, prefersToken: bool) returns (woken: bool, r: Option<Result>)
      requires Valid() && Stands(ch, id, deadline, Checking)
      modifies this, broker
      ensures Valid() && old(history) < history
      ensures Stands(ch, id, deadline, if woken then Checking else Returned(r))
      ensures woken ==> prefersToken && r.None?
      ensures r.Some? ==> r.value in world.popped && r.value.id == id
    {
      hide Next, Run, Wired;
      Others(ch, id, deadline, Checking);
      r := TryPop(ch, id, deadline);
      if r.Some? {
        return false, r;
      }
      Others(ch, id, deadline, Deciding);
      var blocked := DecideToBlock(ch, id, deadline);
      if !blocked {
        return false, None;
      }
      Others(ch, id, deadline, Blocked);
      woken := Select(ch, id, deadline, prefersToken);
    }

    /** WaitResult: subscribes, then pops, decides and selects until a result is popped or the
        wait is over. The request leaves with its channel closed, and with a result only if it
        is the one popped for its own query. */
    method WaitResult(id: nat) returns (ch: nat, r: Option<Result>)
      requires Valid() && id < nextID
      modifies this, broker
      ensures Valid() && old(history) < history
      ensures ch == old(channels) && ch < |world.waiters| && world.waiters[ch].query == id
      ensures world.waiters[ch].phase == Returned(r) && ch in closed && !Subscribed(id, ch)
      ensures r.Some? ==> r.value in world.popped && r.value.id == id && Results.Reported(history, r.value)
    {
      hide Next, Run, Results.Reported;
      var deadline := clock + WaitTimeout(timeouts[id]);
      ch := SubscribeResult(id);
      var wakes: nat := *;
      var woken;
      woken, r := Turn(ch, id, deadline, wakes > 0);
      while woken
        invariant Valid() && old(history) < history
        invariant Stands(ch, id, deadline, if woken then Checking else Returned(r))
        invariant woken ==> wakes > 0
        invariant r.Some? ==> r.value in world.popped && r.value.id == id
        decreases wakes
      {
        wakes := wakes - 1;
        woken, r := Turn(ch, id, deadline, wakes > 0);
      }
      Results.ResultsWereReported(history);
    }
  }
}
