/** The controller's docker query broker as one state machine: a query waits in its node's
    queue, is assigned to the agent that pulls it, gets a result, and the result is popped by
    the request that waits for it. Source: internal/app/controller/docker_query_bridge.go. */
module DockerQueryProtocol {
  import opened Common

  // ----- Times, in nanoseconds -----

  const SECOND := 1_000_000_000
  const MAX_WAIT := 30 * SECOND
  const CLEANUP_GRACE := 60 * SECOND

  function Ttl(timeout: int): int {
    if timeout > 0 && timeout + CLEANUP_GRACE > MAX_WAIT + CLEANUP_GRACE then timeout + CLEANUP_GRACE
    else MAX_WAIT + CLEANUP_GRACE
  }

  function WaitTimeout(timeout: int): int {
    if timeout > 0 && timeout + 5 * SECOND > MAX_WAIT then timeout + 5 * SECOND else MAX_WAIT
  }

  // ----- The broker -----

  /** Ids are generated, so a new query never has the id of an earlier one. */
  datatype Query = Query(id: nat, node: string, timeout: int, expires: int)

  datatype Assigned = Assigned(node: string, expires: int)

  datatype Result = Result(id: nat, node: string, payload: string)

  datatype Stored = Stored(result: Result, expires: int)

  datatype Broker = Broker(pending: map<string, seq<Query>>, assignments: map<nat, Assigned>, results: map<nat, Stored>)

  /** What a compaction of the queues keeps. */
  datatype Keep = Unexpired(now: int) | OtherThan(id: nat)

  predicate Keeps(keep: Keep, q: Query) {
    match keep
    case Unexpired(now) => q.expires > now
    case OtherThan(id) => q.id != id
  }

  function Filter(keep: Keep, queue: seq<Query>): (r: seq<Query>)
    ensures forall q :: q in r <==> q in queue && Keeps(keep, q)
  {
    if queue == [] then []
    else if Keeps(keep, Last(queue)) then Filter(keep, Front(queue)) + [Last(queue)]
    else Filter(keep, Front(queue))
  }

  /** Every queue filtered; queues that end up empty are deleted. */
  function FilterQueues(keep: Keep, pending: map<string, seq<Query>>): map<string, seq<Query>> {
    map n | n in pending && Filter(keep, pending[n]) != [] :: Filter(keep, pending[n])
  }

  function Queue(b: Broker, node: string): seq<Query> {
    if node in b.pending then b.pending[node] else []
  }

  function Swept(b: Broker, now: int): Broker {
    Broker(FilterQueues(Unexpired(now), b.pending),
           map id | id in b.assignments && b.assignments[id].expires > now :: b.assignments[id],
           map id | id in b.results && b.results[id].expires > now :: b.results[id])
  }

  function Enqueue(b: Broker, q: Query, now: int): Broker {
    var s := Swept(b, now);
    s.(pending := s.pending[q.node := Queue(s, q.node) + [q]])
  }

  function Pull(b: Broker, node: string, now: int): (Broker, Option<Query>) {
    if node == "" then (b, None)
    else
      var s := Swept(b, now);
      var queue := Queue(s, node);
      if queue == [] then (s, None)
      else
        (s.(pending := if |queue| == 1 then s.pending - {node} else s.pending[node := queue[1..]],
            assignments := s.assignments[queue[0].id := Assigned(node, queue[0].expires)]), Some(queue[0]))
  }

  datatype StoreOutcome = Accepted | NotPending | WrongNode

  function StoreResult(b: Broker, r: Result, now: int): (Broker, StoreOutcome) {
    var s := Swept(b, now);
    if r.id !in s.assignments || s.assignments[r.id].node == "" then (s, NotPending)
    else if s.assignments[r.id].node != r.node then (s, WrongNode)
    else
      (s.(assignments := s.assignments - {r.id},
          results := s.results[r.id := Stored(r, s.assignments[r.id].expires + CLEANUP_GRACE)]), Accepted)
  }

  function PopResult(b: Broker, id: nat, now: int): (Broker, Option<Result>) {
    var s := Swept(b, now);
    if id !in s.results then (s, None)
    else (s.(results := s.results - {id}), Some(s.results[id].result))
  }

  function Cancel(b: Broker, id: nat): Broker {
    Broker(FilterQueues(OtherThan(id), b.pending), b.assignments - {id}, b.results - {id})
  }

  // ----- The requests that wait -----

  /** Where WaitResult stands: about to pop, between a miss and the select, in the select, or
      returned with what it popped. `token` says the channel holds a wake-up. */
  datatype Phase = Checking | Deciding | Blocked | Returned(result: Option<Result>)

  datatype Waiter = Waiter(query: nat, started: int, deadline: int, token: bool, phase: Phase)

  function Notified(waiters: seq<Waiter>, id: nat): (r: seq<Waiter>)
    ensures |r| == |waiters|
    ensures forall i :: 0 <= i < |r| ==>
              r[i] == if waiters[i].query == id && !waiters[i].phase.Returned? then waiters[i].(token := true) else waiters[i]
  {
    seq(|waiters|, i requires 0 <= i < |waiters| =>
      if waiters[i].query == id && !waiters[i].phase.Returned? then waiters[i].(token := true) else waiters[i])
  }

  /** The last fields are history: queries enqueued and when, queries pulled, results popped,
      and the ids removed from a queue by expiry or cancellation. */
  datatype World = World(
    b: Broker,
    now: int,
    waiters: seq<Waiter>,
    enqueued: seq<Query>,
    born: seq<int>,
    pulled: seq<Query>,
    popped: seq<Result>,
    removed: set<nat>)

  const INIT := World(Broker(map[], map[], map[]), 0, [], [], [], [], [], {})

  datatype Event =
    | Tick(elapsed: nat)
    | EnqueueQuery(node: string, timeout: int)
    | PullQuery(node: string)
    | ReportResult(result: Result)
    | CancelQuery(id: nat)
    | StartWait(id: nat)
    | Check(waiter: nat)
    | Decide(waiter: nat)
    | Wake(waiter: nat)
    | TimerFires(waiter: nat)
    | ContextEnds(waiter: nat)


  /** The ids that a compaction takes out of the queues. */
  function Discarded(keep: Keep, pending: map<string, seq<Query>>): set<nat> {
    set n, i | n in pending && 0 <= i < |pending[n]| && !Keeps(keep, pending[n][i]) :: pending[n][i].id
  }

  function Expiring(w: World): set<nat> {
    Discarded(Unexpired(w.now), w.b.pending)
  }

  function SetPhase(w: World, i: nat, phase: Phase): World
    requires i < |w.waiters|
  {
    w.(waiters := w.waiters[i := w.waiters[i].(phase := phase)])
  }

  function CancelIn(w: World, id: nat): World {
    w.(b := Cancel(w.b, id), removed := w.removed + Discarded(OtherThan(id), w.b.pending))
  }

  /** A waiter gives up: the query is cancelled and nothing is returned. */
  function GiveUp(w: World, i: nat): World
    requires i < |w.waiters|
  {
    SetPhase(CancelIn(w, w.waiters[i].query), i, Returned(None))
  }

  function NextBroker(w: World, ev: Event): World {
    match ev
    case EnqueueQuery(node, timeout) =>
      var q := Query(|w.enqueued|, node, timeout, w.now + Ttl(timeout));
      w.(b := Enqueue(w.b, q, w.now), removed := w.removed + Expiring(w),
         enqueued := w.enqueued + [q], born := w.born + [w.now])
    case PullQuery(node) =>
      var (b, q) := Pull(w.b, node, w.now);
      w.(b := b, removed := if node == "" then w.removed else w.removed + Expiring(w),
         pulled := if q.Some? then w.pulled + [q.value] else w.pulled)
    case ReportResult(r) =>
      var (b, outcome) := StoreResult(w.b, r, w.now);
      w.(b := b, removed := w.removed + Expiring(w),
         waiters := if outcome.Accepted? then Notified(w.waiters, r.id) else w.waiters)
    case CancelQuery(id) => CancelIn(w, id)
    case _ => w
  }

  function NextWaiter(w: World, ev: Event): World {
    match ev
    case StartWait(id) =>
      if id >= |w.enqueued| then w
      else w.(waiters := w.waiters + [Waiter(id, w.now, w.now + WaitTimeout(w.enqueued[id].timeout), false, Checking)])
    case Check(i) =>
      if i >= |w.waiters| || !w.waiters[i].phase.Checking? then w
      else
        var (b, r) := PopResult(w.b, w.waiters[i].query, w.now);
        SetPhase(w.(b := b, removed := w.removed + Expiring(w), popped := if r.Some? then w.popped + [r.value] else w.popped),
                 i, if r.Some? then Returned(r) else Deciding)
    case Decide(i) =>
      if i >= |w.waiters| || !w.waiters[i].phase.Deciding? then w
      else if w.now >= w.waiters[i].deadline then GiveUp(w, i)
      else SetPhase(w, i, Blocked)
    case Wake(i) =>
      if i >= |w.waiters| || !w.waiters[i].phase.Blocked? || !w.waiters[i].token then w
      else w.(waiters := w.waiters[i := w.waiters[i].(token := false, phase := Checking)])
    case TimerFires(i) =>
      if i >= |w.waiters| || !w.waiters[i].phase.Blocked? || w.now < w.waiters[i].deadline then w
      else GiveUp(w, i)
    case ContextEnds(i) =>
      if i >= |w.waiters| || !w.waiters[i].phase.Blocked? then w
      else GiveUp(w, i)
    case _ => w
  }

  /** One step; an event that is not enabled changes nothing. */
  function Next(w: World, ev: Event): World {
    match ev
    case Tick(elapsed) => w.(now := w.now + elapsed)
    case EnqueueQuery(_, _) => NextBroker(w, ev)
    case PullQuery(_) => NextBroker(w, ev)
    case ReportResult(_) => NextBroker(w, ev)
    case CancelQuery(_) => NextBroker(w, ev)
    case _ => NextWaiter(w, ev)
  }

  function Run(w: World, events: seq<Event>): World {
    if events == [] then w else Next(Run(w, Front(events)), Last(events))
  }
}
