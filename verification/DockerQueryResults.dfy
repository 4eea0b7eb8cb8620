/** What the docker query broker promises, for every run. */
module DockerQueryResults {
  import opened Common
  import opened DockerQueryProtocol
  import opened DockerQuerySafety

  // ----- One place at a time -----

  datatype Place = Unborn | Queued | Assigned | Answered | Popped | Dropped

  ghost predicate IsQueued(w: World, id: nat) {
    exists n, k :: n in w.b.pending && 0 <= k < |w.b.pending[n]| && w.b.pending[n][k].id == id
  }

  ghost function PlaceOf(w: World, id: nat): Place {
    if id >= |w.enqueued| then Unborn
    else if id in PoppedIds(w) then Popped
    else if id in w.b.results then Answered
    else if id in w.b.assignments then Place.Assigned
    else if IsQueued(w, id) then Queued
    else Dropped
  }

  lemma QueuedIsUnpulled(w: World, id: nat)
    requires Inv(w) && IsQueued(w, id)
    ensures id < |w.enqueued| && w.enqueued[id] !in w.pulled
    ensures w.enqueued[id] in Queue(w.b, w.enqueued[id].node)
    ensures id !in w.b.assignments && id !in w.b.results && id !in PoppedIds(w)
  {
    var n, k :| n in w.b.pending && 0 <= k < |w.b.pending[n]| && w.b.pending[n][k].id == id;
    assert Fifo(w, n) && Queue(w.b, n)[k] == w.b.pending[n][k];
    QueuedFacts(w, n, k);
    UnpulledIsNowhere(w, w.b.pending[n][k]);
  }

  /** At all times an id is in at most one of the queues, the assignments, the results and the
      results already popped. */
  lemma InOnePlace(events: seq<Event>, id: nat)
    ensures var w := Run(INIT, events);
            && (IsQueued(w, id) ==> id !in w.b.assignments && id !in w.b.results && id !in PoppedIds(w))
            && (id in w.b.assignments ==> id !in w.b.results && id !in PoppedIds(w))
            && (id in w.b.results ==> id !in PoppedIds(w))
  {
    Always(events);
    var w := Run(INIT, events);
    if IsQueued(w, id) {
      QueuedIsUnpulled(w, id);
    }
  }

  // ----- The life of a query -----

  predicate MayMove(p: Place, p': Place) {
    p == p' ||
    match p
    case Unborn => p'.Queued?
    case Queued => p'.Assigned? || p'.Dropped?
    case Assigned => p'.Answered? || p'.Dropped?
    case Answered => p'.Popped? || p'.Dropped?
    case Popped => false
    case Dropped => false
  }

  predicate StaysOrDrops(p: Place, p': Place) {
    p' == p || (p'.Dropped? && !p.Popped? && !p.Unborn?)
  }

  lemma CompactionMoves(w: World, w': World, keep: Keep, id: nat)
    requires Inv(w)
    requires w'.b.pending == FilterQueues(keep, w.b.pending)
    requires w'.b.assignments.Keys <= w.b.assignments.Keys && w'.b.results.Keys <= w.b.results.Keys
    requires w'.enqueued == w.enqueued && w'.popped == w.popped
    ensures StaysOrDrops(PlaceOf(w, id), PlaceOf(w', id))
  {
    assert PoppedIds(w') == PoppedIds(w);
    if IsQueued(w', id) {
      var n, k :| n in w'.b.pending && 0 <= k < |w'.b.pending[n]| && w'.b.pending[n][k].id == id;
      assert w'.b.pending[n][k] in Filter(keep, w.b.pending[n]);
      var j :| 0 <= j < |w.b.pending[n]| && w.b.pending[n][j] == w'.b.pending[n][k];
      assert IsQueued(w, id);
      QueuedIsUnpulled(w, id);
    }
  }

  lemma SweepMoves(w: World, id: nat)
    requires Inv(w)
    ensures StaysOrDrops(PlaceOf(w, id), PlaceOf(Sweep(w), id))
  {
    CompactionMoves(w, Sweep(w), Unexpired(w.now), id);
  }

  lemma SameQueues(w: World, w': World, id: nat)
    requires w'.b.pending == w.b.pending
    ensures IsQueued(w', id) == IsQueued(w, id)
  {}

  lemma AppendMoves(s: World, q: Query, id: nat)
    requires Inv(s) && q.id == |s.enqueued|
    ensures MayMove(PlaceOf(s, id), PlaceOf(Appended(s, q), id))
  {
    var w' := Appended(s, q);
    assert PoppedIds(w') == PoppedIds(s);
    var queue := Queue(s.b, q.node) + [q];
    if id == q.id {
      assert w'.b.pending[q.node][|queue| - 1].id == id;
      assert IsQueued(w', id);
      assert id !in s.b.assignments && id !in s.b.results && id !in PoppedIds(s);
    } else if IsQueued(s, id) {
      var n, k :| n in s.b.pending && 0 <= k < |s.b.pending[n]| && s.b.pending[n][k].id == id;
      assert w'.b.pending[n][k].id == id;
    }
    if IsQueued(w', id) && id != q.id {
      AppendedWasQueued(s, q, id);
    }
  }

  lemma AppendedWasQueued(s: World, q: Query, id: nat)
    requires IsQueued(Appended(s, q), id) && id != q.id
    ensures IsQueued(s, id)
  {
    var w' := Appended(s, q);
    var n, k :| n in w'.b.pending && 0 <= k < |w'.b.pending[n]| && w'.b.pending[n][k].id == id;
    assert n in s.b.pending && s.b.pending[n][k].id == id;
  }

  lemma TakeMoves(s: World, node: string, id: nat)
    requires Inv(s) && Queue(s.b, node) != []
    ensures MayMove(PlaceOf(s, id), PlaceOf(Taken(s, node), id))
  {
    var w', queue := Taken(s, node), Queue(s.b, node);
    assert PoppedIds(w') == PoppedIds(s);
    if id == queue[0].id {
      assert s.b.pending[node][0].id == id;
      assert IsQueued(s, id);
      QueuedIsUnpulled(s, id);
    } else if IsQueued(s, id) {
      var n, k :| n in s.b.pending && 0 <= k < |s.b.pending[n]| && s.b.pending[n][k].id == id;
      if n == node {
        assert w'.b.pending[n][k - 1].id == id;
      } else {
        assert w'.b.pending[n][k].id == id;
      }
    }
    if IsQueued(w', id) {
      TakenWasQueued(s, node, id);
    }
  }

  lemma TakenWasQueued(s: World, node: string, id: nat)
    requires Queue(s.b, node) != [] && IsQueued(Taken(s, node), id)
    ensures IsQueued(s, id)
  {
    var w' := Taken(s, node);
    var n, k :| n in w'.b.pending && 0 <= k < |w'.b.pending[n]| && w'.b.pending[n][k].id == id;
    assert s.b.pending[n][if n == node then k + 1 else k].id == id;
  }

  lemma BrokerMoves(w: World, ev: Event, id: nat)
    requires Inv(w)
    ensures MayMove(PlaceOf(w, id), PlaceOf(NextBroker(w, ev), id))
  {
    hide Swept, Expiring, Inv, PlaceOf, Cancel;
    SweepKeeps(w);
    SweepMoves(w, id);
    var s, w' := Sweep(w), NextBroker(w, ev);
    match ev
    case EnqueueQuery(node, timeout) =>
      var q := Query(|w.enqueued|, node, timeout, w.now + Ttl(timeout));
      AppendMoves(s, q, id);
      assert w' == Appended(s, q);
    case PullQuery(node) =>
      if node == "" {
        assert w' == w;
      } else if Queue(s.b, node) == [] {
        assert w' == s;
      } else {
        TakeMoves(s, node, id);
        assert w' == Taken(s, node);
      }
    case ReportResult(r) => ReportMoves(w, r, id);
    case CancelQuery(k) => CancelMoves(w, k, id);
    case _ =>
  }

  lemma CancelMoves(w: World, k: nat, id: nat)
    requires Inv(w)
    ensures MayMove(PlaceOf(w, id), PlaceOf(CancelIn(w, k), id))
  {
    CompactionMoves(w, CancelIn(w, k), OtherThan(k), id);
  }

  lemma ReportMoves(w: World, r: Result, id: nat)
    requires Inv(w)
    ensures MayMove(PlaceOf(w, id), PlaceOf(NextBroker(w, ReportResult(r)), id))
  {
    hide Swept, Expiring, Notified;
    SweepKeeps(w);
    SweepMoves(w, id);
    var s, w' := Sweep(w), NextBroker(w, ReportResult(r));
    assert PoppedIds(w') == PoppedIds(s);
    SameQueues(s, w', id);
    if IsQueued(s, id) {
      QueuedIsUnpulled(s, id);
    }
  }

  lemma CheckMoves(w: World, i: nat, id: nat)
    requires Inv(w)
    ensures MayMove(PlaceOf(w, id), PlaceOf(NextWaiter(w, Check(i)), id))
  {
    if i < |w.waiters| && w.waiters[i].phase.Checking? {
      SweepKeeps(w);
      SweepMoves(w, id);
      PopMoves(w, i, id);
    }
  }

  lemma PopMoves(w: World, i: nat, id: nat)
    requires i < |w.waiters| && w.waiters[i].phase.Checking? && Inv(Sweep(w))
    requires StaysOrDrops(PlaceOf(w, id), PlaceOf(Sweep(w), id))
    ensures MayMove(PlaceOf(w, id), PlaceOf(NextWaiter(w, Check(i)), id))
  {
    hide Swept, Expiring, Fifos, Numbered, AssignmentsAgree;
    var s, w', k := Sweep(w), NextWaiter(w, Check(i)), w.waiters[i].query;
    SameQueues(s, w', id);
    if k in s.b.results {
      assert w'.popped == s.popped + [s.b.results[k].result];
      PoppedAppend(s, w', k);
    } else {
      assert PoppedIds(w') == PoppedIds(s);
    }
  }

  lemma QuietMoves(w: World, w': World, id: nat)
    requires w' == w.(now := w'.now, waiters := w'.waiters)
    ensures PlaceOf(w', id) == PlaceOf(w, id)
  {
    assert PoppedIds(w') == PoppedIds(w);
    SameQueues(w, w', id);
  }

  /** Every step moves a query along its life: queued, assigned, answered, popped, or dropped. */
  lemma LifeStep(w: World, ev: Event, id: nat)
    requires Inv(w)
    ensures MayMove(PlaceOf(w, id), PlaceOf(Next(w, ev), id))
  {
    hide Inv, PlaceOf, NextBroker, PopResult, Expiring, CancelIn;
    match ev
    case EnqueueQuery(_, _) => BrokerMoves(w, ev, id);
    case PullQuery(_) => BrokerMoves(w, ev, id);
    case ReportResult(_) => BrokerMoves(w, ev, id);
    case CancelQuery(_) => BrokerMoves(w, ev, id);
    case Check(i) => CheckMoves(w, i, id);
    case Decide(i) => LeaveMoves(w, i, ev, id);
    case TimerFires(i) => LeaveMoves(w, i, ev, id);
    case ContextEnds(i) => LeaveMoves(w, i, ev, id);
    case _ => QuietMoves(w, Next(w, ev), id);
  }

  lemma LeaveMoves(w: World, i: nat, ev: Event, id: nat)
    requires Inv(w) && (ev == Decide(i) || ev == TimerFires(i) || ev == ContextEnds(i))
    ensures MayMove(PlaceOf(w, id), PlaceOf(NextWaiter(w, ev), id))
  {
    hide Inv, PlaceOf, CancelIn;
    var w' := NextWaiter(w, ev);
    if i < |w.waiters| {
      CancelMoves(w, w.waiters[i].query, id);
      if w' == GiveUp(w, i) {
        QuietMoves(CancelIn(w, w.waiters[i].query), w', id);
      } else {
        QuietMoves(w, w', id);
      }
    }
  }

  /** A popped result is never popped again, and a dropped query never comes back. */
  lemma {:induction false} EndsOnce(before: seq<Event>, after: seq<Event>, id: nat)
    requires PlaceOf(Run(INIT, before), id).Popped? || PlaceOf(Run(INIT, before), id).Dropped?
    ensures PlaceOf(Run(INIT, before + after), id) == PlaceOf(Run(INIT, before), id)
  {
    hide Next, Inv, PlaceOf;
    if after == [] {
      assert before + after == before;
    } else {
      EndsOnce(before, Front(after), id);
      Always(before + Front(after));
      LifeStep(Run(INIT, before + Front(after)), Last(after), id);
      assert Front(before + after) == before + Front(after);
    }
  }

  // ----- Pulling -----

  lemma PullAdds(w: World, ev: Event)
    requires Inv(w) && Next(w, ev).pulled != w.pulled
    ensures ev.PullQuery? && Next(w, ev).pulled == w.pulled + [Last(Next(w, ev).pulled)]
    ensures var q := Last(Next(w, ev).pulled); q.node == ev.node && q !in w.pulled
  {
    hide Swept, Cancel, Expiring, Inv, Queue;
    SweepKeeps(w);
    if ev.PullQuery? && ev.node != "" && Queue(Sweep(w).b, ev.node) != [] {
      HeadFacts(Sweep(w), ev.node);
    }
  }

  lemma HeadFacts(w: World, node: string)
    requires Inv(w) && Queue(w.b, node) != []
    ensures Queue(w.b, node)[0].node == node && Queue(w.b, node)[0] !in w.pulled
  {
    assert Fifo(w, node);
    QueuedFacts(w, node, 0);
  }

  /** A query is handed out at most once, and only to its own node. */
  lemma PullsOwnQuery(events: seq<Event>, ev: Event)
    requires Next(Run(INIT, events), ev).pulled != Run(INIT, events).pulled
    ensures var w := Run(INIT, events); var q := Last(Next(w, ev).pulled);
            && ev == PullQuery(q.node) && Next(w, ev).pulled == w.pulled + [q] && q !in w.pulled
            && q.id < |w.enqueued| && w.enqueued[q.id] == q
  {
    hide Next, Inv, PlaceOf;
    Always(events);
    PullAdds(Run(INIT, events), ev);
    Always(events + [ev]);
    assert Front(events + [ev]) == events;
    var w, w' := Run(INIT, events), Run(INIT, events + [ev]);
    var q := Last(w'.pulled);
    PulledIsKnown(w', q);
    KeepsEnqueued(w, ev);
  }

  lemma PulledIsKnown(w: World, q: Query)
    requires Inv(w) && q in w.pulled
    ensures q.id < |w.enqueued| && w.enqueued[q.id] == q
  {
    assert Fifo(w, q.node);
    PulledFacts(w, q);
  }

  lemma KeepsEnqueued(w: World, ev: Event)
    ensures w.enqueued <= Next(w, ev).enqueued && (ev.PullQuery? ==> w.enqueued == Next(w, ev).enqueued)
  {
    hide Swept, Cancel, Expiring, Notified;
  }

  lemma {:induction false} FilterNone(keep: Keep, xs: seq<Query>)
    requires forall j :: 0 <= j < |xs| ==> !Keeps(keep, xs[j])
    ensures Filter(keep, xs) == []
  {
    if xs != [] {
      FilterNone(keep, Front(xs));
    }
  }

  lemma {:induction false} FilterHead(keep: Keep, xs: seq<Query>, k: nat)
    requires k < |xs| && Keeps(keep, xs[k]) && forall j :: 0 <= j < k ==> !Keeps(keep, xs[j])
    ensures Filter(keep, xs) != [] && Filter(keep, xs)[0] == xs[k]
  {
    if k == |xs| - 1 {
      FilterNone(keep, Front(xs));
    } else {
      FilterHead(keep, Front(xs), k);
    }
  }

  /** A pull hands out the first query in the node's queue that has not expired, and assigns it to
      that node; only when there is none does it return empty-handed. */
  lemma PullServesFirst(events: seq<Event>, node: string, k: nat)
    requires node != ""
    requires var queue, now := Queue(Run(INIT, events).b, node), Run(INIT, events).now;
             k <= |queue| && (k < |queue| ==> queue[k].expires > now) && forall j :: 0 <= j < k ==> queue[j].expires <= now
    ensures var w := Run(INIT, events); var w', queue := Next(w, PullQuery(node)), Queue(w.b, node);
            if k == |queue| then w'.pulled == w.pulled
            else w'.pulled == w.pulled + [queue[k]] && AssignedTo(w', queue[k].id, node)
  {
    var w := Run(INIT, events);
    var queue := Queue(w.b, node);
    hide Run;
    if k < |queue| {
      FilterHead(Unexpired(w.now), queue, k);
    } else {
      FilterNone(Unexpired(w.now), queue);
    }
    assert Queue(Swept(w.b, w.now), node) == Filter(Unexpired(w.now), queue);
    hide Swept, Expiring, Filter;
  }

  /** What a node has pulled and what waits for it are exactly the queries enqueued for it and
      not removed, in enqueue order: nothing is lost, repeated or reordered. */
  lemma PullsInEnqueueOrder(events: seq<Event>, node: string)
    ensures var w := Run(INIT, events);
            && ForNode(w.pulled, node) + Queue(w.b, node) == Kept(w.enqueued, node, w.removed)
            && Increasing(Kept(w.enqueued, node, w.removed))
  {
    Always(events);
    var w := Run(INIT, events);
    assert Fifo(w, node);
    EnqueuedIncreases(w);
    KeptIncreases(w.enqueued, node, w.removed);
  }

  /** A result is popped at most once, and only one that the query's own node stored after
      pulling the query. */
  lemma PopsOwnResult(events: seq<Event>)
    ensures var w := Run(INIT, events);
            && (forall i, j :: 0 <= i < j < |w.popped| ==> w.popped[i].id != w.popped[j].id)
            && (forall i :: 0 <= i < |w.popped| ==>
                  && w.popped[i].id < |w.enqueued|
                  && w.enqueued[w.popped[i].id] in w.pulled
                  && w.popped[i].node == w.enqueued[w.popped[i].id].node)
  {
    Always(events);
  }

  /** The run contains a report of exactly this result, made by the node the query was assigned
      to at that moment, before the assignment expired. */
  ghost predicate Reported(events: seq<Event>, r: Result) {
    exists k :: 0 <= k < |events| && events[k] == ReportResult(r) && AssignedTo(Run(INIT, events[..k]), r.id, r.node)
  }

  predicate AssignedTo(w: World, id: nat, node: string) {
    node != "" && id in w.b.assignments && w.b.assignments[id].node == node && w.b.assignments[id].expires > w.now
  }

  lemma ReportedLater(events: seq<Event>, ev: Event, r: Result)
    requires Reported(events, r)
    ensures Reported(events + [ev], r)
  {
    var k :| 0 <= k < |events| && events[k] == ReportResult(r) && AssignedTo(Run(INIT, events[..k]), r.id, r.node);
    assert (events + [ev])[k] == ReportResult(r) && (events + [ev])[..k] == events[..k];
  }

  /** A step adds to the results and to the popped results only what was stored before, or what
      the step itself reports for an assigned query. */
  lemma NewResults(w: World, ev: Event)
    ensures forall id :: id in Next(w, ev).b.results ==>
              (id in w.b.results && Next(w, ev).b.results[id] == w.b.results[id])
              || (ev == ReportResult(Next(w, ev).b.results[id].result)
                  && AssignedTo(w, ev.result.id, ev.result.node))
    ensures forall r :: r in Next(w, ev).popped ==>
              r in w.popped || exists id :: id in w.b.results && w.b.results[id].result == r
  {
    hide FilterQueues, Discarded, Expiring;
  }

  /** Every result that is stored or was popped is, word for word, one that the query's node
      reported while the query was assigned to it. */
  lemma {:induction false} ResultsWereReported(events: seq<Event>)
    ensures var w := Run(INIT, events);
            && (forall id :: id in w.b.results ==> Reported(events, w.b.results[id].result))
            && (forall r :: r in w.popped ==> Reported(events, r))
  {
    if events != [] {
      hide Next, Run, Reported, AssignedTo;
      var before, ev := Front(events), Last(events);
      assert events == before + [ev];
      ResultsWereReported(before);
      NewResultsReported(before, ev);
    }
  }

  lemma NewResultsReported(before: seq<Event>, ev: Event)
    requires var w := Run(INIT, before);
             && (forall id :: id in w.b.results ==> Reported(before, w.b.results[id].result))
             && (forall r :: r in w.popped ==> Reported(before, r))
    ensures var w := Run(INIT, before + [ev]);
            && (forall id :: id in w.b.results ==> Reported(before + [ev], w.b.results[id].result))
            && (forall r :: r in w.popped ==> Reported(before + [ev], r))
  {
    var events, w := before + [ev], Run(INIT, before);
    assert Front(events) == before && Run(INIT, events) == Next(w, ev);
    hide Run, Next, AssignedTo, Reported;
    NewResults(w, ev);
    forall r | Reported(before, r) ensures Reported(events, r) {
      ReportedLater(before, ev, r);
    }
    forall r | ev == ReportResult(r) && AssignedTo(w, r.id, r.node) ensures Reported(events, r) {
      ReportedNow(before, r);
    }
  }

  lemma ReportedNow(before: seq<Event>, r: Result)
    requires AssignedTo(Run(INIT, before), r.id, r.node)
    ensures Reported(before + [ReportResult(r)], r)
  {
    var events := before + [ReportResult(r)];
    assert events[|before|] == ReportResult(r) && events[..|before|] == before;
  }

  /** A report is stored, as it is, exactly when its query is assigned to the reporting node and
      the assignment has not expired; it stays for a minute beyond the query's own expiry. Any
      other report adds no result. */
  lemma ReportStoredIff(events: seq<Event>, r: Result)
    ensures var w := Run(INIT, events); var w' := Next(w, ReportResult(r));
            && (AssignedTo(w, r.id, r.node) ==>
                  && r.id < |w.enqueued| && r.id in w'.b.results && w'.b.results[r.id].result == r && r.id !in w'.b.assignments
                  && w'.b.results[r.id].expires == w.enqueued[r.id].expires + 60 * SECOND)
            && (!AssignedTo(w, r.id, r.node) ==>
                  forall id :: id in w'.b.results ==> id in w.b.results && w'.b.results[id] == w.b.results[id])
  {
    Always(events);
    hide Run, FilterQueues, Discarded, Expiring, Notified;
  }

  // ----- No lost wake-up -----

  /** A request past its check that misses a result in place has a wake-up in its channel. */
  ghost predicate Wakeful(w: World) {
    forall i :: 0 <= i < |w.waiters| ==>
      (w.waiters[i].phase.Deciding? || w.waiters[i].phase.Blocked?) && w.waiters[i].query in w.b.results ==>
        w.waiters[i].token
  }

  lemma SweptResults(w: World)
    ensures Swept(w.b, w.now).results.Keys <= w.b.results.Keys
  {}

  lemma WakefulStep(w: World, ev: Event)
    requires Wakeful(w)
    ensures Wakeful(Next(w, ev))
  {
    SweptResults(w);
    hide Swept, FilterQueues, Discarded;
  }

  lemma {:induction false} NoLostWakeUp(events: seq<Event>)
    ensures Wakeful(Run(INIT, events))
  {
    if events != [] {
      hide Next, Wakeful;
      NoLostWakeUp(Front(events));
      WakefulStep(Run(INIT, Front(events)), Last(events));
    }
  }

  /** A blocked request whose result is in place and not yet expired can always go on, and its
      next two steps return that very result. */
  lemma BlockedRequestIsServed(events: seq<Event>, i: nat)
    requires var w := Run(INIT, events);
             && i < |w.waiters| && w.waiters[i].phase.Blocked? && w.waiters[i].query in w.b.results
             && w.b.results[w.waiters[i].query].expires > w.now
    ensures var w := Run(INIT, events); var w' := Next(Next(w, Wake(i)), Check(i));
            && w.waiters[i].token
            && w'.waiters[i].phase == Returned(Some(w.b.results[w.waiters[i].query].result))
            && w'.popped == w.popped + [w.b.results[w.waiters[i].query].result]
            && w.waiters[i].query !in w'.b.results
  {
    NoLostWakeUp(events);
    hide Run, FilterQueues, Discarded;
  }

  // ----- Expiry never overtakes a request -----

  /** A query lives a minute and a half, or a minute beyond a longer timeout, and is waited for half a
      minute, or five seconds beyond a longer timeout; for every timeout it
      outlives the wait for it by at least 55 seconds, and by no more than a minute. */
  lemma TtlCoversWait(timeout: int)
    ensures Ttl(timeout) >= 90 * SECOND && Ttl(timeout) >= timeout + 60 * SECOND
    ensures Ttl(timeout) == 90 * SECOND || Ttl(timeout) == timeout + 60 * SECOND
    ensures WaitTimeout(timeout) >= 30 * SECOND && WaitTimeout(timeout) >= timeout + 5 * SECOND
    ensures WaitTimeout(timeout) == 30 * SECOND || WaitTimeout(timeout) == timeout + 5 * SECOND
    ensures 55 * SECOND <= Ttl(timeout) - WaitTimeout(timeout) <= 60 * SECOND
    ensures Ttl(timeout) - WaitTimeout(timeout) == 55 * SECOND <==> timeout >= 30 * SECOND
  {}

  ghost predicate Deadlines(w: World) {
    forall i :: 0 <= i < |w.waiters| ==>
      && w.waiters[i].query < |w.enqueued|
      && w.waiters[i].deadline == w.waiters[i].started + WaitTimeout(w.enqueued[w.waiters[i].query].timeout)
  }

  lemma DeadlinesStep(w: World, ev: Event)
    requires Deadlines(w)
    ensures Deadlines(Next(w, ev))
  {
    hide Swept, FilterQueues, Discarded, Cancel, WaitTimeout, Ttl;
  }

  lemma {:induction false} DeadlinesAlways(events: seq<Event>)
    ensures Deadlines(Run(INIT, events))
  {
    if events != [] {
      hide Next, Deadlines;
      DeadlinesAlways(Front(events));
      DeadlinesStep(Run(INIT, Front(events)), Last(events));
    }
  }

  /** A request that began to wait within 55 seconds of its query and whose deadline has not
      passed: no sweep removes its query, wherever that is. */
  lemma SweepSparesLiveRequest(events: seq<Event>, i: nat)
    requires var w := Run(INIT, events);
             && i < |w.waiters| && w.now < w.waiters[i].deadline && w.waiters[i].query < |w.born|
             && w.waiters[i].started <= w.born[w.waiters[i].query] + 55 * SECOND
    ensures var w := Run(INIT, events); var id := w.waiters[i].query;
            PlaceOf(Sweep(w), id) == PlaceOf(w, id)
  {
    var w := Run(INIT, events);
    var id := w.waiters[i].query;
    Always(events);
    DeadlinesAlways(events);
    TtlCoversWait(w.enqueued[id].timeout);
    assert w.enqueued[id].expires > w.now;
    hide Run;
    UnexpiredSurvives(w, id);
  }

  lemma UnexpiredSurvives(w: World, id: nat)
    requires Inv(w) && id < |w.enqueued| && w.enqueued[id].expires > w.now
    ensures PlaceOf(Sweep(w), id) == PlaceOf(w, id)
  {
    var s := Sweep(w);
    assert PoppedIds(s) == PoppedIds(w);
    SweepMoves(w, id);
    if IsQueued(w, id) {
      var n, k :| n in w.b.pending && 0 <= k < |w.b.pending[n]| && w.b.pending[n][k].id == id;
      assert Fifo(w, n) && Queue(w.b, n)[k] == w.b.pending[n][k];
      QueuedFacts(w, n, k);
      assert w.b.pending[n][k] in Filter(Unexpired(w.now), w.b.pending[n]);
      var j :| 0 <= j < |s.b.pending[n]| && s.b.pending[n][j] == w.b.pending[n][k];
      assert IsQueued(s, id);
    }
  }

  // ----- What a sweep and a cancellation remove -----

  predicate Expired(w: World, p: Place, id: nat)
    requires id < |w.enqueued|
  {
    match p
    case Queued => w.enqueued[id].expires <= w.now
    case Assigned => w.enqueued[id].expires <= w.now
    case Answered => w.enqueued[id].expires + 60 * SECOND <= w.now
    case _ => false
  }

  lemma CompactedQueue(w: World, w': World, keep: Keep, id: nat)
    requires Inv(w) && id < |w.enqueued| && w'.b.pending == FilterQueues(keep, w.b.pending)
    ensures IsQueued(w', id) <==> IsQueued(w, id) && Keeps(keep, w.enqueued[id])
  {
    if IsQueued(w, id) {
      var n, k :| n in w.b.pending && 0 <= k < |w.b.pending[n]| && w.b.pending[n][k].id == id;
      assert Fifo(w, n) && Queue(w.b, n)[k] == w.b.pending[n][k];
      QueuedFacts(w, n, k);
      if Keeps(keep, w.enqueued[id]) {
        assert w.b.pending[n][k] in Filter(keep, w.b.pending[n]);
        var j :| 0 <= j < |w'.b.pending[n]| && w'.b.pending[n][j] == w.b.pending[n][k];
      }
    }
    if IsQueued(w', id) {
      var n, k :| n in w'.b.pending && 0 <= k < |w'.b.pending[n]| && w'.b.pending[n][k].id == id;
      assert w'.b.pending[n][k] in Filter(keep, w.b.pending[n]);
      var j :| 0 <= j < |w.b.pending[n]| && w.b.pending[n][j] == w'.b.pending[n][k];
      assert Fifo(w, n) && Queue(w.b, n)[j] == w.b.pending[n][j];
      QueuedFacts(w, n, j);
    }
  }

  /** A sweep, which every call starts with, drops exactly what has expired: a waiting or assigned
      query at its expiry, a result a minute later. Everything else stays where it is. */
  lemma SweepDropsExpired(events: seq<Event>, id: nat)
    requires id < |Run(INIT, events).enqueued|
    ensures var w := Run(INIT, events);
            PlaceOf(Sweep(w), id) == if Expired(w, PlaceOf(w, id), id) then Dropped else PlaceOf(w, id)
  {
    Always(events);
    var w := Run(INIT, events);
    hide Run;
    assert PoppedIds(Sweep(w)) == PoppedIds(w);
    CompactedQueue(w, Sweep(w), Unexpired(w.now), id);
    if IsQueued(w, id) {
      QueuedIsUnpulled(w, id);
    }
  }

  /** A cancellation drops its query, wherever it waits, and leaves every other one in place. */
  lemma CancelDropsOne(events: seq<Event>, k: nat, id: nat)
    requires id < |Run(INIT, events).enqueued|
    ensures var w := Run(INIT, events);
            PlaceOf(Next(w, CancelQuery(k)), id) ==
              if id == k && !PlaceOf(w, id).Popped? then Dropped else PlaceOf(w, id)
  {
    Always(events);
    var w := Run(INIT, events);
    hide Run;
    var w' := CancelIn(w, k);
    assert PoppedIds(w') == PoppedIds(w);
    CompactedQueue(w, w', OtherThan(k), id);
  }
}
