/** What every run of the docker query broker keeps. */
module DockerQuerySafety {
  import opened Common
  import opened DockerQueryProtocol

  // ----- Sequences of queries -----

  function ForNode(qs: seq<Query>, node: string): (r: seq<Query>) {
    if qs == [] then []
    else if Last(qs).node == node then ForNode(Front(qs), node) + [Last(qs)]
    else ForNode(Front(qs), node)
  }

  /** The node's queries that were not removed from a queue, in enqueue order. */
  function Kept(qs: seq<Query>, node: string, removed: set<nat>): (r: seq<Query>)
    ensures forall q :: q in r <==> q in qs && q.node == node && q.id !in removed
  {
    if qs == [] then []
    else if Last(qs).node == node && Last(qs).id !in removed then Kept(Front(qs), node, removed) + [Last(qs)]
    else Kept(Front(qs), node, removed)
  }

  ghost predicate Increasing(qs: seq<Query>) {
    forall i, j :: 0 <= i < j < |qs| ==> qs[i].id < qs[j].id
  }

  lemma {:induction false} KeptIncreases(qs: seq<Query>, node: string, removed: set<nat>)
    requires Increasing(qs)
    ensures Increasing(Kept(qs, node, removed))
  {
    if qs != [] {
      KeptIncreases(Front(qs), node, removed);
      var r := Kept(Front(qs), node, removed);
      forall i | 0 <= i < |r| ensures r[i].id < Last(qs).id {
        assert r[i] in Front(qs);
      }
    }
  }

  lemma ForNodeAppend(qs: seq<Query>, q: Query, node: string)
    ensures ForNode(qs + [q], node) == if q.node == node then ForNode(qs, node) + [q] else ForNode(qs, node)
  {
    assert Front(qs + [q]) == qs;
  }

  lemma KeptAppend(qs: seq<Query>, q: Query, node: string, removed: set<nat>)
    ensures Kept(qs + [q], node, removed) ==
              if q.node == node && q.id !in removed then Kept(qs, node, removed) + [q] else Kept(qs, node, removed)
  {
    assert Front(qs + [q]) == qs;
  }

  lemma {:induction false} ForNodeMembers(qs: seq<Query>, node: string, q: Query)
    ensures q in ForNode(qs, node) <==> q in qs && q.node == node
  {
    if qs != [] {
      ForNodeMembers(Front(qs), node, q);
      assert qs == Front(qs) + [Last(qs)];
    }
  }

  /** Queries without the ids in `gone`. */
  function Without(qs: seq<Query>, gone: set<nat>): seq<Query> {
    if qs == [] then []
    else if Last(qs).id in gone then Without(Front(qs), gone)
    else Without(Front(qs), gone) + [Last(qs)]
  }

  lemma {:induction false} KeptRemovesMore(qs: seq<Query>, node: string, removed: set<nat>, gone: set<nat>)
    ensures Kept(qs, node, removed + gone) == Without(Kept(qs, node, removed), gone)
  {
    if qs != [] {
      KeptRemovesMore(Front(qs), node, removed, gone);
      var r := Kept(Front(qs), node, removed);
      assert Front(r + [Last(qs)]) == r;
    }
  }

  lemma {:induction false} WithoutConcat(xs: seq<Query>, ys: seq<Query>, gone: set<nat>)
    ensures Without(xs + ys, gone) == Without(xs, gone) + Without(ys, gone)
  {
    if ys == [] {
      assert xs + ys == xs;
    } else {
      WithoutConcat(xs, Front(ys), gone);
      assert Front(xs + ys) == xs + Front(ys);
      assert Without(xs, gone) + (Without(Front(ys), gone) + [Last(ys)])
          == (Without(xs, gone) + Without(Front(ys), gone)) + [Last(ys)];
    }
  }

  ghost predicate Untouched(xs: seq<Query>, gone: set<nat>) {
    forall i :: 0 <= i < |xs| ==> xs[i].id !in gone
  }

  lemma {:induction false} WithoutNone(xs: seq<Query>, gone: set<nat>)
    requires Untouched(xs, gone)
    ensures Without(xs, gone) == xs
  {
    if xs != [] {
      assert xs == Front(xs) + [Last(xs)];
      assert xs[|xs| - 1].id !in gone;
      assert Untouched(Front(xs), gone);
      hide Untouched;
      WithoutNone(Front(xs), gone);
    }
  }

  lemma {:induction false} FilterIsWithout(keep: Keep, xs: seq<Query>, gone: set<nat>)
    requires forall i :: 0 <= i < |xs| ==> (Keeps(keep, xs[i]) <==> xs[i].id !in gone)
    ensures Filter(keep, xs) == Without(xs, gone)
  {
    if xs != [] {
      FilterIsWithout(keep, Front(xs), gone);
      assert xs == Front(xs) + [Last(xs)];
    }
  }

  // ----- The invariant -----

  ghost predicate Numbered(w: World) {
    && |w.born| == |w.enqueued|
    && forall i :: 0 <= i < |w.enqueued| ==>
         && w.enqueued[i].id == i
         && w.born[i] <= w.now
         && w.enqueued[i].expires == w.born[i] + Ttl(w.enqueued[i].timeout)
  }

  /** The queries pulled by a node, followed by those in its queue, are the ones enqueued for
      it and not removed, in enqueue order. */
  ghost predicate Fifo(w: World, node: string) {
    ForNode(w.pulled, node) + Queue(w.b, node) == Kept(w.enqueued, node, w.removed)
  }

  ghost predicate Fifos(w: World) {
    forall node :: Fifo(w, node)
  }

  ghost predicate RemovedKnown(w: World) {
    forall id :: id in w.removed ==> id < |w.enqueued|
  }

  ghost predicate NoEmptyQueues(w: World) {
    forall n :: n in w.b.pending ==> w.b.pending[n] != []
  }

  /** `id` was enqueued and pulled, by its own node. */
  ghost predicate WasPulled(w: World, id: nat) {
    id < |w.enqueued| && w.enqueued[id] in w.pulled
  }

  ghost predicate AssignmentsAgree(w: World) {
    forall id :: id in w.b.assignments ==>
      && WasPulled(w, id)
      && w.b.assignments[id] == Assigned(w.enqueued[id].node, w.enqueued[id].expires)
  }

  ghost predicate ResultsAgree(w: World) {
    forall id :: id in w.b.results ==>
      && WasPulled(w, id)
      && w.b.results[id].result.id == id && w.b.results[id].result.node == w.enqueued[id].node
      && w.b.results[id].expires == w.enqueued[id].expires + CLEANUP_GRACE
  }

  ghost predicate PoppedAgree(w: World) {
    && (forall i :: 0 <= i < |w.popped| ==>
          && WasPulled(w, w.popped[i].id)
          && w.popped[i].node == w.enqueued[w.popped[i].id].node)
    && (forall i, j :: 0 <= i < j < |w.popped| ==> w.popped[i].id != w.popped[j].id)
  }

  ghost function PoppedIds(w: World): set<nat> {
    set i | 0 <= i < |w.popped| :: w.popped[i].id
  }

  ghost predicate OnePlace(w: World) {
    && w.b.assignments.Keys !! w.b.results.Keys
    && w.b.assignments.Keys !! PoppedIds(w)
    && w.b.results.Keys !! PoppedIds(w)
  }

  ghost predicate Inv(w: World) {
    && Numbered(w) && Fifos(w) && RemovedKnown(w) && NoEmptyQueues(w)
    && AssignmentsAgree(w) && ResultsAgree(w) && PoppedAgree(w) && OnePlace(w)
  }

  // ----- Consequences of the order -----

  lemma EnqueuedIncreases(w: World)
    requires Numbered(w)
    ensures Increasing(w.enqueued)
  {}

  /** A queued query is one that was enqueued for that node and was never pulled. */
  lemma QueuedFacts(w: World, node: string, k: nat)
    requires Numbered(w) && Fifo(w, node) && k < |Queue(w.b, node)|
    ensures var q := Queue(w.b, node)[k];
            && q.node == node && q.id < |w.enqueued| && w.enqueued[q.id] == q && q !in w.pulled
  {
    var q := Queue(w.b, node)[k];
    var before := ForNode(w.pulled, node);
    var all := before + Queue(w.b, node);
    assert all[|before| + k] == q;
    assert q in Kept(w.enqueued, node, w.removed);
    EnqueuedIncreases(w);
    KeptIncreases(w.enqueued, node, w.removed);
    ForNodeMembers(w.pulled, node, q);
    forall i | 0 <= i < |before| ensures before[i] != q {
      assert all[i].id < all[|before| + k].id;
    }
  }

  lemma PulledFacts(w: World, q: Query)
    requires Numbered(w) && Fifo(w, q.node) && q in w.pulled
    ensures q.id < |w.enqueued| && w.enqueued[q.id] == q && q.id !in w.removed
  {
    ForNodeMembers(w.pulled, q.node, q);
    assert q in ForNode(w.pulled, q.node) + Queue(w.b, q.node);
  }

  // ----- Compaction and sweeping -----

  function Sweep(w: World): World {
    w.(b := Swept(w.b, w.now), removed := w.removed + Expiring(w))
  }

  lemma QueueFiltered(b: Broker, keep: Keep, node: string)
    requires forall n :: n in b.pending ==> b.pending[n] != []
    ensures Queue(b.(pending := FilterQueues(keep, b.pending)), node) == Filter(keep, Queue(b, node))
  {}

  /** Exactly the queries with discarded ids are filtered out. */
  lemma DiscardedIsFiltered(w: World, keep: Keep, node: string, k: nat)
    requires Numbered(w) && Fifos(w) && k < |Queue(w.b, node)|
    ensures Keeps(keep, Queue(w.b, node)[k]) <==> Queue(w.b, node)[k].id !in Discarded(keep, w.b.pending)
  {
    var q := Queue(w.b, node)[k];
    assert Fifo(w, node);
    QueuedFacts(w, node, k);
    if q.id in Discarded(keep, w.b.pending) {
      var n, i :| n in w.b.pending && 0 <= i < |w.b.pending[n]| && !Keeps(keep, w.b.pending[n][i]) && w.b.pending[n][i].id == q.id;
      assert Fifo(w, n) && Queue(w.b, n)[i] == w.b.pending[n][i];
      QueuedFacts(w, n, i);
    }
  }

  lemma PulledIsNotDiscarded(w: World, keep: Keep, node: string, k: nat)
    requires Numbered(w) && Fifos(w) && k < |ForNode(w.pulled, node)|
    ensures ForNode(w.pulled, node)[k].id !in Discarded(keep, w.b.pending)
  {
    var q := ForNode(w.pulled, node)[k];
    ForNodeMembers(w.pulled, node, q);
    assert Fifo(w, node);
    PulledFacts(w, q);
    if q.id in Discarded(keep, w.b.pending) {
      var n, i :| n in w.b.pending && 0 <= i < |w.b.pending[n]| && !Keeps(keep, w.b.pending[n][i]) && w.b.pending[n][i].id == q.id;
      assert Fifo(w, n) && Queue(w.b, n)[i] == w.b.pending[n][i];
      QueuedFacts(w, n, i);
    }
  }

  lemma CompactionKeepsOrder(w: World, w': World, keep: Keep, node: string)
    requires Numbered(w) && Fifos(w) && NoEmptyQueues(w)
    requires w'.b.pending == FilterQueues(keep, w.b.pending)
    requires w'.enqueued == w.enqueued && w'.pulled == w.pulled
    requires w'.removed == w.removed + Discarded(keep, w.b.pending)
    ensures Fifo(w', node)
  {
    var gone := Discarded(keep, w.b.pending);
    var before, queue := ForNode(w.pulled, node), Queue(w.b, node);
    QueueFiltered(w.b, keep, node);
    forall k | 0 <= k < |queue| ensures Keeps(keep, queue[k]) <==> queue[k].id !in gone {
      DiscardedIsFiltered(w, keep, node, k);
    }
    FilterIsWithout(keep, queue, gone);
    forall k | 0 <= k < |before| ensures before[k].id !in gone {
      PulledIsNotDiscarded(w, keep, node, k);
    }
    WithoutNone(before, gone);
    assert Fifo(w, node);
    KeptRemovesMore(w.enqueued, node, w.removed, gone);
    WithoutConcat(before, queue, gone);
  }

  lemma DiscardedKnown(w: World, keep: Keep)
    requires Numbered(w) && Fifos(w)
    ensures forall id :: id in Discarded(keep, w.b.pending) ==> id < |w.enqueued|
  {
    forall id | id in Discarded(keep, w.b.pending) ensures id < |w.enqueued| {
      var n, i :| n in w.b.pending && 0 <= i < |w.b.pending[n]| && !Keeps(keep, w.b.pending[n][i]) && w.b.pending[n][i].id == id;
      assert Fifo(w, n) && Queue(w.b, n)[i] == w.b.pending[n][i];
      QueuedFacts(w, n, i);
    }
  }

  lemma SweepKeeps(w: World)
    requires Inv(w)
    ensures Inv(Sweep(w))
  {
    var w' := Sweep(w);
    DiscardedKnown(w, Unexpired(w.now));
    assert NoEmptyQueues(w') && PoppedIds(w') == PoppedIds(w);
    forall node ensures Fifo(w', node) {
      CompactionKeepsOrder(w, w', Unexpired(w.now), node);
    }
  }

  lemma CancelKeeps(w: World, id: nat)
    requires Inv(w)
    ensures Inv(CancelIn(w, id))
  {
    var w' := CancelIn(w, id);
    DiscardedKnown(w, OtherThan(id));
    assert NoEmptyQueues(w') && PoppedIds(w') == PoppedIds(w);
    forall node ensures Fifo(w', node) {
      CompactionKeepsOrder(w, w', OtherThan(id), node);
    }
  }

  // ----- The steps -----

  lemma EnqueueStep(w: World, node: string, timeout: int)
    requires Inv(w)
    ensures Inv(NextBroker(w, EnqueueQuery(node, timeout)))
  {
    hide Swept, Expiring, Inv;
    SweepKeeps(w);
    var q := Query(|w.enqueued|, node, timeout, w.now + Ttl(timeout));
    AppendKeeps(Sweep(w), q);
    assert NextBroker(w, EnqueueQuery(node, timeout)) == Appended(Sweep(w), q);
  }

  /** The world after `q` joined its node's queue. */
  function Appended(s: World, q: Query): World {
    s.(b := s.b.(pending := s.b.pending[q.node := Queue(s.b, q.node) + [q]]),
       enqueued := s.enqueued + [q], born := s.born + [s.now])
  }

  lemma AppendKeepsOrder(s: World, q: Query, n: string)
    requires Fifo(s, n) && RemovedKnown(s) && q.id == |s.enqueued|
    ensures Fifo(Appended(s, q), n)
  {
    hide ForNode, Kept;
    KeptAppend(s.enqueued, q, n, s.removed);
    assert Queue(Appended(s, q).b, n) == if n == q.node then Queue(s.b, n) + [q] else Queue(s.b, n);
    assert ForNode(s.pulled, n) + (Queue(s.b, n) + [q]) == (ForNode(s.pulled, n) + Queue(s.b, n)) + [q];
  }

  lemma AppendKeeps(s: World, q: Query)
    requires Inv(s) && q.id == |s.enqueued| && q.expires == s.now + Ttl(q.timeout)
    ensures Inv(Appended(s, q))
  {
    var w' := Appended(s, q);
    assert PoppedIds(w') == PoppedIds(s);
    forall n ensures Fifo(w', n) {
      assert Fifo(s, n);
      AppendKeepsOrder(s, q, n);
    }
    hide Ttl, OnePlace, Fifo, PoppedIds;
    assert forall id: nat :: WasPulled(s, id) ==> WasPulled(w', id) && w'.enqueued[id] == s.enqueued[id];
  }

  lemma PullStep(w: World, node: string)
    requires Inv(w)
    ensures Inv(NextBroker(w, PullQuery(node)))
  {
    hide Swept, Expiring, Inv;
    SweepKeeps(w);
    if node != "" && Queue(Sweep(w).b, node) != [] {
      TakeKeeps(Sweep(w), node);
    }
    assert w.(removed := w.removed, pulled := w.pulled, b := w.b) == w;
  }

  /** The world after the head of the node's queue was assigned. */
  function Taken(s: World, node: string): World
    requires Queue(s.b, node) != []
  {
    var queue := Queue(s.b, node);
    s.(b := s.b.(pending := if |queue| == 1 then s.b.pending - {node} else s.b.pending[node := queue[1..]],
                 assignments := s.b.assignments[queue[0].id := Assigned(node, queue[0].expires)]),
       pulled := s.pulled + [queue[0]])
  }

  lemma TakeKeeps(s: World, node: string)
    requires Inv(s) && Queue(s.b, node) != []
    ensures Inv(Taken(s, node))
  {
    var w', q := Taken(s, node), Queue(s.b, node)[0];
    assert Fifo(s, node);
    QueuedFacts(s, node, 0);
    UnpulledIsNowhere(s, q);
    forall n ensures Fifo(w', n) {
      TakeKeepsOrder(s, node, n);
    }
    assert NoEmptyQueues(w');
    hide Fifo, Numbered, NoEmptyQueues, AssignmentsAgree, ResultsAgree, PoppedAgree, OnePlace;
    AssignKeepsPlaces(s, w', q);
  }

  lemma AssignKeepsPlaces(s: World, w': World, q: Query)
    requires AssignmentsAgree(s) && ResultsAgree(s) && PoppedAgree(s) && OnePlace(s)
    requires q.id < |s.enqueued| && s.enqueued[q.id] == q
    requires q.id !in s.b.results && q.id !in PoppedIds(s)
    requires w'.enqueued == s.enqueued && w'.popped == s.popped && w'.pulled == s.pulled + [q]
    requires w'.b.results == s.b.results
    requires w'.b.assignments == s.b.assignments[q.id := Assigned(q.node, q.expires)]
    ensures AssignmentsAgree(w') && ResultsAgree(w') && PoppedAgree(w') && OnePlace(w')
  {
    assert PoppedIds(w') == PoppedIds(s);
    assert forall id: nat :: WasPulled(s, id) ==> WasPulled(w', id);
    assert WasPulled(w', q.id);
    hide WasPulled, PoppedIds;
  }

  lemma TakeKeepsOrder(s: World, node: string, n: string)
    requires Numbered(s) && Fifos(s) && Queue(s.b, node) != []
    ensures Fifo(Taken(s, node), n)
  {
    var queue := Queue(s.b, node);
    assert Fifo(s, n) && Fifo(s, node);
    QueuedFacts(s, node, 0);
    hide Numbered, Fifos, ForNode, Kept;
    ForNodeAppend(s.pulled, queue[0], n);
    TakenQueue(s, node, n);
    hide Taken, Queue;
    MoveHead(ForNode(s.pulled, node), queue);
    assert Taken(s, node).pulled == s.pulled + [queue[0]] && Taken(s, node).enqueued == s.enqueued
        && Taken(s, node).removed == s.removed by { TakenHistory(s, node); }
  }

  lemma TakenQueue(s: World, node: string, n: string)
    requires Queue(s.b, node) != []
    ensures Queue(Taken(s, node).b, n) == if n == node then Queue(s.b, node)[1..] else Queue(s.b, n)
  {}

  lemma TakenHistory(s: World, node: string)
    requires Queue(s.b, node) != []
    ensures Taken(s, node).pulled == s.pulled + [Queue(s.b, node)[0]]
    ensures Taken(s, node).enqueued == s.enqueued && Taken(s, node).removed == s.removed
  {}

  lemma MoveHead<T>(xs: seq<T>, queue: seq<T>)
    requires queue != []
    ensures xs + queue == (xs + [queue[0]]) + queue[1..]
  {}

  /** A query that is still to be pulled has no assignment, no result and was not popped. */
  lemma UnpulledIsNowhere(w: World, q: Query)
    requires Inv(w) && q.id < |w.enqueued| && w.enqueued[q.id] == q && q !in w.pulled
    ensures q.id !in w.b.assignments && q.id !in w.b.results && q.id !in PoppedIds(w)
  {
    assert !WasPulled(w, q.id);
  }

  lemma ReportStep(w: World, r: Result)
    requires Inv(w)
    ensures Inv(NextBroker(w, ReportResult(r)))
  {
    hide Swept, Expiring, Inv, Notified;
    SweepKeeps(w);
    var s, w' := Sweep(w), NextBroker(w, ReportResult(r));
    QuietKeeps(s, s.(waiters := w'.waiters));
    if r.id in s.b.assignments && s.b.assignments[r.id].node == r.node {
      AnswerKeeps(s.(waiters := w'.waiters), r);
    }
  }

  lemma AnswerKeeps(s: World, r: Result)
    requires Inv(s) && r.id in s.b.assignments && s.b.assignments[r.id].node == r.node
    ensures Inv(s.(b := s.b.(assignments := s.b.assignments - {r.id},
                             results := s.b.results[r.id := Stored(r, s.b.assignments[r.id].expires + CLEANUP_GRACE)])))
  {
    var w' := s.(b := s.b.(assignments := s.b.assignments - {r.id},
                           results := s.b.results[r.id := Stored(r, s.b.assignments[r.id].expires + CLEANUP_GRACE)]));
    assert PoppedIds(w') == PoppedIds(s);
    forall n ensures Fifo(w', n) {
      assert Fifo(s, n);
    }
    hide Fifo, Numbered;
    assert forall id: nat :: WasPulled(w', id) <==> WasPulled(s, id);
  }

  lemma CheckStep(w: World, i: nat)
    requires Inv(w)
    ensures Inv(NextWaiter(w, Check(i)))
  {
    hide Swept, Expiring, Inv;
    SweepKeeps(w);
    if i < |w.waiters| && w.waiters[i].phase.Checking? {
      var s, w', id := Sweep(w), NextWaiter(w, Check(i)), w.waiters[i].query;
      QuietKeeps(s, s.(waiters := w'.waiters));
      if id in s.b.results {
        PopKeeps(s.(waiters := w'.waiters), id);
      }
    }
  }

  lemma PopKeeps(s: World, id: nat)
    requires Inv(s) && id in s.b.results
    ensures Inv(s.(b := s.b.(results := s.b.results - {id}), popped := s.popped + [s.b.results[id].result]))
  {
    var w' := s.(b := s.b.(results := s.b.results - {id}), popped := s.popped + [s.b.results[id].result]);
    PoppedAppend(s, w', id);
    forall n ensures Fifo(w', n) {
      assert Fifo(s, n);
    }
    hide Fifo, Numbered;
    assert forall k: nat :: WasPulled(w', k) <==> WasPulled(s, k);
    forall k | 0 <= k < |s.popped| ensures s.popped[k].id != id {
      assert s.popped[k].id in PoppedIds(s);
    }
  }

  lemma PoppedAppend(w: World, w': World, id: nat)
    requires exists r: Result :: r.id == id && w'.popped == w.popped + [r]
    ensures PoppedIds(w') == PoppedIds(w) + {id}
  {
    assert w'.popped[|w.popped|].id == id;
    forall k | k in PoppedIds(w) ensures k in PoppedIds(w') {
      var i :| 0 <= i < |w.popped| && w.popped[i].id == k;
      assert w'.popped[i].id == k;
    }
  }

  /** Steps that touch only the waiters or the clock. */
  lemma QuietKeeps(w: World, w': World)
    requires Inv(w) && w' == w.(now := w'.now, waiters := w'.waiters) && w.now <= w'.now
    ensures Inv(w')
  {
    assert PoppedIds(w') == PoppedIds(w);
    forall n ensures Fifo(w', n) {
      assert Fifo(w, n);
    }
  }

  lemma Step(w: World, ev: Event)
    requires Inv(w)
    ensures Inv(Next(w, ev))
  {
    hide Inv, Swept, Cancel, PopResult, Expiring, Notified;
    match ev
    case EnqueueQuery(node, timeout) => EnqueueStep(w, node, timeout);
    case PullQuery(node) => PullStep(w, node);
    case ReportResult(r) => ReportStep(w, r);
    case CancelQuery(id) => CancelKeeps(w, id);
    case Check(i) => CheckStep(w, i);
    case Tick(_) => QuietKeeps(w, Next(w, ev));
    case StartWait(_) => QuietKeeps(w, Next(w, ev));
    case Wake(_) => QuietKeeps(w, Next(w, ev));
    case Decide(i) => LeaveStep(w, i, ev);
    case TimerFires(i) => LeaveStep(w, i, ev);
    case ContextEnds(i) => LeaveStep(w, i, ev);
  }

  lemma LeaveStep(w: World, i: nat, ev: Event)
    requires Inv(w) && (ev == Decide(i) || ev == TimerFires(i) || ev == ContextEnds(i))
    ensures Inv(NextWaiter(w, ev))
  {
    hide Inv, CancelIn;
    var w' := NextWaiter(w, ev);
    if i < |w.waiters| {
      var c := CancelIn(w, w.waiters[i].query);
      CancelKeeps(w, w.waiters[i].query);
      CancelTime(w, w.waiters[i].query);
      if w' == GiveUp(w, i) {
        QuietKeeps(c, w');
      } else {
        QuietKeeps(w, w');
      }
    }
  }

  lemma CancelTime(w: World, id: nat)
    ensures CancelIn(w, id).now == w.now
  {}

  lemma {:induction false} Always(events: seq<Event>)
    ensures Inv(Run(INIT, events))
  {
    if events == [] {
      assert PoppedIds(INIT) == {};
      assert forall n :: Fifo(INIT, n);
    } else {
      hide Next, Inv;
      Always(Front(events));
      Step(Run(INIT, Front(events)), Last(events));
    }
  }
}
