/** Lost confirmations and given-up uploads in one run: what the log still keeps, and exactly when
    its order survives. */
module TaskLogGroups {
  import opened Common
  import opened TaskLogProtocol
  import opened TaskLogSafety

  // ----- The groups -----

  /** `upload` was sent under number `k`: up to the reported one it is that one or one given up,
      beyond it is pending or given up, and it comes after whatever was reported before. */
  ghost predicate Carries(s: System, k: nat, upload: nat) {
    && 1 <= k <= |s.acked| + 1
    && (k <= |s.acked| ==> upload <= s.acked[k - 1] && (upload == s.acked[k - 1] || upload in s.abandoned))
    && (k == |s.acked| + 1 ==> upload in s.abandoned || upload in PendingUploads(s))
    && (k > 1 ==> upload > s.acked[k - 2])
  }

  ghost predicate NonDecreasing(xs: seq<nat>) {
    forall i, j :: 0 <= i < j < |xs| ==> xs[i] <= xs[j]
  }

  /** The log falls into groups, one for each number up to the confirmed one and possibly one more;
      every entry of a group is an upload that was sent under its number. */
  ghost predicate Grouped(s: System) {
    && Base(s) && Accounted(s) && StrictlyIncreasing(s.acked)
    && |s.slots| == |s.acc.log| == s.acc.stored + s.lostConfirms
    && NonDecreasing(s.slots)
    && (forall j :: 0 <= j < |s.slots| ==> Carries(s, s.slots[j], s.acc.log[j]) && s.slots[j] <= s.acc.stored + 1)
    && (forall k :: 1 <= k <= s.acc.stored ==> k in s.slots)
    && (s.slots != [] && Last(s.slots) > s.acc.stored ==> s.lostConfirms > 0)
    && (forall e :: e in s.late ==> Carries(s, e.number, e.upload))
    && (s.up.pending != [] ==> Carries(s, s.up.lastConfirmedSeq + 1, s.up.pending[0].upload))
  }

  // ----- Each step keeps them -----

  /** What handling a message does to the log, the confirmation and the history. */
  ghost predicate Appends(a: AcceptorState, e: Entry, w: Write) {
    var a' := Accept(a, e, w).0;
    && e.number == a.stored + 1 && a'.log == a.log + [e.upload] && SlotOf(a, e, w) == [e.number]
    && a'.stored + LostConfirm(a, e, w) == a.stored + 1
  }

  lemma AppendsOrNot(a: AcceptorState, e: Entry, w: Write)
    requires a.cached.Some? ==> a.cached.value == a.stored
    ensures var a' := Accept(a, e, w).0;
            Appends(a, e, w) ||
            (a'.log == a.log && a'.stored == a.stored && SlotOf(a, e, w) == [] && LostConfirm(a, e, w) == 0)
  {}

  /** Handling any message that was ever sent. */
  lemma GroupedAccept(s: System, s': System, e: Entry, w: Write)
    requires Grouped(s) && Carries(s, e.number, e.upload) && Base(s')
    requires s'.acc == Accept(s.acc, e, w).0 && s'.lostConfirms == s.lostConfirms + LostConfirm(s.acc, e, w)
    requires s'.slots == s.slots + SlotOf(s.acc, e, w)
    requires s'.up == s.up && s'.acked == s.acked && s'.abandoned == s.abandoned && s'.issued == s.issued
    requires s'.late == s.late
    ensures Grouped(s')
  {
    BaseCache(s);
    AppendsOrNot(s.acc, e, w);
    SameCarries(s, s');
    SameAccounts(s, s');
    hide Carries, Base, Accept, LostConfirm, SlotOf, Accounted, StrictlyIncreasing, Grouped;
    if Appends(s.acc, e, w) {
      GroupedAppend(s, s', e);
    } else {
      LateCarries(s);
      GroupedElsewhere(s, s');
    }
  }

  lemma LateCarries(s: System)
    requires Grouped(s)
    ensures Accounted(s) && StrictlyIncreasing(s.acked)
    ensures forall e :: e in s.late ==> Carries(s, e.number, e.upload)
    ensures s.up.pending != [] ==> Carries(s, s.up.lastConfirmedSeq + 1, s.up.pending[0].upload)
  {}

  lemma GroupedAppend(s: System, s': System, e: Entry)
    requires Grouped(s) && Carries(s, e.number, e.upload) && Base(s') && Accounted(s')
    requires forall k, u :: Carries(s', k, u) == Carries(s, k, u)
    requires e.number == s.acc.stored + 1 && s'.acc.log == s.acc.log + [e.upload] && s'.slots == s.slots + [e.number]
    requires s'.acc.stored + s'.lostConfirms == s.acc.stored + s.lostConfirms + 1 && s'.lostConfirms in {s.lostConfirms, s.lostConfirms + 1}
    requires s'.up == s.up && s'.acked == s.acked && s'.late == s.late
    ensures Grouped(s')
  {
    hide Carries, Base, Accounted, StrictlyIncreasing, NonDecreasing;
    MoreSlots(s.slots, e.number, s.acc.stored, s'.acc.stored);
    forall j | 0 <= j < |s'.slots|
      ensures Carries(s', s'.slots[j], s'.acc.log[j]) && s'.slots[j] <= s'.acc.stored + 1
    {
      assert j < |s.slots| ==> s'.slots[j] == s.slots[j] && s'.acc.log[j] == s.acc.log[j];
    }
  }

  lemma MoreSlots(slots: seq<nat>, number: nat, stored: nat, stored': nat)
    requires NonDecreasing(slots) && number == stored + 1 && stored <= stored' <= number
    requires forall j :: 0 <= j < |slots| ==> slots[j] <= stored + 1
    requires forall k :: 1 <= k <= stored ==> k in slots
    ensures NonDecreasing(slots + [number])
    ensures forall k :: 1 <= k <= stored' ==> k in slots + [number]
    ensures Last(slots + [number]) == number
  {}

  lemma SameCarries(s: System, s': System)
    requires s'.up == s.up && s'.acked == s.acked && s'.abandoned == s.abandoned
    ensures forall k, u :: Carries(s', k, u) == Carries(s, k, u)
  {}

  lemma SameAccounts(s: System, s': System)
    requires s'.up == s.up && s'.acked == s.acked && s'.abandoned == s.abandoned && s'.issued == s.issued
    ensures Accounted(s') == Accounted(s)
  {}

  lemma BaseCache(s: System)
    requires Base(s)
    ensures s.acc.cached.Some? ==> s.acc.cached.value == s.acc.stored
  {}

  lemma GroupedServe(s: System, ev: Event)
    requires Grouped(s) && (ev.ServeWire? || ev.ServeLate?)
    ensures Grouped(Next(s, ev))
  {
    BaseStep(s, ev);
    if ev.ServeWire? && s.wire.Some? {
      assert s.up.pending == [s.wire.value] && s.wire.value.number == s.up.lastConfirmedSeq + 1;
      GroupedAccept(s, Next(s, ev), s.wire.value, ev.write);
    } else if ev.ServeLate? && ev.entry in s.late {
      GroupedAccept(s, Next(s, ev), ev.entry, ev.write);
    }
  }

  /** What a step that handles no message has to bring. */
  lemma GroupedElsewhere(s: System, s': System)
    requires Grouped(s) && Base(s') && Accounted(s') && StrictlyIncreasing(s'.acked)
    requires s'.slots == s.slots && s'.lostConfirms == s.lostConfirms
    requires s'.acc == s.acc.(cached := s'.acc.cached)
    requires forall k, u :: Carries(s, k, u) ==> Carries(s', k, u)
    requires forall e :: e in s'.late ==> Carries(s', e.number, e.upload)
    requires s'.up.pending != [] ==> Carries(s', s'.up.lastConfirmedSeq + 1, s'.up.pending[0].upload)
    ensures Grouped(s')
  {
    hide Carries, Base, Accounted;
  }

  lemma GroupedReceive(s: System)
    requires Grouped(s) && s.reply.Some?
    ensures Grouped(Next(s, ReceiveReply))
  {
    var s' := Next(s, ReceiveReply);
    BaseStep(s, ReceiveReply);
    ReplyConfirmsPending(s);
    PendingUploadsOfOne(s);
    PendingUploadsOfOne(s');
    forall k, u | Carries(s, k, u) ensures Carries(s', k, u) {}
    GroupedElsewhere(s, s');
  }

  lemma GroupedClose(s: System, ev: Event)
    requires Grouped(s) && (ev.Reconnect? || ev.AbandonUpload?)
    ensures Grouped(Next(s, ev))
  {
    var s' := Next(s, ev);
    BaseStep(s, ev);
    PendingUploadsOfOne(s);
    PendingUploadsOfOne(s');
    assert s'.acked == s.acked && s.abandoned <= s'.abandoned;
    assert PendingUploads(s) <= PendingUploads(s') + s'.abandoned;
    forall k, u | Carries(s, k, u) ensures Carries(s', k, u) {}
    assert Accounted(s') by { hide Carries; }
    forall e | e in s'.late ensures Carries(s', e.number, e.upload) {
      if e !in s.late {
        assert s.up.pending == [e] && e.number == s.up.lastConfirmedSeq + 1;
      }
    }
    hide Next, Accounted, Carries;
    GroupedElsewhere(s, s');
  }

  lemma GroupedBegin(s: System)
    requires Grouped(s) && !s.active
    ensures Grouped(Next(s, BeginUpload))
  {
    var s' := Next(s, BeginUpload);
    BaseStep(s, BeginUpload);
    PendingUploadsOfOne(s);
    PendingUploadsOfOne(s');
    assert s.acked != [] ==> Last(s.acked) in s.acked;
    forall k, u | Carries(s, k, u) ensures Carries(s', k, u) {}
    GroupedElsewhere(s, s');
  }

  lemma GroupedStep(s: System, ev: Event)
    requires Grouped(s) && !ev.RollBack?
    ensures Grouped(Next(s, ev))
  {
    hide Grouped;
    if ev.ServeWire? || ev.ServeLate? {
      GroupedServe(s, ev);
    } else if ev.ReceiveReply? && s.reply.Some? {
      GroupedReceive(s);
    } else if ev.Reconnect? || ev.AbandonUpload? {
      GroupedClose(s, ev);
    } else if ev.BeginUpload? && !s.active {
      GroupedBegin(s);
    } else {
      GroupedQuiet(s, ev);
    }
  }

  lemma GroupedQuiet(s: System, ev: Event)
    requires Grouped(s) && (ev.SendHead? || ev.FinishUpload? || ev.ForgetCache? || Next(s, ev) == s)
    ensures Grouped(Next(s, ev))
  {
    if ev.SendHead? || ev.FinishUpload? || ev.ForgetCache? {
      BaseStep(s, ev);
      SameCarries(s, Next(s, ev));
      SameAccounts(s, Next(s, ev));
      hide Base, Accounted, Carries;
      GroupedElsewhere(s, Next(s, ev));
    }
  }

  lemma {:induction false} GroupedAlways(events: seq<Event>)
    requires NoRollBack(events)
    ensures Grouped(Run(INIT, events))
  {
    if events != [] {
      hide Next, Grouped;
      GroupedAlways(Front(events));
      GroupedStep(Run(INIT, Front(events)), Last(events));
    }
  }

  // ----- What the log keeps -----

  /** Uploads of different numbers stand in the order in which they were made. */
  lemma GroupsAreOrdered(s: System, i: nat, j: nat)
    requires Grouped(s) && i < |s.slots| && j < |s.slots| && s.slots[i] < s.slots[j]
    ensures s.acc.log[i] < s.acc.log[j]
  {
    LowerGroupIsEarlier(s, s.slots[i], s.acc.log[i], s.slots[j], s.acc.log[j]);
  }

  /** Whatever is lost, late, reset or given up, in any combination: every confirmed number has a
      group of entries in the log, the groups stand in the order of their numbers, the entries of
      a group are uploads that carried its number, those of a later group were made later, and
      there is one entry more than numbers for each lost confirmation. */
  lemma LogIsGrouped(events: seq<Event>)
    requires NoRollBack(events)
    ensures var s := Run(INIT, events); var c := Confirmed(s.acc);
            && |s.slots| == |s.acc.log| == c + s.lostConfirms
            && NonDecreasing(s.slots)
            && (forall k :: 1 <= k <= c ==> k in s.slots)
            && (forall j :: 0 <= j < |s.slots| ==> s.slots[j] <= c + 1 && Carries(s, s.slots[j], s.acc.log[j]))
            && (forall i, j :: 0 <= i < |s.slots| && 0 <= j < |s.slots| && s.slots[i] < s.slots[j] ==>
                  s.acc.log[i] < s.acc.log[j])
  {
    GroupedAlways(events);
    var s := Run(INIT, events);
    hide Run, Carries;
    forall i, j | 0 <= i < |s.slots| && 0 <= j < |s.slots| && s.slots[i] < s.slots[j]
      ensures s.acc.log[i] < s.acc.log[j]
    {
      GroupsAreOrdered(s, i, j);
    }
  }

  // ----- Exactly when the order survives -----

  /** Handling `ev` appends a late message of an upload made before the last one in the log. */
  predicate Overtaken(s: System, ev: Event) {
    ev.ServeLate? && ev.entry in s.late && SlotOf(s.acc, ev.entry, ev.write) != []
    && s.acc.log != [] && ev.entry.upload < Last(s.acc.log)
  }

  /** That takes both faults: the late upload was given up, and under the same number a later one
      had been appended without its confirmation. */
  lemma OvertakenNeedsBoth(s: System, ev: Event)
    requires Grouped(s) && Overtaken(s, ev)
    ensures ev.entry.upload in s.abandoned && s.lostConfirms > 0 && Last(s.slots) == ev.entry.number
  {
    var j := |s.slots| - 1;
    BaseCache(s);
    assert Carries(s, s.slots[j], s.acc.log[j]) && Carries(s, ev.entry.number, ev.entry.upload);
    assert ev.entry.number == s.acc.stored + 1;
    PendingUploadsOfOne(s);
    LoggedWasIssued(s, j);
  }

  lemma LowerGroupIsEarlier(s: System, k: nat, u: nat, l: nat, v: nat)
    requires StrictlyIncreasing(s.acked) && Carries(s, k, u) && Carries(s, l, v) && k < l
    ensures u < v
  {
    assert s.acked[k - 1] <= s.acked[l - 2];
  }

  lemma LoggedWasIssued(s: System, j: nat)
    requires Grouped(s) && j < |s.slots|
    ensures s.acc.log[j] < s.issued
  {
    assert Carries(s, s.slots[j], s.acc.log[j]);
    PendingUploadsOfOne(s);
    if s.slots[j] <= |s.acked| {
      assert s.acked[s.slots[j] - 1] in s.acked;
    }
  }

  /** A step leaves the log alone, or appends an upload that is not older than the last one unless
      it overtakes. */
  lemma AppendedUpload(s: System, ev: Event)
    requires Grouped(s) && !ev.RollBack?
    ensures var log, log' := s.acc.log, Next(s, ev).acc.log;
            (log' == log && !Overtaken(s, ev)) ||
            (|log'| == |log| + 1 && log' == log + [Last(log')]
             && (Overtaken(s, ev) <==> log != [] && Last(log') < Last(log)))
  {
    BaseCache(s);
    if ev.ServeWire? && s.wire.Some? {
      AppendsOrNot(s.acc, s.wire.value, ev.write);
      if s.acc.log != [] {
        LoggedWasIssued(s, |s.acc.log| - 1);
      }
      assert s.wire.value.upload == s.issued - 1;
    } else if ev.ServeLate? && ev.entry in s.late {
      AppendsOrNot(s.acc, ev.entry, ev.write);
    }
    hide Accept, LostConfirm, SlotOf, Carries;
  }

  lemma OneMoreInOrder(log: seq<nat>, upload: nat)
    requires NonDecreasing(log)
    ensures NonDecreasing(log + [upload]) <==> !(log != [] && upload < Last(log))
  {
    if log != [] {
      assert (log + [upload])[|log| - 1] == Last(log) && (log + [upload])[|log|] == upload;
    }
  }

  lemma PrefixInOrder(xs: seq<nat>, ys: seq<nat>)
    requires xs <= ys && NonDecreasing(ys)
    ensures NonDecreasing(xs)
  {}

  ghost predicate NeverOvertaken(events: seq<Event>) {
    forall k :: 0 <= k < |events| ==> !Overtaken(Run(INIT, events[..k]), events[k])
  }

  lemma NeverOvertakenFront(events: seq<Event>)
    requires events != []
    ensures NeverOvertaken(events) <==> NeverOvertaken(Front(events)) && !Overtaken(Run(INIT, Front(events)), Last(events))
  {
    hide Run, Overtaken;
    var front := Front(events);
    assert forall k :: 0 <= k < |front| ==> events[..k] == front[..k] && events[k] == front[k];
    assert events[..|front|] == front && events[|front|] == Last(events);
  }

  /** The log is in the order of the Upload calls if and only if no late message of a given-up
      upload was appended behind a later upload of the same number. */
  lemma {:induction false} OrderSurvivesIff(events: seq<Event>)
    requires NoRollBack(events)
    ensures NonDecreasing(Run(INIT, events).acc.log) <==> NeverOvertaken(events)
  {
    if events != [] {
      var s := Run(INIT, Front(events));
      var log' := Next(s, Last(events)).acc.log;
      OrderSurvivesIff(Front(events));
      GroupedAlways(Front(events));
      AppendedUpload(s, Last(events));
      NeverOvertakenFront(events);
      assert Run(INIT, events) == Next(s, Last(events));
      hide Next, Run, Overtaken, Grouped, NeverOvertaken, NonDecreasing;
      if NonDecreasing(s.acc.log) {
        OneMoreInOrder(s.acc.log, if log' == [] then 0 else Last(log'));
      } else if NonDecreasing(log') {
        PrefixInOrder(s.acc.log, log');
      }
    }
  }

  // ----- A run with both faults -----

  lemma FirstFault(s: System)
    requires FirstOnWire(s) && s.issued == 1 && s.up.lastConfirmedSeq == 0
    ensures var t := Next(s, ServeWire(ConfirmFailed));
            && t.up.pending == [Entry(1, 0)] && t.wire.None? && t.reply.None? && t.active
            && t.acc == AcceptorState(Some(0), 0, [0]) && t.issued == 1 && t.up.lastConfirmedSeq == 0
  {}

  lemma SecondFault(s: System)
    requires s.up.pending == [Entry(1, 0)] && s.wire.None? && s.reply.None? && s.active
    requires s.acc == AcceptorState(Some(0), 0, [0]) && s.issued == 1 && s.up.lastConfirmedSeq == 0
    ensures var t := Next(Next(s, SendHead), AbandonUpload);
            && Entry(1, 0) in t.late && t.up == UploaderState(1, 0, []) && !t.active && t.wire.None? && t.reply.None?
            && t.acc == s.acc && t.issued == 1
  {}

  lemma ThirdFault(t: System)
    requires Entry(1, 0) in t.late && t.up == UploaderState(1, 0, []) && !t.active && t.wire.None? && t.reply.None?
    requires t.acc == AcceptorState(Some(0), 0, [0]) && t.issued == 1
    ensures var u := Next(Next(Next(t, BeginUpload), SendHead), ServeWire(ConfirmFailed));
            u.acc == AcceptorState(Some(0), 0, [0, 1]) && Entry(1, 0) in u.late
  {}

  lemma LateAgain(u: System)
    requires u.acc == AcceptorState(Some(0), 0, [0, 1]) && Entry(1, 0) in u.late
    ensures Next(u, ServeLate(Entry(1, 0), Committed)).acc.log == [0, 1, 0]
  {}

  /** With both faults an upload may be in the log twice, once out of order. */
  lemma BothFaultsReorder()
    ensures exists events :: NoRollBack(events) && Run(INIT, events).acc.log == [0, 1, 0]
  {
    hide Next, Run, FirstOnWire;
    var e1 := [BeginUpload, SendHead];
    var e2 := e1 + [ServeWire(ConfirmFailed)];
    var e3 := e2 + [SendHead, AbandonUpload];
    var e4 := e3 + [BeginUpload, SendHead];
    var e5 := e4 + [ServeWire(ConfirmFailed)];
    RunTwo(INIT, BeginUpload, SendHead);
    RunOne(INIT, e1, ServeWire(ConfirmFailed));
    FirstSend();
    FirstFault(Run(INIT, e1));
    RunTwo(Run(INIT, e2), SendHead, AbandonUpload);
    RunAppend(INIT, e2, [SendHead, AbandonUpload]);
    SecondFault(Run(INIT, e2));
    RunTwo(Run(INIT, e3), BeginUpload, SendHead);
    RunAppend(INIT, e3, [BeginUpload, SendHead]);
    RunOne(INIT, e4, ServeWire(ConfirmFailed));
    ThirdFault(Run(INIT, e3));
    RunOne(INIT, e5, ServeLate(Entry(1, 0), Committed));
    LateAgain(Run(INIT, e5));
    assert NoRollBack(e5 + [ServeLate(Entry(1, 0), Committed)]);
  }
}
