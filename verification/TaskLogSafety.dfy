/** What every run of the task-log protocol keeps, and from it the two delivery
    guarantees: exactly once when no upload is given up, ordered subsequence otherwise. */
module TaskLogSafety {
  import opened Common
  import opened TaskLogProtocol

  // ----- The part that needs neither guarantee -----

  /** Holds in every run whose database is never rolled back: at most one entry is
      pending, the controller is at most one number ahead, and an unread acknowledgement
      confirms exactly the pending entry. */
  ghost predicate Base(s: System) {
    var last := s.up.lastConfirmedSeq;
    && Consecutive(s.up)
    && |s.up.pending| <= 1
    && (!s.active ==> s.up.pending == [])
    && (s.up.pending != [] ==> s.issued > 0 && s.up.pending[0].upload == s.issued - 1)
    && (s.acc.cached.Some? ==> s.acc.cached.value == s.acc.stored)
    && last <= s.acc.stored <= last + 1
    && |s.acked| == last
    && (forall e :: e in s.late ==> 1 <= e.number <= last + 1 && e.upload < s.issued)
    && (s.wire.Some? ==> s.reply.None? && s.up.pending == [s.wire.value])
    && (s.reply.Some? ==> s.up.pending != [] && s.reply.value == s.acc.stored == last + 1)
  }

  lemma SingleEntry(entries: seq<Entry>, confirmed: nat)
    requires |entries| == 1 && entries[0].number <= confirmed
    ensures Unconfirmed(entries, confirmed) == []
    ensures ConfirmedUploads(entries, confirmed) == [entries[0].upload]
  {
    assert Front(entries) == [];
  }

  /** A completed round trip always confirms the pending upload: without a roll-back the
      uploader's stale-acknowledgement branch and its gap branch are unreachable. */
  lemma ReplyConfirmsPending(s: System)
    requires Base(s) && s.reply.Some?
    ensures s.reply.value > s.up.lastConfirmedSeq
    ensures Next(s, ReceiveReply).up == UploaderState(s.up.nextSeq, s.up.lastConfirmedSeq + 1, [])
    ensures Next(s, ReceiveReply).acked == s.acked + [s.issued - 1]
  {
    SingleEntry(s.up.pending, s.reply.value);
  }

  lemma BaseStep(s: System, ev: Event)
    requires Base(s) && !ev.RollBack?
    ensures Base(Next(s, ev))
  {
    hide ConfirmedUploads, LostConfirm, PendingUploads;
    if ev.ReceiveReply? && s.reply.Some? {
      ReplyConfirmsPending(s);
    }
  }

  ghost predicate NoRollBack(events: seq<Event>) {
    forall i :: 0 <= i < |events| ==> !events[i].RollBack?
  }

  ghost predicate NoAbandon(events: seq<Event>) {
    forall i :: 0 <= i < |events| ==> !events[i].AbandonUpload?
  }

  // ----- Exactly once -----

  /** Only repetitions in place: the uploads start at 0 and go up by at most one. */
  ghost predicate Staircase(log: seq<nat>) {
    && (log != [] ==> log[0] == 0)
    && forall i :: 0 < i < |log| ==> log[i-1] <= log[i] <= log[i-1] + 1
  }

  function UpTo(n: nat): (r: seq<nat>)
    ensures |r| == n && forall i :: 0 <= i < n ==> r[i] == i
  {
    seq(n, i requires 0 <= i < n => i)
  }

  /** Holds while no upload was given up: entry number n always carries upload n - 1. */
  ghost predicate Exact(s: System) {
    && Base(s)
    && s.abandoned == {}
    && s.issued == s.up.lastConfirmedSeq + |s.up.pending|
    && s.acc.stored <= s.issued
    && s.acked == UpTo(s.up.lastConfirmedSeq)
    && (forall e :: e in s.late ==> e.upload == e.number - 1)
    && Staircase(s.acc.log)
    && |s.acc.log| == s.acc.stored + s.lostConfirms
    && (if s.acc.log == [] then s.acc.stored == 0
        else s.acc.stored - 1 <= Last(s.acc.log) <= s.acc.stored)
    && (s.lostConfirms == 0 ==> s.acc.log == UpTo(s.acc.stored))
  }

  /** One message handled with any outcome, in a state where number n carries upload n-1. */
  lemma ExactAccept(a: AcceptorState, lost: nat, e: Entry, w: Write)
    requires a.cached.Some? ==> a.cached.value == a.stored
    requires e.number > 0 && e.upload == e.number - 1
    requires Staircase(a.log) && |a.log| == a.stored + lost
    requires if a.log == [] then a.stored == 0 else a.stored - 1 <= Last(a.log) <= a.stored
    requires lost == 0 ==> a.log == UpTo(a.stored)
    ensures var a' := Accept(a, e, w).0; var lost' := lost + LostConfirm(a, e, w);
            && Staircase(a'.log) && |a'.log| == a'.stored + lost'
            && (if a'.log == [] then a'.stored == 0 else a'.stored - 1 <= Last(a'.log) <= a'.stored)
            && (lost' == 0 ==> a'.log == UpTo(a'.stored))
  {
    var a' := Accept(a, e, w).0;
    if a'.log != a.log {
      assert a'.log == a.log + [a.stored];
      StaircaseGrows(a.log, a.stored);
      assert UpTo(a.stored + 1) == UpTo(a.stored) + [a.stored];
    }
    hide Staircase;
  }

  lemma StaircaseGrows(log: seq<nat>, next: nat)
    requires Staircase(log)
    requires if log == [] then next == 0 else next - 1 <= Last(log) <= next
    ensures Staircase(log + [next])
  {}

  lemma ExactServeWire(s: System, w: Write)
    requires Exact(s) && s.wire.Some?
    ensures Exact(Next(s, ServeWire(w)))
  {
    BaseStep(s, ServeWire(w));
    ExactAccept(s.acc, s.lostConfirms, s.wire.value, w);
  }

  lemma ExactServeLate(s: System, e: Entry, w: Write)
    requires Exact(s) && e in s.late
    ensures Exact(Next(s, ServeLate(e, w)))
  {
    BaseStep(s, ServeLate(e, w));
    ExactAccept(s.acc, s.lostConfirms, e, w);
  }

  lemma ExactReceive(s: System)
    requires Exact(s) && s.reply.Some?
    ensures Exact(Next(s, ReceiveReply))
  {
    BaseStep(s, ReceiveReply);
    ReplyConfirmsPending(s);
    assert UpTo(|s.acked| + 1) == UpTo(|s.acked|) + [|s.acked|];
  }

  lemma ExactStep(s: System, ev: Event)
    requires Exact(s) && !ev.RollBack? && !ev.AbandonUpload?
    ensures Exact(Next(s, ev))
  {
    if ev.ServeWire? && s.wire.Some? {
      ExactServeWire(s, ev.write);
    } else if ev.ServeLate? && ev.entry in s.late {
      ExactServeLate(s, ev.entry, ev.write);
    } else if ev.ReceiveReply? && s.reply.Some? {
      ExactReceive(s);
    } else {
      BaseStep(s, ev);
    }
  }

  lemma {:induction false} ExactRun(events: seq<Event>)
    requires NoRollBack(events) && NoAbandon(events)
    ensures Exact(Run(INIT, events))
  {
    if events != [] {
      hide Next, Exact;
      ExactRun(Front(events));
      ExactStep(Run(INIT, Front(events)), Last(events));
    }
  }

  /** Main result without abandoned uploads, over all lost sends, lost acknowledgements,
      reconnects, late messages, cache resets and failed writes. The log never loses or
      reorders an upload, every lost confirmation repeats exactly one upload in place, and
      the log is exactly the first C uploads iff no confirmation was lost. */
  lemma ExactlyOnceIffNoLostConfirm(events: seq<Event>)
    requires NoRollBack(events) && NoAbandon(events)
    ensures var s := Run(INIT, events); var c := Confirmed(s.acc);
            && s.up.lastConfirmedSeq <= c <= s.up.nextSeq - 1
            && s.acked == UpTo(s.up.lastConfirmedSeq)
            && Staircase(s.acc.log)
            && |s.acc.log| == c + s.lostConfirms
            && (forall upload :: 0 <= upload < c ==> upload in s.acc.log)
            && (s.acc.log == UpTo(c) <==> s.lostConfirms == 0)
  {
    ExactRun(events);
    var s := Run(INIT, events);
    forall upload: nat | upload < s.acc.stored
      ensures upload in s.acc.log
    {
      StaircaseHits(s.acc.log, upload);
    }
  }

  lemma {:induction false} StaircaseHits(log: seq<nat>, upload: nat)
    requires Staircase(log) && log != [] && upload <= Last(log)
    ensures upload in log
  {
    if upload < Last(log) {
      if |log| > 1 { StaircaseHits(Front(log), upload); }
    }
  }

  // ----- Ordered subsequence -----

  /** Slot i of the log against the i-th reported success: the appended upload is the
      reported one or an earlier, given-up one, and the next slot only holds later ones. */
  ghost predicate Slot(log: seq<nat>, acked: seq<nat>, abandoned: set<nat>, i: nat) {
    && i < |log| && i < |acked|
    && log[i] <= acked[i]
    && (log[i] == acked[i] || log[i] in abandoned)
    && (i + 1 < |log| ==> acked[i] < log[i+1])
  }

  /** `upload` may still be appended into the slot after the last reported success. */
  ghost predicate FitsNextSlot(s: System, upload: nat) {
    && (upload in s.abandoned || upload in PendingUploads(s))
    && (s.acked != [] ==> upload > Last(s.acked))
  }

  /** Each upload is reported as delivered, given up, or pending, and only one of these. */
  ghost predicate Accounted(s: System) {
    && (forall u :: u in s.acked ==> u < s.issued && u !in s.abandoned && u !in PendingUploads(s))
    && (forall u :: u in s.abandoned ==> u < s.issued && u !in PendingUploads(s))
    && (forall u :: 0 <= u < s.issued ==> u in s.acked || u in s.abandoned || u in PendingUploads(s))
  }

  /** Holds while every append was confirmed, whatever was given up. Log slot i holds the
      one upload appended under number i + 1 and acked[i] the one whose Upload call
      returned success under it. */
  ghost predicate Ordered(s: System) {
    var last := s.up.lastConfirmedSeq;
    && Base(s)
    && Accounted(s)
    && |s.acc.log| == s.acc.stored
    && (forall i :: 0 <= i < last ==> Slot(s.acc.log, s.acked, s.abandoned, i))
    && (s.acc.stored == last + 1 ==> FitsNextSlot(s, s.acc.log[last]))
    && (forall e :: e in s.late && e.number == last + 1 ==> FitsNextSlot(s, e.upload))
    && (s.up.pending != [] ==> FitsNextSlot(s, s.up.pending[0].upload))
  }

  lemma PendingUploadsOfOne(s: System)
    requires Base(s)
    ensures PendingUploads(s) == if s.up.pending == [] then {} else {s.issued - 1}
  {
    if s.up.pending != [] {
      assert s.up.pending == [s.up.pending[0]];
      assert s.up.pending[0] in s.up.pending;
    }
  }

  /** A message is numbered last + 1, the one number whose slot may still be empty, or it
      is stale; appending it keeps the slots interleaved with the reported successes. */
  lemma OrderedAccept(s: System, e: Entry, w: Write)
    requires Ordered(s) && LostConfirm(s.acc, e, w) == 0
    requires e.number <= s.up.lastConfirmedSeq + 1
    requires e.number == s.up.lastConfirmedSeq + 1 ==> FitsNextSlot(s, e.upload)
    ensures var a := Accept(s.acc, e, w).0; var last := s.up.lastConfirmedSeq;
            && |a.log| == a.stored
            && last <= a.stored <= last + 1
            && (forall i :: 0 <= i < last ==> Slot(a.log, s.acked, s.abandoned, i))
            && (a.stored == last + 1 ==> FitsNextSlot(s, a.log[last]))
  {
    var a := Accept(s.acc, e, w).0;
    forall i | 0 <= i < s.up.lastConfirmedSeq
      ensures Slot(a.log, s.acked, s.abandoned, i)
    {
      assert Slot(s.acc.log, s.acked, s.abandoned, i);
    }
  }

  lemma OrderedServe(s: System, ev: Event)
    requires Ordered(s) && (ev.ServeWire? || ev.ServeLate?) && Next(s, ev).lostConfirms == s.lostConfirms
    ensures Ordered(Next(s, ev))
  {
    BaseStep(s, ev);
    if ev.ServeWire? && s.wire.Some? {
      OrderedAccept(s, s.wire.value, ev.write);
    } else if ev.ServeLate? && ev.entry in s.late {
      OrderedAccept(s, ev.entry, ev.write);
    }
  }

  lemma OrderedReceive(s: System)
    requires Ordered(s) && s.reply.Some?
    ensures Ordered(Next(s, ReceiveReply))
  {
    var s' := Next(s, ReceiveReply);
    BaseStep(s, ReceiveReply);
    ReplyConfirmsPending(s);
    PendingUploadsOfOne(s);
    PendingUploadsOfOne(s');
    forall i | 0 <= i < s'.up.lastConfirmedSeq
      ensures Slot(s'.acc.log, s'.acked, s'.abandoned, i)
    {
      if i < s.up.lastConfirmedSeq {
        assert Slot(s.acc.log, s.acked, s.abandoned, i);
      }
    }
  }

  lemma OrderedClose(s: System, ev: Event)
    requires Ordered(s) && (ev.Reconnect? || ev.AbandonUpload?)
    ensures Ordered(Next(s, ev))
  {
    var s' := Next(s, ev);
    BaseStep(s, ev);
    PendingUploadsOfOne(s);
    PendingUploadsOfOne(s');
    forall i | 0 <= i < s'.up.lastConfirmedSeq
      ensures Slot(s'.acc.log, s'.acked, s'.abandoned, i)
    {
      assert Slot(s.acc.log, s.acked, s.abandoned, i);
    }
  }

  lemma OrderedBegin(s: System)
    requires Ordered(s) && !s.active
    ensures Ordered(Next(s, BeginUpload))
  {
    BaseStep(s, BeginUpload);
    assert s.acked != [] ==> Last(s.acked) in s.acked;
    PendingUploadsOfOne(s);
    PendingUploadsOfOne(Next(s, BeginUpload));
  }

  lemma OrderedStep(s: System, ev: Event)
    requires Ordered(s) && !ev.RollBack? && Next(s, ev).lostConfirms == s.lostConfirms
    ensures Ordered(Next(s, ev))
  {
    if ev.ServeWire? || ev.ServeLate? {
      OrderedServe(s, ev);
    } else if ev.ReceiveReply? && s.reply.Some? {
      OrderedReceive(s);
    } else if ev.Reconnect? || ev.AbandonUpload? {
      OrderedClose(s, ev);
    } else if ev.BeginUpload? && !s.active {
      OrderedBegin(s);
    } else {
      BaseStep(s, ev);
    }
  }

  lemma {:induction false} OrderedRun(events: seq<Event>)
    requires NoRollBack(events) && Run(INIT, events).lostConfirms == 0
    ensures Ordered(Run(INIT, events))
  {
    if events != [] {
      LostConfirmsGrow(Run(INIT, Front(events)), Last(events));
      hide Next, Ordered;
      OrderedRun(Front(events));
      OrderedStep(Run(INIT, Front(events)), Last(events));
    }
  }

  lemma LostConfirmsGrow(s: System, ev: Event)
    ensures s.lostConfirms <= Next(s, ev).lostConfirms
  {}

  ghost predicate StrictlyIncreasing(xs: seq<nat>) {
    forall i, j :: 0 <= i < j < |xs| ==> xs[i] < xs[j]
  }

  lemma {:induction false} StepwiseIncreasing(xs: seq<nat>)
    requires forall i :: 0 < i < |xs| ==> xs[i-1] < xs[i]
    ensures StrictlyIncreasing(xs)
  {
    if xs != [] {
      StepwiseIncreasing(Front(xs));
      if |xs| > 1 {
        assert Front(xs)[|xs|-2] < Last(xs);
      }
    }
  }

  /** The numbers under which Upload reported success for a text the log does not hold. */
  function SwallowedSlots(s: System): set<nat>
    requires |s.acked| <= |s.acc.log|
  {
    set i: nat | i < |s.acked| && s.acc.log[i] != s.acked[i]
  }

  lemma LogIncreases(s: System)
    requires Ordered(s)
    ensures StrictlyIncreasing(s.acc.log)
    ensures forall i :: 0 <= i < |s.acc.log| ==> s.acc.log[i] < s.issued
  {
    var log := s.acc.log;
    forall i | 0 < i < |log|
      ensures log[i-1] < log[i]
    {
      assert Slot(log, s.acked, s.abandoned, i - 1);
    }
    StepwiseIncreasing(log);
    PendingUploadsOfOne(s);
    forall i | 0 <= i < |log|
      ensures log[i] < s.issued
    {
      assert i < |s.acked| ==> Slot(log, s.acked, s.abandoned, i) && s.acked[i] in s.acked;
    }
  }

  lemma SwallowedIsMissing(s: System, i: nat)
    requires Ordered(s) && StrictlyIncreasing(s.acc.log)
    requires i < |s.acked| && s.acc.log[i] != s.acked[i]
    ensures s.acked[i] !in s.acc.log
  {
    assert Slot(s.acc.log, s.acked, s.abandoned, i);
  }

  /** Main result with uploads given up at any moment: the log is a strictly ordered
      subsequence of the Upload calls with one entry per confirmed number, the controller
      is at most one number ahead, and every reported-but-missing upload is paid for by a
      distinct given-up upload standing in its slot. */
  lemma OrderedSubsequence(events: seq<Event>)
    requires NoRollBack(events) && Run(INIT, events).lostConfirms == 0
    ensures var s := Run(INIT, events); var c := Confirmed(s.acc);
            && |s.acc.log| == c
            && StrictlyIncreasing(s.acc.log)
            && (forall i :: 0 <= i < c ==> s.acc.log[i] < s.issued)
            && |s.acked| == s.up.lastConfirmedSeq <= c <= s.up.lastConfirmedSeq + 1
            && (forall i :: i in SwallowedSlots(s) ==> s.acked[i] !in s.acc.log && s.acc.log[i] in s.abandoned)
            && |SwallowedSlots(s)| <= |s.abandoned|
            && (forall u :: 0 <= u < s.issued ==> u in s.acked || u in s.abandoned || u in PendingUploads(s))
  {
    OrderedRun(events);
    var s := Run(INIT, events);
    var log := s.acc.log;
    PendingUploadsOfOne(s);
    LogIncreases(s);
    forall i | i in SwallowedSlots(s)
      ensures s.acked[i] !in log && log[i] in s.abandoned
    {
      SwallowedIsMissing(s, i);
      assert Slot(log, s.acked, s.abandoned, i);
    }
    SlotsInject(log, SwallowedSlots(s), s.abandoned);
  }

  lemma {:induction false} SlotsInject(log: seq<nat>, slots: set<nat>, target: set<nat>)
    requires StrictlyIncreasing(log)
    requires forall i :: i in slots ==> i < |log| && log[i] in target
    ensures |slots| <= |target|
  {
    if slots != {} {
      var i :| i in slots;
      SlotsInject(log, slots - {i}, target - {log[i]});
    }
  }

  // ----- The text -----

  /** The log file's text, when upload u carries contents[u]. */
  function Text(log: seq<nat>, contents: seq<string>): string
    requires forall i :: 0 <= i < |log| ==> log[i] < |contents|
  {
    if log == [] then "" else Text(Front(log), contents) + contents[Last(log)]
  }

  function Join(parts: seq<string>): string {
    if parts == [] then "" else Join(Front(parts)) + Last(parts)
  }

  lemma {:induction false} TextUpTo(n: nat, contents: seq<string>)
    requires n <= |contents|
    ensures Text(UpTo(n), contents) == Join(contents[..n])
  {
    if n > 0 {
      assert Front(UpTo(n)) == UpTo(n - 1);
      assert Front(contents[..n]) == contents[..n-1];
      TextUpTo(n - 1, contents);
    }
  }

  /** The same guarantee read off the file: its text is the first C contents joined. */
  lemma LogTextIsFirstUploads(events: seq<Event>, contents: seq<string>)
    requires NoRollBack(events) && NoAbandon(events)
    requires |contents| == Run(INIT, events).issued && Run(INIT, events).lostConfirms == 0
    ensures var s := Run(INIT, events); var c := Confirmed(s.acc);
            && c <= |contents|
            && (forall i :: 0 <= i < |s.acc.log| ==> s.acc.log[i] < |contents|)
            && Text(s.acc.log, contents) == Join(contents[..c])
  {
    ExactRun(events);
    TextUpTo(Run(INIT, events).acc.stored, contents);
  }

  // ----- Why the conditions are there -----

  lemma RunTwo(s: System, a: Event, b: Event)
    ensures Run(s, [a, b]) == Next(Next(s, a), b)
  {
    RunOne(s, [], a);
    RunOne(s, [a], b);
    hide *;
    assert [] + [a] == [a] && [a] + [b] == [a, b];
    assert Run(s, []) == s by { EmptyRun(s); }
  }

  lemma EmptyRun(s: System)
    ensures Run(s, []) == s
  {}

  /** The first message on the wire, in a fresh system. */
  ghost predicate FirstOnWire(s: System) {
    && s.up.pending == [Entry(1, 0)] && s.wire == Some(Entry(1, 0)) && s.reply.None? && s.active
    && s.acc == AcceptorState(None, 0, [])
  }

  lemma FirstSend()
    ensures var s := Next(Next(INIT, BeginUpload), SendHead);
            FirstOnWire(s) && s.late == {} && s.issued == 1 && s.acked == [] && s.up.lastConfirmedSeq == 0
  {}

  lemma FailThenResend(s: System)
    requires FirstOnWire(s)
    ensures var s' := Next(Next(s, ServeWire(ConfirmFailed)), Reconnect);
            && s'.acc == AcceptorState(Some(0), 0, [0]) && s'.up == s.up && s'.active && s'.wire.None? && s'.reply.None?
  {}

  lemma ResendRepeats(s: System)
    requires s.acc == AcceptorState(Some(0), 0, [0]) && s.active && s.wire.None? && s.reply.None?
    requires s.up.pending == [Entry(1, 0)]
    ensures Next(Next(s, SendHead), ServeWire(Committed)).acc.log == [0, 0]
  {}

  /** One lost confirmation is enough to repeat a text. */
  lemma LostConfirmRepeats()
    ensures exists events :: NoRollBack(events) && NoAbandon(events) && Run(INIT, events).acc.log == [0, 0]
  {
    var e1 := [BeginUpload, SendHead];
    var e2 := [ServeWire(ConfirmFailed), Reconnect];
    var e3 := [SendHead, ServeWire(Committed)];
    hide Next, Run, FirstOnWire;
    FirstSend();
    RunTwo(INIT, BeginUpload, SendHead);
    FailThenResend(Run(INIT, e1));
    RunTwo(Run(INIT, e1), ServeWire(ConfirmFailed), Reconnect);
    RunAppend(INIT, e1, e2);
    ResendRepeats(Run(INIT, e1 + e2));
    RunTwo(Run(INIT, e1 + e2), SendHead, ServeWire(Committed));
    RunAppend(INIT, e1 + e2, e3);
    assert NoRollBack(e1 + e2 + e3) && NoAbandon(e1 + e2 + e3);
  }

  /** Upload 0 was given up and then appended late; the uploader is back at number 1. */
  ghost predicate SlotTaken(s: System) {
    && s.acc == AcceptorState(Some(1), 1, [0]) && s.up == FRESH_UPLOADER && !s.active
    && s.issued == 1 && s.acked == [] && s.wire.None? && s.reply.None?
  }

  lemma GivenUpThenServed(s: System)
    requires FirstOnWire(s) && s.late == {} && s.issued == 1 && s.acked == [] && s.up.lastConfirmedSeq == 0
    ensures SlotTaken(Next(Next(s, AbandonUpload), ServeLate(Entry(1, 0), Committed)))
  {
    assert Next(s, AbandonUpload).late == {Entry(1, 0)};
  }

  lemma SlotGetsTaken() returns (events: seq<Event>)
    ensures NoRollBack(events) && SlotTaken(Run(INIT, events))
  {
    hide Next, Run, FirstOnWire, SlotTaken;
    FirstSend();
    RunTwo(INIT, BeginUpload, SendHead);
    GivenUpThenServed(Run(INIT, [BeginUpload, SendHead]));
    RunTwo(Run(INIT, [BeginUpload, SendHead]), AbandonUpload, ServeLate(Entry(1, 0), Committed));
    RunAppend(INIT, [BeginUpload, SendHead], [AbandonUpload, ServeLate(Entry(1, 0), Committed)]);
    events := [BeginUpload, SendHead] + [AbandonUpload, ServeLate(Entry(1, 0), Committed)];
  }

  lemma SecondIsSwallowed(s: System)
    requires SlotTaken(s)
    ensures var s' := Next(Next(Next(Next(s, BeginUpload), SendHead), ServeWire(Committed)), ReceiveReply);
            s'.acked == [1] && s'.acc.log == [0]
  {
    var s2 := Next(Next(s, BeginUpload), SendHead);
    assert s2.wire == Some(Entry(1, 1)) && s2.up.pending == [Entry(1, 1)];
    SingleEntry([Entry(1, 1)], 1);
  }

  /** An abandoned upload that still reaches the controller swallows the next one: upload 1
      is reported as delivered but only upload 0 is in the log. */
  lemma AbandonedUploadSwallowsNext()
    ensures exists events :: NoRollBack(events) && Run(INIT, events).acked == [1] && Run(INIT, events).acc.log == [0]
  {
    hide Next, Run, SlotTaken;
    var first := SlotGetsTaken();
    var s := Run(INIT, first);
    SecondIsSwallowed(s);
    RunTwo(s, BeginUpload, SendHead);
    RunAppend(INIT, first, [BeginUpload, SendHead]);
    var second := first + [BeginUpload, SendHead];
    RunTwo(Run(INIT, second), ServeWire(Committed), ReceiveReply);
    RunAppend(INIT, second, [ServeWire(Committed), ReceiveReply]);
    assert NoRollBack(second + [ServeWire(Committed), ReceiveReply]);
  }
}
