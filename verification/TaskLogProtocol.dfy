/** The task-log upload protocol as one state machine: the agent's uploader, the
    controller's acceptor, the stream between them, and what the environment may do
    to all three. The uploader side is internal/app/agent/log_stream.go, the acceptor
    side is internal/app/controller/log_stream.go. */
module TaskLogProtocol {
  import opened Common

  // ----- The uploader -----

  /** A numbered log entry. `upload` says which Upload call it carries (0, 1, ...);
      it stands for the content, which never changes once the call is made. */
  datatype Entry = Entry(number: nat, upload: nat)

  datatype UploaderState = UploaderState(nextSeq: nat, lastConfirmedSeq: nat, pending: seq<Entry>)

  const FRESH_UPLOADER := UploaderState(1, 0, [])

  function Enqueue(u: UploaderState, upload: nat): UploaderState {
    u.(pending := u.pending + [Entry(u.nextSeq, upload)], nextSeq := u.nextSeq + 1)
  }

  function Renumber(entries: seq<Entry>, base: nat): (r: seq<Entry>)
    ensures |r| == |entries|
    ensures forall i :: 0 <= i < |r| ==> r[i] == Entry(base + i + 1, entries[i].upload)
  {
    seq(|entries|, i requires 0 <= i < |entries| => Entry(base + i + 1, entries[i].upload))
  }

  /** The entries numbered above `confirmed`, in order. */
  function Unconfirmed(entries: seq<Entry>, confirmed: nat): seq<Entry> {
    if entries == [] then []
    else if Last(entries).number > confirmed then Unconfirmed(Front(entries), confirmed) + [Last(entries)]
    else Unconfirmed(Front(entries), confirmed)
  }

  /** The uploads of the entries that an acknowledgement removes, in order. */
  function ConfirmedUploads(entries: seq<Entry>, confirmed: nat): seq<nat> {
    if entries == [] then []
    else if Last(entries).number > confirmed then ConfirmedUploads(Front(entries), confirmed)
    else ConfirmedUploads(Front(entries), confirmed) + [Last(entries).upload]
  }

  function ApplyAck(u: UploaderState, ack: nat): UploaderState {
    if ack < u.lastConfirmedSeq then
      UploaderState(ack + |u.pending| + 1, ack, Renumber(u.pending, ack))
    else
      u.(lastConfirmedSeq := ack, pending := Unconfirmed(u.pending, ack))
  }

  function AbandonPending(u: UploaderState): UploaderState {
    u.(pending := [], nextSeq := u.lastConfirmedSeq + 1)
  }

  /** Pending entries always carry the numbers right after the last confirmed one. */
  ghost predicate Consecutive(u: UploaderState) {
    && u.nextSeq == u.lastConfirmedSeq + |u.pending| + 1
    && forall i :: 0 <= i < |u.pending| ==> u.pending[i].number == u.lastConfirmedSeq + i + 1
  }

  // ----- The acceptor -----

  /** What the controller keeps for one task: the cached confirmed number, the number in
      the database, and the log file as the uploads appended to it, in order. */
  datatype AcceptorState = AcceptorState(cached: Option<nat>, stored: nat, log: seq<nat>)

  /** What the database and the file system do while a message is handled. */
  datatype Write = Committed | ReadFailed | AppendFailed | ConfirmFailed

  function Confirmed(a: AcceptorState): nat {
    if a.cached.Some? then a.cached.value else a.stored
  }

  /** Handles one message; the second result is the acknowledged number, or None when the
      handler fails and ends the stream. */
  function Accept(a: AcceptorState, e: Entry, w: Write): (AcceptorState, Option<nat>) {
    if a.cached.None? && w.ReadFailed? then
      (a, None)
    else
      var confirmed := Confirmed(a);
      var cached := a.(cached := Some(confirmed));
      if e.number != confirmed + 1 then
        (cached, Some(confirmed))
      else if w.AppendFailed? then
        (cached, None)
      else if w.ConfirmFailed? || e.number < a.stored then
        (cached.(log := a.log + [e.upload]), None)
      else
        (AcceptorState(Some(e.number), e.number, a.log + [e.upload]), Some(e.number))
  }

  // ----- The system -----

  /** `wire` is the message sent on the current stream and not yet handled, `reply` the
      acknowledgement not yet read. Messages of closed streams stay in `late`, from where
      the controller may still handle them, any number of times. The last five fields are
      history: uploads begun, uploads reported as delivered, uploads given up,
      confirmations lost after their append, and the number of each entry of the log. */
  datatype System = System(
    up: UploaderState,
    acc: AcceptorState,
    wire: Option<Entry>,
    reply: Option<nat>,
    late: set<Entry>,
    active: bool,
    issued: nat,
    acked: seq<nat>,
    abandoned: set<nat>,
    lostConfirms: nat,
    slots: seq<nat>)

  const INIT := System(FRESH_UPLOADER, AcceptorState(None, 0, []), None, None, {}, false, 0, [], {}, 0, [])

  datatype Event =
    | BeginUpload
    | SendHead
    | ServeWire(write: Write)
    | ServeLate(entry: Entry, write: Write)
    | ReceiveReply
    | Reconnect
    | FinishUpload
    | AbandonUpload
    | ForgetCache
    | RollBack(to: nat)

  function WireEntries(s: System): set<Entry> {
    if s.wire.Some? then {s.wire.value} else {}
  }

  function PendingUploads(s: System): set<nat> {
    set e | e in s.up.pending :: e.upload
  }

  function CloseStream(s: System): System {
    s.(late := s.late + WireEntries(s), wire := None, reply := None)
  }

  /** 1 when handling `e` appends without confirming, else 0. */
  function LostConfirm(a: AcceptorState, e: Entry, w: Write): nat {
    var (a', reply) := Accept(a, e, w);
    if reply.None? && |a'.log| > |a.log| then 1 else 0
  }

  /** The number under which handling `e` appends, if it does. */
  function SlotOf(a: AcceptorState, e: Entry, w: Write): seq<nat> {
    if |Accept(a, e, w).0.log| > |a.log| then [e.number] else []
  }

  /** One step; an event that is not enabled changes nothing. */
  function Next(s: System, ev: Event): System {
    match ev
    case BeginUpload =>
      if s.active then s
      else s.(up := Enqueue(s.up, s.issued), issued := s.issued + 1, active := true)
    case SendHead =>
      if !s.active || s.up.pending == [] || s.wire.Some? || s.reply.Some? then s
      else s.(wire := Some(s.up.pending[0]))
    case ServeWire(w) =>
      if s.wire.None? then s
      else
        var (a, reply) := Accept(s.acc, s.wire.value, w);
        s.(acc := a, wire := None, reply := reply,
           lostConfirms := s.lostConfirms + LostConfirm(s.acc, s.wire.value, w),
           slots := s.slots + SlotOf(s.acc, s.wire.value, w))
    case ServeLate(e, w) =>
      if e !in s.late then s
      else s.(acc := Accept(s.acc, e, w).0, lostConfirms := s.lostConfirms + LostConfirm(s.acc, e, w),
              slots := s.slots + SlotOf(s.acc, e, w))
    case ReceiveReply =>
      if s.reply.None? then s
      else
        var dropped := if s.reply.value < s.up.lastConfirmedSeq then []
                       else ConfirmedUploads(s.up.pending, s.reply.value);
        s.(up := ApplyAck(s.up, s.reply.value), reply := None, acked := s.acked + dropped)
    case Reconnect =>
      CloseStream(s)
    case FinishUpload =>
      if s.active && s.up.pending == [] then s.(active := false) else s
    case AbandonUpload =>
      if !s.active || s.up.pending == [] then s
      else CloseStream(s).(up := AbandonPending(s.up), abandoned := s.abandoned + PendingUploads(s), active := false)
    case ForgetCache =>
      s.(acc := s.acc.(cached := None))
    case RollBack(to) =>
      if to > s.acc.stored then s else s.(acc := s.acc.(stored := to, cached := None))
  }

  function Run(s: System, events: seq<Event>): System {
    if events == [] then s else Next(Run(s, Front(events)), Last(events))
  }

  lemma {:induction false} RunAppend(s: System, xs: seq<Event>, ys: seq<Event>)
    ensures Run(s, xs + ys) == Run(Run(s, xs), ys)
  {
    hide Next;
    if ys == [] {
      assert xs + ys == xs;
    } else {
      RunAppend(s, xs, Front(ys));
      assert Front(xs + ys) == xs + Front(ys);
    }
  }

  lemma RunOne(s: System, events: seq<Event>, ev: Event)
    ensures Run(s, events + [ev]) == Next(Run(s, events), ev)
  {
    hide Next;
    assert Front(events + [ev]) == events;
  }
}
