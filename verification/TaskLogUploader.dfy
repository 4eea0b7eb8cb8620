/** The uploader and the acceptor as the objects they are, proved against the functions of
    TaskLogProtocol, and the flush loop with its termination. */
module TaskLogUploader {
  import opened Common
  import opened TaskLogProtocol

  // ----- The uploader object -----

  datatype AckOutcome = WrongTask | Applied(confirmed: bool)

  class LogUploader {
    const taskId: string
    var nextSeq: nat
    var lastConfirmedSeq: nat
    var pending: seq<Entry>

    function View(): UploaderState
      reads this
    {
      UploaderState(nextSeq, lastConfirmedSeq, pending)
    }

    constructor (taskId: string)
      ensures this.taskId == taskId && View() == FRESH_UPLOADER
    {
      this.taskId := taskId;
      nextSeq, lastConfirmedSeq, pending := 1, 0, [];
    }

    method DropConfirmed()
      modifies this`pending
      ensures pending == Unconfirmed(old(pending), lastConfirmedSeq)
    {
      var keep := [];
      for i := 0 to |pending|
        invariant keep == Unconfirmed(pending[..i], lastConfirmedSeq)
      {
        assert Front(pending[..i+1]) == pending[..i];
        if pending[i].number > lastConfirmedSeq {
          keep := keep + [pending[i]];
        }
      }
      assert pending[..|pending|] == pending;
      pending := keep;
    }

    method ApplyAck(current: Entry, ackTaskId: string, ack: nat) returns (r: AckOutcome)
      modifies this
      ensures r.WrongTask? <==> ackTaskId != "" && ackTaskId != taskId
      ensures r.WrongTask? ==> View() == old(View())
      ensures r.Applied? ==> View() == TaskLogProtocol.ApplyAck(old(View()), ack)
      ensures r.Applied? ==> (r.confirmed <==> ack >= old(lastConfirmedSeq) && ack >= current.number)
    {
      if ackTaskId != "" && ackTaskId != taskId {
        return WrongTask;
      }
      if ack < lastConfirmedSeq {
        lastConfirmedSeq := ack;
        for i := 0 to |pending|
          invariant |pending| == |old(pending)|
          invariant forall j :: 0 <= j < i ==> pending[j] == Entry(ack + j + 1, old(pending)[j].upload)
          invariant forall j :: i <= j < |pending| ==> pending[j] == old(pending)[j]
          invariant nextSeq == old(nextSeq) && lastConfirmedSeq == ack
        {
          pending := pending[i := pending[i].(number := ack + i + 1)];
        }
        nextSeq := ack + |pending| + 1;
        assert pending == Renumber(old(pending), ack);
        return Applied(false);
      }
      lastConfirmedSeq := ack;
      DropConfirmed();
      return Applied(ack >= current.number);
    }

    method AbandonPending()
      modifies this
      ensures View() == TaskLogProtocol.AbandonPending(old(View()))
    {
      pending := [];
      nextSeq := lastConfirmedSeq + 1;
    }
  }

  // ----- The acceptor object -----

  datatype Session = Unbound | Bound(taskId: string, executionId: string)

  /** The controller's upload handler: the confirmed numbers cached per task, the numbers in
      the database and the log files, which only ever grow at the end. */
  class LogAcceptor {
    var confirmedBy: map<string, nat>
    var storedBy: map<string, nat>
    var logs: map<string, seq<nat>>

    ghost predicate Knows(task: string)
      reads this
    {
      task in storedBy && task in logs
    }

    function View(task: string): AcceptorState
      requires Knows(task)
      reads this
    {
      AcceptorState(if task in confirmedBy then Some(confirmedBy[task]) else None, storedBy[task], logs[task])
    }

    /** Every other task keeps its cache entry, its stored number and its log. */
    twostate predicate OthersUnchanged(task: string)
      reads this
    {
      && old(storedBy.Keys) == storedBy.Keys && old(logs.Keys) == logs.Keys
      && (forall t :: t != task ==> (t in old(confirmedBy) <==> t in confirmedBy))
      && (forall t :: t != task && t in confirmedBy ==> confirmedBy[t] == old(confirmedBy)[t])
      && (forall t :: t != task && t in storedBy ==> storedBy[t] == old(storedBy)[t])
      && (forall t :: t != task && t in logs ==> logs[t] == old(logs)[t])
    }

    method ApplyTaskLogUpload(task: string, e: Entry, w: Write) returns (reply: Option<nat>)
      requires Knows(task)
      modifies this
      ensures Knows(task) && (View(task), reply) == Accept(old(View(task)), e, w)
      ensures OthersUnchanged(task)
    {
      var confirmed;
      if task in confirmedBy {
        confirmed := confirmedBy[task];
      } else {
        if w.ReadFailed? {
          return None;
        }
        confirmed := storedBy[task];
        confirmedBy := confirmedBy[task := confirmed];
      }
      if e.number <= confirmed {
        return Some(confirmed);
      } else if e.number != confirmed + 1 {
        return Some(confirmed);
      }
      if w.AppendFailed? {
        return None;
      }
      logs := logs[task := logs[task] + [e.upload]];
      confirmed := e.number;
      if w.ConfirmFailed? {
        return None;
      }
      // The update only raises the stored number; an equal one is accepted, a higher one is an error.
      if storedBy[task] < confirmed {
        storedBy := storedBy[task := confirmed];
      } else if storedBy[task] != confirmed {
        return None;
      }
      confirmedBy := confirmedBy[task := confirmed];
      return Some(confirmed);
    }

    method ResetTaskLogAck(task: string)
      requires Knows(task)
      modifies this
      ensures Knows(task) && View(task) == old(View(task)).(cached := None)
      ensures OthersUnchanged(task)
    {
      confirmedBy := confirmedBy - {task};
    }

    /** One message of a stream: malformed messages, a session that cannot be bound and a
        message for another execution end the stream before anything is written. */
    method HandleMessage(session: Session, task: string, execution: string, e: Entry, current: bool, w: Write)
      returns (session': Session, reply: Option<nat>)
      requires current || session.Bound? ==> Knows(task)
      modifies this
      ensures reply.Some? ==> session' == Bound(task, execution) && task != "" && e.number > 0
      ensures session.Bound? ==> session' == session
      ensures task == "" || e.number == 0 || (session.Unbound? && !current) ||
              (session.Bound? && session != Bound(task, execution))
              ==> reply.None? && session' == session && unchanged(this)
      ensures !(task == "" || e.number == 0 || (session.Unbound? && !current) ||
              (session.Bound? && session != Bound(task, execution)))
              ==> Knows(task) && (View(task), reply) == Accept(old(View(task)), e, w) && OthersUnchanged(task)
    {
      session' := session;
      if task == "" || e.number == 0 {
        return session', None;
      }
      if session.Unbound? {
        if !current {
          return session', None;
        }
        session' := Bound(task, execution);
      } else if task != session.taskId || execution != session.executionId {
        return session', None;
      }
      reply := ApplyTaskLogUpload(task, e, w);
    }
  }

  // ----- Numbering without gaps -----

  /** What the uploader keeps against any controller, rolled back or not: its pending
      entries are numbered in a row and the first one is at most one past the last
      confirmed number. */
  ghost predicate Gapless(u: UploaderState) {
    && |u.pending| < u.nextSeq <= u.lastConfirmedSeq + |u.pending| + 1
    && forall i :: 0 <= i < |u.pending| ==> u.pending[i].number == u.nextSeq - |u.pending| + i
  }

  lemma {:induction false} UnconfirmedIsSuffix(entries: seq<Entry>, first: nat, confirmed: nat)
    requires forall i :: 0 <= i < |entries| ==> entries[i].number == first + i
    ensures var k := if confirmed < first then 0 else if confirmed - first >= |entries| then |entries| else confirmed - first + 1;
            Unconfirmed(entries, confirmed) == entries[k..]
  {
    if entries != [] {
      UnconfirmedIsSuffix(Front(entries), first, confirmed);
    }
  }

  lemma GaplessAck(u: UploaderState, ack: nat)
    requires Gapless(u)
    ensures Gapless(ApplyAck(u, ack))
    ensures |ApplyAck(u, ack).pending| <= |u.pending|
    ensures u.pending != [] && u.lastConfirmedSeq <= ack && u.pending[0].number <= ack
            ==> |ApplyAck(u, ack).pending| < |u.pending|
  {
    if ack >= u.lastConfirmedSeq {
      UnconfirmedIsSuffix(u.pending, u.nextSeq - |u.pending|, ack);
    }
  }

  /** The controller fell back to `ack`: renumbering keeps what is pending and its order,
      and the very next completed round trip is appended. */
  lemma RenumberedIsAccepted(u: UploaderState, a: AcceptorState)
    requires Gapless(u) && u.pending != []
    requires a.cached.Some? ==> a.cached.value == a.stored
    requires Confirmed(a) < u.lastConfirmedSeq
    ensures var ack := Confirmed(a); var u' := ApplyAck(u, ack);
            && |u'.pending| == |u.pending|
            && (forall i :: 0 <= i < |u.pending| ==> u'.pending[i] == Entry(ack + i + 1, u.pending[i].upload))
            && Accept(a, u'.pending[0], Committed) ==
                 (AcceptorState(Some(ack + 1), ack + 1, a.log + [u.pending[0].upload]), Some(ack + 1))
            && ApplyAck(u', ack + 1).pending == u'.pending[1..]
  {
    var ack := Confirmed(a);
    var u' := ApplyAck(u, ack);
    UnconfirmedIsSuffix(u'.pending, ack + 1, ack + 1);
  }

  /** One undisturbed round trip either brings the uploader level with a controller that
      fell back or removes the first pending entry: there is no livelock on gaps. */
  lemma PerfectTrip(u: UploaderState, a: AcceptorState)
    requires Gapless(u) && u.pending != []
    requires a.cached.Some? ==> a.cached.value == a.stored
    ensures var (a', reply) := Accept(a, u.pending[0], Committed);
            && reply.Some?
            && reply.value == Confirmed(a') == ApplyAck(u, reply.value).lastConfirmedSeq
            && |ApplyAck(u, reply.value).pending| <= |u.pending|
            && (Confirmed(a) >= u.lastConfirmedSeq ==> |ApplyAck(u, reply.value).pending| < |u.pending|)
  {
    var (a', reply) := Accept(a, u.pending[0], Committed);
    GaplessAck(u, reply.value);
  }

  // ----- Upload with its flush loop -----

  /** What goes wrong in one turn of the flush loop. */
  datatype Fault =
    | SendFails(arrivesLater: bool)
    | ReplyLost(write: Write)
    | ServerEvent(event: Event)
    | Deadline

  /** Both ends of one task's upload, with the run they have gone through as history. */
  class UploadLink {
    const uploader: LogUploader
    const server: LogAcceptor
    var closedStreams: set<Entry>
    var calls: nat
    ghost var history: seq<Event>
    ghost var sys: System

    ghost predicate Valid()
      reads this, uploader, server
    {
      && uploader != (server as object)
      && server.Knows(uploader.taskId)
      && sys == Run(INIT, history)
      && sys.up == uploader.View()
      && sys.acc == server.View(uploader.taskId)
      && sys.late == closedStreams && sys.issued == calls
      && sys.wire.None? && sys.reply.None?
      && Gapless(sys.up)
      && (sys.acc.cached.Some? ==> sys.acc.cached.value == sys.acc.stored)
      && (!sys.active ==> sys.up.pending == [])
    }

    constructor (uploader: LogUploader, server: LogAcceptor)
      requires server.Knows(uploader.taskId)
      requires uploader.View() == FRESH_UPLOADER
      requires server.View(uploader.taskId) == INIT.acc
      ensures Valid() && !sys.active && history == []
      ensures this.uploader == uploader && this.server == server
    {
      this.uploader, this.server := uploader, server;
      closedStreams, calls := {}, 0;
      history, sys := [], INIT;
    }

    ghost method Record(ev: Event)
      requires sys == Run(INIT, history)
      modifies this`history, this`sys
      ensures history == old(history) + [ev] && sys == Next(old(sys), ev) == Run(INIT, history)
    {
      hide Next;
      history := history + [ev];
      assert Front(history) == old(history);
      sys := Next(sys, ev);
    }

    /** The message reached the controller, which handled it with outcome `w`. */
    method Serve(w: Write) returns (reply: Option<nat>)
      requires Valid() && sys.active && uploader.pending != []
      modifies this`history, this`sys, server
      ensures history == old(history) + [SendHead, ServeWire(w)]
      ensures sys == Run(INIT, history) && server.Knows(uploader.taskId)
      ensures sys == Next(Next(old(sys), SendHead), ServeWire(w))
      ensures sys.acc == server.View(uploader.taskId)
      ensures (sys.acc, reply) == Accept(old(sys).acc, old(sys).up.pending[0], w)
      ensures sys.reply == reply && sys.wire.None? && sys.late == old(sys).late && sys.up == old(sys).up
      ensures sys.active && sys.issued == old(sys).issued
    {
      Record(SendHead);
      reply := server.ApplyTaskLogUpload(uploader.taskId, uploader.pending[0], w);
      Record(ServeWire(w));
    }

    /** A completed round trip: sent, handled, acknowledged, applied. */
    method RoundTrip()
      requires Valid() && sys.active && uploader.pending != []
      modifies this`history, this`sys, server, uploader
      ensures Valid() && sys.active && old(history) <= history
      ensures |uploader.pending| <= |old(uploader.pending)|
      ensures Confirmed(sys.acc) >= sys.up.lastConfirmedSeq
      ensures old(Confirmed(sys.acc) >= sys.up.lastConfirmedSeq) ==> |uploader.pending| < |old(uploader.pending)|
    {
      PerfectTrip(sys.up, sys.acc);
      var current := uploader.pending[0];
      var reply := Serve(Committed);
      GaplessAck(sys.up, reply.value);
      var r := uploader.ApplyAck(current, uploader.taskId, reply.value);
      Record(ReceiveReply);
    }

    /** A message of a closed stream is handled after all. */
    method ApplyLateEntry(e: Entry, w: Write)
      requires Valid()
      modifies this`history, this`sys, server
      ensures Valid() && sys.active == old(sys.active) && sys.up == old(sys.up) && old(history) <= history
    {
      if e in closedStreams {
        var _ := server.ApplyTaskLogUpload(uploader.taskId, e, w);
        Record(ServeLate(e, w));
      }
    }

    /** The environment acts on its own: late messages, a controller restart, a roll-back. */
    method ApplyServerEvent(ev: Event)
      requires Valid()
      modifies this`history, this`sys, server
      ensures Valid() && sys.active == old(sys.active) && sys.up == old(sys.up) && old(history) <= history
    {
      match ev
      case ServeLate(e, w) => ApplyLateEntry(e, w);
      case ForgetCache =>
        server.ResetTaskLogAck(uploader.taskId);
        Record(ev);
      case RollBack(to) =>
        if to <= server.storedBy[uploader.taskId] {
          server.storedBy := server.storedBy[uploader.taskId := to];
          server.ResetTaskLogAck(uploader.taskId);
          Record(ev);
        }
      case _ =>
    }

    /** The stream broke before or after the message got through, and is replaced. */
    method SendFails(arrivesLater: bool)
      requires Valid() && sys.active && uploader.pending != []
      modifies this
      ensures Valid() && sys.active && sys.up == old(sys.up) && old(history) <= history
    {
      if arrivesLater {
        closedStreams := closedStreams + {uploader.pending[0]};
        Record(SendHead);
      }
      Record(Reconnect);
    }

    method LoseReply(w: Write)
      requires Valid() && sys.active && uploader.pending != []
      modifies this, server
      ensures Valid() && sys.active && sys.up == old(sys.up) && old(history) <= history
    {
      var _ := Serve(w);
      Record(Reconnect);
    }

    method Disturb(fault: Fault)
      requires Valid() && sys.active && uploader.pending != []
      modifies this, server
      ensures Valid() && sys.active && sys.up == old(sys.up) && old(history) <= history
    {
      hide Next, Accept, Gapless;
      match fault
      case SendFails(arrivesLater) => SendFails(arrivesLater);
      case ReplyLost(w) => LoseReply(w);
      case ServerEvent(ev) => ApplyServerEvent(ev);
      case Deadline =>
    }

    /** Sends until nothing is pending, and fails exactly when it meets a deadline before that: no
        other fault makes the call fail, and no deadline is survived. Every turn uses up a fault, brings the uploader level
        with a controller that fell back, or shortens the pending list. */
    method Flush(faults: seq<Fault>) returns (ok: bool)
      requires Valid() && sys.active
      modifies this, server, uploader
      ensures Valid() && sys.active && old(history) <= history
      ensures ok <==> uploader.pending == []
      ensures ok <==> old(uploader.pending) == [] || Deadline !in faults
    {
      hide Next, Accept, Gapless;
      var turn := 0;
      while uploader.pending != []
        invariant Valid() && sys.active && old(history) <= history
        invariant 0 <= turn <= |faults| && Deadline !in faults[..turn]
        invariant turn < |faults| ==> uploader.pending == old(uploader.pending)
        decreases |faults| - turn, Confirmed(sys.acc) < sys.up.lastConfirmedSeq, |uploader.pending|
      {
        if turn == |faults| {
          RoundTrip();
        } else {
          turn := turn + 1;
          assert faults[..turn] == faults[..turn - 1] + [faults[turn - 1]];
          if faults[turn - 1].Deadline? {
            return false;
          }
          Disturb(faults[turn - 1]);
        }
      }
      return true;
    }

    method BeginUpload()
      requires Valid() && !sys.active
      modifies this, uploader
      ensures Valid() && sys.active && history == old(history) + [Event.BeginUpload]
      ensures |uploader.pending| == 1
    {
      uploader.pending := uploader.pending + [Entry(uploader.nextSeq, calls)];
      uploader.nextSeq := uploader.nextSeq + 1;
      calls := calls + 1;
      Record(Event.BeginUpload);
    }

    method EndUpload(ok: bool)
      requires Valid() && sys.active && (ok <==> uploader.pending == [])
      modifies this, uploader
      ensures Valid() && !sys.active && uploader.pending == []
      ensures history == old(history) + [if ok then FinishUpload else AbandonUpload]
    {
      if ok {
        Record(FinishUpload);
      } else {
        uploader.AbandonPending();
        Record(AbandonUpload);
      }
    }

    /** One Upload call from the task body. Whatever the network does, it ends with nothing
        pending; it fails exactly when the deadline is among the faults it meets. */
    method Upload(content: string, faults: seq<Fault>) returns (ok: bool)
      requires Valid() && !sys.active
      modifies this, server, uploader
      ensures Valid() && !sys.active && old(history) <= history
      ensures uploader.pending == []
      ensures content == "" ==> ok && history == old(history)
      ensures content != "" ==> old(history) + [Event.BeginUpload] <= history
      ensures content != "" ==> (ok <==> Deadline !in faults)
      ensures content != "" ==> Last(history) == if ok then FinishUpload else AbandonUpload
    {
      if content == "" {
        return true;
      }
      hide Next, Accept, Gapless;
      BeginUpload();
      ok := Flush(faults);
      EndUpload(ok);
    }
  }
}
