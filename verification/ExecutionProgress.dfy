/** When the execution protocol can go on: a task that nothing disturbs succeeds, and recovery after
    a crash comes to an end unless a stored backup result has lost its execution. */
module ExecutionProgress {
  import opened Common
  import opened ExecutionProtocol
  import opened ExecutionSafety
  import opened ExecutionResults

  lemma RunOne(w: World, ev: Event)
    ensures Run(w, [ev]) == Next(w, ev)
  {
    assert Front([ev]) == [];
    assert Run(w, []) == w;
    hide Next;
  }

  lemma RunMore(w: World, events: seq<Event>, ev: Event)
    ensures Run(w, events + [ev]) == Next(Run(w, events), ev)
  {
    assert Front(events + [ev]) == events;
    hide Next;
  }

  // ----- A task that nothing disturbs -----

  lemma TaskIsTaken(w: World) returns (events: seq<Event>)
    requires Inv(w) && w.pc.Ready?
    ensures var w', e := Run(w, events), w.nextExec;
            && w'.pc == Running(Record(e, true, None, []), true, 0) && w'.disk == Some(w'.pc.r)
            && Entry(w'.store, e) == Some(Accepted) && w'.started == w.started + [e]
  {
    var pull, offer, ack, mark := Pull(Answered, true), PersistOffer(Installed), Ack(Answered, false), PersistMarked(Installed);
    events := [pull] + [offer] + [ack] + [mark];
    RunOne(w, pull);
    RunMore(w, [pull], offer);
    RunMore(w, [pull] + [offer], ack);
    RunMore(w, [pull] + [offer] + [ack], mark);
    hide Run, Inv, NextRecovery, NextBody, NextController;
  }

  lemma BackupIsReported(w: World, b: Backup) returns (events: seq<Event>)
    requires w.pc.Running? && w.pc.open && w.pc.stage == 0 && w.pc.r.backups == [] && IsRunning(w.store, w.pc.r.exec)
    ensures var w' := Run(w, events);
            && w'.pc == w.pc && w'.disk == Some(w.pc.r) && (w.pc.r.exec, b) in w'.accepted && w.accepted <= w'.accepted
            && w'.store == w.store && w'.started == w.started
  {
    var record, send, drop := RecordBackup(b, Installed), SendBackup(Answered, false), DropBackup(Installed);
    events := [record] + [send] + [drop];
    RunOne(w, record);
    RunMore(w, [record], send);
    RunMore(w, [record] + [send], drop);
    hide Run, NextRecovery, NextPoll, NextController;
    assert w.pc.r.(backups := [b]).(backups := [b][1..]) == w.pc.r;
  }

  lemma {:induction false} BackupsAreReported(w: World, items: seq<Backup>) returns (events: seq<Event>)
    requires w.pc.Running? && w.pc.open && w.pc.stage == 0 && w.pc.r.backups == [] && IsRunning(w.store, w.pc.r.exec)
    requires w.disk == Some(w.pc.r)
    ensures var w' := Run(w, events);
            && w'.pc == w.pc && w'.disk == w.disk && (forall b :: b in items ==> (w.pc.r.exec, b) in w'.accepted)
            && w.accepted <= w'.accepted && w'.store == w.store && w'.started == w.started
  {
    if items == [] {
      events := [];
    } else {
      hide Next;
      var first := BackupsAreReported(w, Front(items));
      var last := BackupIsReported(Run(w, first), Last(items));
      RunAppend(w, first, last);
      events := first + last;
      assert items == Front(items) + [Last(items)];
    }
  }

  lemma OutcomeIsRecorded(w: World, c: Completion) returns (events: seq<Event>)
    requires w.pc.Running? && w.pc.stage == 0 && w.pc.r.backups == [] && w.pc.r.completion.None?
    requires IsRunning(w.store, w.pc.r.exec)
    ensures var w' := Run(w, events);
            && w'.disk.None? && Entry(w'.store, w.pc.r.exec) == Some(Completed(c, true)) && w'.pc.Running?
            && w'.accepted == w.accepted && w'.started == w.started
  {
    var finish, report, clear := FinishBody(c, Installed), ReportFinal(Answered), Clear(Installed);
    events := [finish] + [report] + [clear];
    RunOne(w, finish);
    RunMore(w, [finish], report);
    RunMore(w, [finish] + [report], clear);
    hide Run, NextRecovery, NextPoll, NextController;
  }

  /** Wherever a run lets the agent pull, it can go on so that the next execution is started, all its
      backup results are accepted, its outcome is recorded as the body reported it, and no record
      stays behind. */
  lemma UndisturbedTaskCompletes(before: seq<Event>, items: seq<Backup>, c: Completion) returns (after: seq<Event>)
    requires Run(INIT, before).pc.Ready?
    ensures var w, w' := Run(INIT, before), Run(INIT, before + after); var e := w.nextExec;
            && w'.started == w.started + [e] && w'.disk.None?
            && Entry(w'.store, e) == Some(Completed(c, true))
            && forall b :: b in items ==> (e, b) in w'.accepted
  {
    Always(before);
    hide Run, Inv, Next;
    var w := Run(INIT, before);
    var take := TaskIsTaken(w);
    var report := BackupsAreReported(Run(w, take), items);
    RunAppend(w, take, report);
    var finish := OutcomeIsRecorded(Run(w, take + report), c);
    RunAppend(w, take + report, finish);
    after := take + report + finish;
    RunAppend(INIT, before, after);
  }

  // ----- The end of recovery -----

  /** A stored backup result whose execution is over at the controller, with the agent recovering. */
  ghost predicate Blocked(w: World, r: Record) {
    && w.disk == Some(r) && r.backups != [] && r.acked && r.exec < w.nextExec
    && !IsRunning(w.store, r.exec) && Entry(w.store, r.exec) != Some(Offered)
    && (w.pc.Top? || w.pc == Draining(r))
  }

  lemma BlockedStep(w: World, ev: Event, r: Record)
    requires Blocked(w, r)
    ensures Blocked(Next(w, ev), r) && Next(w, ev).started == w.started && Next(w, ev).nextExec == w.nextExec
  {
    hide StoreCompletion, StoreBackup, RemoveFirstBackup, Complete, Acknowledge;
  }

  /** The record of such a result is there for good: whatever happens, however often the agent
      restarts, the file stays as it is, and nothing is ever pulled or started again. */
  lemma {:induction false} BlockedForever(before: seq<Event>, after: seq<Event>, r: Record)
    requires Blocked(Run(INIT, before), r)
    ensures var w, w' := Run(INIT, before), Run(INIT, before + after);
            Blocked(w', r) && w'.started == w.started && w'.nextExec == w.nextExec
  {
    hide Next, Blocked;
    if after == [] {
      assert before + after == before;
    } else {
      BlockedForever(before, Front(after), r);
      assert Front(before + after) == before + Front(after);
      BlockedStep(Run(INIT, before + Front(after)), Last(after), r);
    }
  }

  lemma DrainedEnds(w: World) returns (events: seq<Event>)
    requires w.pc.Draining? && w.pc.r.backups == []
    ensures Run(w, events).disk.None? && Run(w, events).pc.Ready?
  {
    var resolve, report, discard := Resolve(Installed), ReportRecovered(Answered), Discard(Installed);
    events := [resolve] + [report] + [discard];
    RunOne(w, resolve);
    RunMore(w, [resolve], report);
    RunMore(w, [resolve] + [report], discard);
    hide Run, NextPoll, NextBody, NextController, Complete;
  }

  lemma DrainingEnds(w: World) returns (events: seq<Event>)
    requires w.pc.Draining? && |w.pc.r.backups| <= 1
    requires w.pc.r.backups == [] || IsRunning(w.store, w.pc.r.exec)
    ensures Run(w, events).disk.None? && Run(w, events).pc.Ready?
  {
    if w.pc.r.backups == [] {
      events := DrainedEnds(w);
    } else {
      var send, remove := SendRecovered(Answered, false), RemoveRecovered(Installed);
      RunOne(w, send);
      RunMore(w, [send], remove);
      hide Run, NextPoll, NextBody, NextController;
      var rest := DrainedEnds(Run(w, [send] + [remove]));
      RunAppend(w, [send] + [remove], rest);
      events := [send] + [remove] + rest;
    }
  }

  lemma RecoveringEnds(w: World) returns (events: seq<Event>)
    requires w.pc.Recovering? && w.pc.r.backups == []
    ensures Run(w, events).disk.None? && Run(w, events).pc.Ready?
  {
    var ack := AckRecovered(Answered, false);
    RunOne(w, ack);
    var next := if Next(w, ack).pc.MarkAccepted? then PersistAccepted(Installed) else Discard(Installed);
    RunMore(w, [ack], next);
    hide Run, NextPoll, NextBody, NextController;
    events := [ack] + [next];
    if Next(w, ack).pc.MarkAccepted? {
      var rest := DrainedEnds(Run(w, events));
      RunAppend(w, events, rest);
      events := events + rest;
    }
  }

  lemma RecoveryEnds(w: World) returns (events: seq<Event>)
    requires Inv(w) && w.pc.Top?
    requires w.disk.Some? ==> w.disk.value.backups == [] || IsRunning(w.store, w.disk.value.exec)
    ensures Run(w, events).disk.None? && Run(w, events).pc.Ready?
  {
    RunOne(w, Load);
    hide Run, NextPoll, NextBody, NextController;
    events := [Load];
    var w' := Next(w, Load);
    if w'.pc.Recovering? {
      var rest := RecoveringEnds(w');
      RunAppend(w, [Load], rest);
      events := [Load] + rest;
    } else if w'.pc.Draining? {
      var rest := DrainingEnds(w');
      RunAppend(w, [Load], rest);
      events := [Load] + rest;
    }
  }

  /** From the start of a turn, after a crash or not, recovery can still come to an end with an empty
      file if and only if no backup result is stored or its execution still runs at the controller.
      A result that the controller refuses is kept and sent again for ever, since only a refused
      acknowledgement or outcome makes the agent let go of a record. */
  lemma RecoveryEndsIff(before: seq<Event>)
    requires Run(INIT, before).pc.Top?
    ensures var w := Run(INIT, before);
            (exists after :: Run(INIT, before + after).disk.None?) <==>
              (w.disk.Some? && w.disk.value.backups != [] ==> IsRunning(w.store, w.disk.value.exec))
  {
    Always(before);
    OffersAlways(before);
    var w := Run(INIT, before);
    hide Run, Next;
    if w.disk.Some? && w.disk.value.backups != [] && !IsRunning(w.store, w.disk.value.exec) {
      assert Blocked(w, w.disk.value) by { BlockedNow(w); }
      forall after ensures Run(INIT, before + after).disk.Some? {
        BlockedForever(before, after, w.disk.value);
      }
    } else {
      var after := RecoveryEnds(w);
      RunAppend(INIT, before, after);
      assert Run(INIT, before + after).disk.None?;
    }
  }

  lemma BlockedNow(w: World)
    requires Inv(w) && OffersAgree(w) && w.pc.Top? && w.disk.Some? && w.disk.value.backups != []
    requires !IsRunning(w.store, w.disk.value.exec)
    ensures Blocked(w, w.disk.value)
  {}

  lemma ExecutionIsLost(w: World, b: Backup) returns (events: seq<Event>)
    requires w.pc.Running? && w.pc.open && w.pc.stage == 0 && w.pc.r.backups == []
    requires Entry(w.store, w.pc.r.exec) == Some(Accepted)
    ensures var w' := Run(w, events);
            && w'.pc.Top? && w'.disk == Some(w.pc.r.(backups := [b]))
            && Entry(w'.store, w.pc.r.exec) == Some(Completed(Completion(Failed, ""), false))
  {
    var e := w.pc.r.exec;
    var record := RecordBackup(b, Installed);
    events := [record] + [Crash] + [Expire(e)] + [FailLost(e)];
    RunOne(w, record);
    RunMore(w, [record], Crash);
    RunMore(w, [record] + [Crash], Expire(e));
    RunMore(w, [record] + [Crash] + [Expire(e)], FailLost(e));
    hide Run, NextRecovery, NextPoll;
    assert w.pc.r.backups + [b] == [b];
  }

  /** That happens: the agent crashes between storing a result and delivering it, its lease runs out,
      and the operator gives the execution up as lost. */
  lemma BlockedIsReachable(b: Backup) returns (events: seq<Event>)
    ensures var w := Run(INIT, events);
            && w.disk.Some? && w.disk.value.backups == [b] && Blocked(w, w.disk.value)
            && Entry(w.store, w.disk.value.exec) == Some(Completed(Completion(Failed, ""), false))
  {
    RunOne(INIT, Load);
    Always([Load]);
    var w1 := Run(INIT, [Load]);
    assert w1.pc.Ready?;
    hide Run, Next, Inv;
    var take := TaskIsTaken(w1);
    RunAppend(INIT, [Load], take);
    var lost := ExecutionIsLost(Run(w1, take), b);
    RunAppend(INIT, [Load] + take, lost);
    events := [Load] + take + lost;
    Always(events);
    DiskIsKnown(Run(INIT, events));
  }

  lemma DiskIsKnown(w: World)
    requires Inv(w) && w.disk.Some?
    ensures w.disk.value.exec < w.nextExec
  {}
}
