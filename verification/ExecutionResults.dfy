/** What the execution protocol promises, for every run over crashes, persist failures, lost
    calls, lost responses and timeouts. */
module ExecutionResults {
  import opened Common
  import opened ExecutionProtocol
  import opened ExecutionSafety

  // ----- The history only grows -----

  ghost predicate Grows(w: World, w': World) {
    && w.sent <= w'.sent && w.settled <= w'.settled
    && w.accepted <= w'.accepted && w.durable <= w'.durable
  }

  lemma HistoryStep(w: World, ev: Event)
    ensures Grows(w, Next(w, ev))
  {
    hide Acknowledge, Complete, StoreCompletion, StoreBackup, IsRunning;
  }

  lemma {:induction false} HistoryGrows(w: World, events: seq<Event>)
    ensures Grows(w, Run(w, events))
  {
    if events != [] {
      hide Next;
      HistoryGrows(w, Front(events));
      HistoryStep(Run(w, Front(events)), Last(events));
    }
  }

  // ----- One terminal status -----

  /** At most one terminal status is ever sent per execution id, counting sends that were lost. */
  lemma AtMostOneStatus(events: seq<Event>, e: nat)
    ensures var w := Run(INIT, events); !((e, Succeeded) in w.sent && (e, Failed) in w.sent)
  {
    Always(events);
    hide Run;
  }

  /** Once a status is on disk it is the only one sent for that execution, before and after:
      a durable success is never followed by a failure. */
  lemma DurableStatusIsFinal(before: seq<Event>, after: seq<Event>, e: nat, st: Status)
    requires (e, st) in Run(INIT, before).settled
    ensures forall other :: (e, other) in Run(INIT, before + after).sent ==> other == st
  {
    RunAppend(INIT, before, after);
    HistoryGrows(Run(INIT, before), after);
    Always(before + after);
    hide Run, FixedBy;
  }

  /** A completion on disk is settled. */
  ghost predicate DiskSettled(w: World) {
    w.disk.Some? && w.disk.value.completion.Some? ==>
      (w.disk.value.exec, w.disk.value.completion.value.status) in w.settled
  }

  lemma DiskSettledStep(w: World, ev: Event)
    requires DiskSettled(w)
    ensures DiskSettled(Next(w, ev))
  {
    hide Acknowledge, Complete, StoreCompletion, StoreBackup, IsRunning;
  }

  lemma {:induction false} CompletionOnDiskIsSettled(events: seq<Event>)
    ensures DiskSettled(Run(INIT, events))
  {
    if events != [] {
      hide Next, DiskSettled;
      CompletionOnDiskIsSettled(Front(events));
      DiskSettledStep(Run(INIT, Front(events)), Last(events));
    }
  }

  // ----- What the controller records -----

  /** Completed and withdrawn executions stay as they are, and one completed by the agent had its status sent. */
  ghost predicate Records(w: World, w': World) {
    && (forall e :: e in w.store && (w.store[e].Completed? || w.store[e].Withdrawn?) ==>
          e in w'.store && w'.store[e] == w.store[e])
    && (forall e :: e in w'.store && w'.store[e].Completed? && w'.store[e].byAgent ==>
          (e in w.store && w.store[e] == w'.store[e]) || (e, w'.store[e].completion.status) in w'.sent)
  }

  lemma RecoveryRecords(w: World, ev: Event)
    ensures Records(w, NextRecovery(w, ev))
  {}

  lemma PollRecords(w: World, ev: Event)
    requires Inv(w)
    ensures Records(w, NextPoll(w, ev))
  {
    hide HeldAgrees, Uniform, BackupsSafe, Distinct, FixedBy;
  }

  lemma BodyRecords(w: World, ev: Event)
    ensures Records(w, NextBody(w, ev))
  {
    hide StoreCompletion, StoreBackup, RemoveFirstBackup;
  }

  lemma ControllerRecords(w: World, ev: Event)
    ensures Records(w, NextController(w, ev))
  {}

  ghost predicate RecordedWasSent(w: World) {
    forall e :: e in w.store && w.store[e].Completed? && w.store[e].byAgent ==> (e, w.store[e].completion.status) in w.sent
  }

  lemma RecordsStep(w: World, ev: Event)
    requires Inv(w)
    ensures Records(w, Next(w, ev))
  {
    hide NextRecovery, NextPoll, NextBody, NextController, Inv, Records;
    RecoveryRecords(w, ev);
    PollRecords(w, ev);
    BodyRecords(w, ev);
    ControllerRecords(w, ev);
    CrashRecords(w);
  }

  lemma CrashRecords(w: World)
    ensures Records(w, w.(pc := Top))
  {}

  /** Whatever the controller recorded from the agent, the agent sent. */
  lemma {:induction false} RecordedStatusWasSent(events: seq<Event>)
    ensures RecordedWasSent(Run(INIT, events))
  {
    if events != [] {
      hide Next, Inv;
      var w := Run(INIT, Front(events));
      RecordedStatusWasSent(Front(events));
      Always(Front(events));
      RecordsStep(w, Last(events));
      HistoryStep(w, Last(events));
    }
  }

  lemma CompletionKept(w: World, ev: Event, e: nat)
    requires Inv(w) && e in w.store && w.store[e].Completed?
    ensures e in Next(w, ev).store && Next(w, ev).store[e] == w.store[e]
  {
    hide Next, Inv;
    RecordsStep(w, ev);
  }

  /** A completed execution is never completed again with anything else. */
  lemma {:induction false} CompletionNeverOverwritten(before: seq<Event>, after: seq<Event>, e: nat)
    requires e in Run(INIT, before).store && Run(INIT, before).store[e].Completed?
    ensures e in Run(INIT, before + after).store
    ensures Run(INIT, before + after).store[e] == Run(INIT, before).store[e]
  {
    hide Next, Inv;
    if after == [] {
      assert before + after == before;
    } else {
      CompletionNeverOverwritten(before, Front(after), e);
      Always(before + Front(after));
      CompletionKept(Run(INIT, before + Front(after)), Last(after), e);
      assert Front(before + after) == before + Front(after);
    }
  }

  // ----- The life of an execution at the controller -----

  function Entry(store: Store, e: nat): Option<Execution> {
    if e in store then Some(store[e]) else None
  }

  /** The agent asks the controller to accept its record's execution, and the call gets there. */
  predicate Acknowledges(w: World, ev: Event, e: nat) {
    || (ev.AckRecovered? && w.pc.Recovering? && w.pc.r.exec == e && Reached(ev.rpc) && !ev.expired)
    || (ev.Ack? && w.pc.Acknowledging? && w.pc.r.exec == e && Reached(ev.rpc) && !ev.expired)
  }

  /** The agent reports `c` as the outcome of its record's execution, and the call gets there. */
  predicate Reports(w: World, ev: Event, e: nat, c: Completion) {
    || (ev.ReportRecovered? && w.pc.Reporting? && w.pc.r.exec == e && w.pc.r.completion == Some(c) && Reached(ev.rpc))
    || (ev.ReportFinal? && w.pc.SendingFinal? && w.pc.r.exec == e && w.pc.c == c && Reached(ev.rpc))
  }

  /** Everything that may become of an execution, and by what. */
  ghost predicate Moves(w: World, ev: Event, e: nat, x: Option<Execution>, y: Option<Execution>) {
    match x
    case None => y == Some(Offered) && e == w.nextExec && w.pc.Ready? && ev.Pull? && Reached(ev.rpc) && ev.hasTask
    case Some(Offered) => (y == Some(Accepted) && Acknowledges(w, ev, e)) || (y == Some(Withdrawn) && ev == Expire(e))
    case Some(Accepted) => (y == Some(LeaseLost) && ev == Expire(e)) || Outcome(w, ev, e, y)
    case Some(LeaseLost) =>
      || (y == Some(Accepted) && ev == Renew(e))
      || (y == Some(Completed(Completion(Failed, ""), false)) && ev == FailLost(e))
      || Outcome(w, ev, e, y)
    case Some(_) => false
  }

  ghost predicate Outcome(w: World, ev: Event, e: nat, y: Option<Execution>) {
    y.Some? && y.value.Completed? && y.value.byAgent && Reports(w, ev, e, y.value.completion)
  }

  lemma RecoveryMoves(w: World, ev: Event, e: nat)
    requires Inv(w)
    ensures var x, y := Entry(w.store, e), Entry(NextRecovery(w, ev).store, e);
            x != y ==> Moves(w, ev, e, x, y)
  {
    hide Core, HeldAgrees;
  }

  lemma PollMoves(w: World, ev: Event, e: nat)
    requires Inv(w)
    ensures var x, y := Entry(w.store, e), Entry(NextPoll(w, ev).store, e);
            x != y ==> Moves(w, ev, e, x, y)
  {
    Fresh(w);
    hide Core, HeldAgrees;
  }

  lemma BodyMoves(w: World, ev: Event, e: nat)
    ensures var x, y := Entry(w.store, e), Entry(NextBody(w, ev).store, e);
            x != y ==> Moves(w, ev, e, x, y)
  {
    hide StoreCompletion, StoreBackup, RemoveFirstBackup;
  }

  lemma ControllerMoves(w: World, ev: Event, e: nat)
    ensures var x, y := Entry(w.store, e), Entry(NextController(w, ev).store, e);
            x != y ==> Moves(w, ev, e, x, y)
  {}

  lemma EnabledRecovery(w: World, ev: Event, e: nat, y: Option<Execution>)
    requires Moves(w, ev, e, Entry(w.store, e), y) && (ev.AckRecovered? || ev.ReportRecovered?)
    ensures Entry(NextRecovery(w, ev).store, e) == y
  {}

  lemma EnabledMoves(w: World, ev: Event, e: nat, y: Option<Execution>)
    requires Moves(w, ev, e, Entry(w.store, e), y)
    ensures Entry(Next(w, ev).store, e) == y
  {
    if ev.AckRecovered? || ev.ReportRecovered? {
      EnabledRecovery(w, ev, e, y);
    }
    hide NextRecovery, StoreCompletion, StoreBackup, RemoveFirstBackup;
  }

  /** At every step of every run an execution becomes exactly what `Moves` allows, and when it allows
      something that happens: an offer is accepted only in time, a running execution is completed only
      by a report of the agent or given up as failed, and what is withdrawn or completed stays. */
  lemma StoreMovesIff(events: seq<Event>, ev: Event, e: nat)
    ensures var w := Run(INIT, events);
            var x, y := Entry(w.store, e), Entry(Next(w, ev).store, e);
            && (x != y ==> Moves(w, ev, e, x, y))
            && (forall z :: Moves(w, ev, e, x, z) ==> y == z)
  {
    Always(events);
    var w := Run(INIT, events);
    RecoveryMoves(w, ev, e);
    PollMoves(w, ev, e);
    BodyMoves(w, ev, e);
    ControllerMoves(w, ev, e);
    forall z | Moves(w, ev, e, Entry(w.store, e), z) ensures Entry(Next(w, ev).store, e) == z {
      EnabledMoves(w, ev, e, z);
    }
    hide NextRecovery, NextPoll, NextBody, NextController, Inv, Moves, Run;
  }

  lemma Fresh(w: World)
    requires Inv(w)
    ensures FreshIds(w)
  {}

  // ----- Starting and pulling -----

  lemma OtherEvents(w: World, ev: Event)
    ensures ev.PersistMarked? || Next(w, ev).started == w.started
    ensures ev.Pull? || Next(w, ev).nextExec == w.nextExec
  {
    hide Acknowledge, Complete, StoreCompletion, StoreBackup, RemoveFirstBackup, IsRunning;
  }

  lemma StartStep(w: World, ev: Event)
    requires Inv(w) && Next(w, ev).started != w.started
    ensures w.pc.Marking? && ev.PersistMarked? && ev.write.Installed?
    ensures Next(w, ev).started == w.started + [w.pc.r.exec] && w.pc.r.exec !in w.started
    ensures Next(w, ev).disk == Some(w.pc.r.(acked := true))
  {
    OtherEvents(w, ev);
    hide Core, BodyAgrees, FixedBy, NextRecovery, NextBody, NextController;
  }

  /** A task body starts at most once per execution id. */
  lemma BodyStartsOnce(events: seq<Event>)
    ensures Distinct(Run(INIT, events).started)
  {
    Always(events);
    hide Run, Next;
  }

  /** ... and a step that starts one leaves an acknowledged record for it on disk. */
  lemma BodyStartsAcknowledged(events: seq<Event>, ev: Event)
    requires Next(Run(INIT, events), ev).started != Run(INIT, events).started
    ensures var w := Run(INIT, events); var w' := Next(w, ev);
            && w'.disk.Some? && w'.disk.value.acked && w'.disk.value.completion.None?
            && w'.started == w.started + [w'.disk.value.exec]
            && w'.disk.value.exec !in w.started
  {
    hide Run;
    Always(events);
    var w := Run(INIT, events);
    StartStep(w, ev);
    assert WellFormed(w.pc.r);
    hide Next;
  }

  lemma PullStepHoldsNothing(w: World, ev: Event)
    requires Inv(w) && Next(w, ev).nextExec != w.nextExec
    ensures w.disk.None? && Held(w.pc).None?
  {
    OtherEvents(w, ev);
    hide Core, BodyAgrees, FixedBy, NextRecovery, NextBody, NextController;
    assert w.pc.Ready?;
  }

  /** A new execution is only offered to an agent that holds no record, in memory or on disk. */
  lemma PullsWithoutRecord(events: seq<Event>, ev: Event)
    requires Next(Run(INIT, events), ev).nextExec != Run(INIT, events).nextExec
    ensures Run(INIT, events).disk.None? && Held(Run(INIT, events).pc).None?
  {
    hide Run, Next;
    Always(events);
    PullStepHoldsNothing(Run(INIT, events), ev);
  }

  // ----- Recovery -----

  /** The agent is recovering the execution `e`, whose record is on disk. */
  ghost predicate Recovers(w: World, e: nat) {
    && w.disk.Some? && w.disk.value.exec == e
    && !InBody(w.pc) && !w.pc.Acknowledging? && !w.pc.Marking?
  }

  lemma RecoveryStep(w: World, ev: Event, e: nat)
    requires Inv(w) && Recovers(w, e)
    ensures Next(w, ev).started == w.started && Next(w, ev).nextExec == w.nextExec
    ensures Next(w, ev).disk.Some? ==> Recovers(Next(w, ev), e)
  {
    hide Core, FixedBy, Acknowledge, Complete, StoreCompletion, StoreBackup, IsRunning;
  }

  /** The file holds a record at the end of every prefix of the run. */
  ghost predicate RecordThroughout(events: seq<Event>, n: nat)
    requires n <= |events|
  {
    Run(INIT, events).disk.Some? && (|events| == n || RecordThroughout(Front(events), n))
  }

  /** After a crash at any point, nothing is started and nothing is pulled for as long as the
      record stays on disk, through any number of further crashes. */
  lemma {:induction false} NothingStartsWhileRecordRemains(before: seq<Event>, after: seq<Event>)
    requires RecordThroughout(before + [Crash] + after, |before|)
    ensures var w := Run(INIT, before); var w' := Run(INIT, before + [Crash] + after);
            && w.disk.Some? && w'.started == w.started && w'.nextExec == w.nextExec
            && Recovers(w', w.disk.value.exec)
  {
    hide Inv;
    if after == [] {
      assert before + [Crash] + after == before + [Crash];
      assert Front(before + [Crash]) == before;
    } else {
      hide Next, Recovers;
      var events := before + [Crash] + Front(after);
      assert Front(before + [Crash] + after) == events;
      NothingStartsWhileRecordRemains(before, Front(after));
      Always(events);
      RecoveryStep(Run(INIT, events), Last(after), Run(INIT, before).disk.value.exec);
    }
  }

  // ----- Backup results -----

  /** Executions for which a terminal status was sent have no backup result outstanding. */
  ghost predicate SentAfterBackups(w: World) {
    forall e, st, b :: (e, st) in w.sent && (e, b) in w.durable ==> (e, b) in w.accepted
  }

  lemma SendsAfterBackups(w: World, ev: Event, e: nat, st: Status, b: Backup)
    requires Inv(w) && (e, st) in Next(w, ev).sent && (e, st) !in w.sent
    requires (e, b) in w.durable
    ensures (e, b) in w.accepted
  {
    hide FreshIds, Uniform, FixedBy, Acknowledge, Complete, StoreCompletion, StoreBackup;
  }

  lemma RecoveryAddsNoResult(w: World, ev: Event, x: (nat, Backup))
    requires Inv(w) && x in NextRecovery(w, ev).durable
    ensures x in w.durable
  {
    hide Core, BodyAgrees, FixedBy, Acknowledge, Complete;
    if Held(w.pc).Some? {
      assert |Held(w.pc).value.backups| <= 1;
    }
  }

  lemma DurableBeforeSend(w: World, ev: Event, e: nat, st: Status, b: Backup)
    requires Inv(w) && (e, b) in Next(w, ev).durable && (e, b) !in w.durable
    ensures (e, st) !in w.sent && Next(w, ev).sent == w.sent
  {
    if (e, b) in NextRecovery(w, ev).durable {
      RecoveryAddsNoResult(w, ev, (e, b));
    }
    hide NextRecovery, Core, FixedBy, Untouched, Acknowledge, Complete, Reached;
  }

  /** In every run, a terminal status that was sent, even once, even in vain, comes after the
      acceptance of every backup result that reached the disk for the same execution. */
  lemma {:induction false} BackupsBeforeCompletion(events: seq<Event>)
    ensures SentAfterBackups(Run(INIT, events))
  {
    if events != [] {
      hide Next, Inv;
      var w, ev := Run(INIT, Front(events)), Last(events);
      Always(Front(events));
      BackupsBeforeCompletion(Front(events));
      HistoryStep(w, ev);
      forall e, st, b | (e, st) in Next(w, ev).sent && (e, b) in Next(w, ev).durable
        ensures (e, b) in Next(w, ev).accepted
      {
        if (e, b) !in w.durable {
          DurableBeforeSend(w, ev, e, st, b);
        } else if (e, st) !in w.sent {
          SendsAfterBackups(w, ev, e, st, b);
        }
      }
    }
  }

  /** The agent sends `b` for its record's execution, and the call gets there. */
  predicate Delivers(w: World, ev: Event, e: nat, b: Backup) {
    || (ev.SendBackup? && w.pc.SendingBackup? && w.pc.r.exec == e && w.pc.b == b && Reached(ev.rpc) && !ev.conflict)
    || (ev.SendRecovered? && w.pc.Draining? && w.pc.r.exec == e && w.pc.r.backups != [] && w.pc.r.backups[0] == b
        && Reached(ev.rpc) && !ev.conflict)
  }

  lemma RecoveryAccepts(w: World, ev: Event, e: nat, b: Backup)
    requires (e, b) !in w.accepted
    ensures (e, b) in NextRecovery(w, ev).accepted <==>
              Delivers(w, ev, e, b) && ev.SendRecovered? && e in w.store && (w.store[e].Accepted? || w.store[e].LeaseLost?)
  {
    hide Acknowledge, Complete;
  }

  lemma BodyAccepts(w: World, ev: Event, e: nat, b: Backup)
    requires (e, b) !in w.accepted
    ensures (e, b) in NextBody(w, ev).accepted <==>
              Delivers(w, ev, e, b) && ev.SendBackup? && e in w.store && (w.store[e].Accepted? || w.store[e].LeaseLost?)
  {
    hide Complete, StoreCompletion, StoreBackup, RemoveFirstBackup;
  }

  /** The controller accepts a backup result exactly when the agent that holds it sends it, the call
      gets there, the execution still runs, and no other result of the same data contradicts it. */
  lemma AcceptsIff(events: seq<Event>, ev: Event, e: nat, b: Backup)
    requires (e, b) !in Run(INIT, events).accepted
    ensures var w := Run(INIT, events);
            (e, b) in Next(w, ev).accepted <==>
              Delivers(w, ev, e, b) && e in w.store && (w.store[e].Accepted? || w.store[e].LeaseLost?)
  {
    var w := Run(INIT, events);
    RecoveryAccepts(w, ev, e, b);
    BodyAccepts(w, ev, e, b);
    hide Run, NextRecovery, NextBody, Acknowledge;
  }

  /** What a record takes in: the first result of a data name decides, a repeated one changes nothing
      and a different one is refused; an outcome waits for the results and is decided once. */
  lemma RecordTakes(r: Record, b: Backup, c: Completion, k: nat)
    requires k <= |r.backups| && (k < |r.backups| ==> r.backups[k].dataName == b.dataName)
    requires forall j :: 0 <= j < k ==> r.backups[j].dataName != b.dataName
    ensures StoreBackup(r, b) ==
              if k == |r.backups| then Changed(r.(backups := r.backups + [b]))
              else if r.backups[k].status == b.status && r.backups[k].artifact == b.artifact then Unchanged else Refused
    ensures StoreCompletion(r, c).Changed? ==> StoreCompletion(r, c).record == r.(completion := Some(c))
    ensures StoreCompletion(r, c).Changed? <==> r.backups == [] && r.completion.None?
    ensures StoreCompletion(r, c).Unchanged? <==> r.backups == [] && r.completion.Some? && r.completion.value.status == c.status
  {
    FirstIs(r.backups, b.dataName, k);
  }

  lemma {:induction false} FirstIs(backups: seq<Backup>, name: string, k: nat)
    requires k <= |backups| && (k < |backups| ==> backups[k].dataName == name)
    requires forall j :: 0 <= j < k ==> backups[j].dataName != name
    ensures FirstNamed(backups, name) == if k < |backups| then Some(backups[k]) else None
  {
    if k > 0 {
      FirstIs(backups[1..], name, k - 1);
    }
  }

  /** Dropping the first stored result never drops one the controller has not accepted, because
      at most one is ever stored. */
  lemma DropsOnlyAccepted(events: seq<Event>, ev: Event, b: Backup)
    requires var w := Run(INIT, events);
             && Held(w.pc).Some? && Held(Next(w, ev).pc).Some?
             && b in Held(w.pc).value.backups && b !in Held(Next(w, ev).pc).value.backups
    ensures var w := Run(INIT, events);
            |Held(w.pc).value.backups| == 1 && (Held(w.pc).value.exec, b) in w.accepted
  {
    Always(events);
    hide Run, Core, FixedBy, Acknowledge, Complete;
  }

  // ----- Offers that were withdrawn -----

  /** An execution that was never accepted was not started, and nothing marks it as accepted. */
  ghost predicate NotTaken(w: World, e: nat) {
    && e !in w.started
    && (w.disk.Some? && w.disk.value.exec == e ==> !w.disk.value.acked)
    && (Held(w.pc).Some? && Held(w.pc).value.exec == e ==> w.pc.Recovering? || w.pc.Acknowledging?)
  }

  ghost predicate OffersAgree(w: World) {
    && (forall e :: e in w.store && (w.store[e].Offered? || w.store[e].Withdrawn?) ==> NotTaken(w, e))
    && (w.pc.Pulled? ==> w.pc.exec !in w.started)
  }

  lemma OffersStep(w: World, ev: Event)
    requires Inv(w) && OffersAgree(w)
    ensures OffersAgree(Next(w, ev))
  {
    var w' := Next(w, ev);
    hide BackupsSafe, Uniform, FixedBy, Distinct, Complete, StoreCompletion, StoreBackup, RemoveFirstBackup, BodyAgrees;
    forall e | e in w'.store && (w'.store[e].Offered? || w'.store[e].Withdrawn?)
      ensures NotTaken(w', e)
    {
      OfferStep(w, ev, e);
    }
  }

  lemma OfferStep(w: World, ev: Event, e: nat)
    requires Inv(w) && OffersAgree(w)
    requires var w' := Next(w, ev); e in w'.store && (w'.store[e].Offered? || w'.store[e].Withdrawn?)
    ensures NotTaken(Next(w, ev), e)
  {
    if ev.Pull? {
      Fresh(w);
      hide Core, StoreCompletion, StoreBackup, RemoveFirstBackup;
      OfferOrigin(w, ev, e);
    } else {
      OfferOrigin(w, ev, e);
      assert NotTaken(w, e);
      UntakenStep(w, ev, e);
    }
  }

  /** Only a pull offers, and only an offer is withdrawn. */
  lemma OfferOrigin(w: World, ev: Event, e: nat)
    requires var w' := Next(w, ev); e in w'.store && (w'.store[e].Offered? || w'.store[e].Withdrawn?)
    ensures ev.Pull? || (e in w.store && (w.store[e].Offered? || w.store[e].Withdrawn?))
    ensures ev.AckRecovered? && w.pc.Recovering? && w.pc.r.exec == e ==> !Next(w, ev).pc.MarkAccepted?
    ensures ev.Ack? && w.pc.Acknowledging? && w.pc.r.exec == e ==> !Next(w, ev).pc.Marking?
  {
    hide StoreCompletion, StoreBackup, RemoveFirstBackup;
  }

  lemma UntakenStep(w: World, ev: Event, e: nat)
    requires Inv(w) && OffersAgree(w) && NotTaken(w, e) && !ev.Pull?
    requires ev.AckRecovered? && w.pc.Recovering? && w.pc.r.exec == e ==> !Next(w, ev).pc.MarkAccepted?
    requires ev.Ack? && w.pc.Acknowledging? && w.pc.r.exec == e ==> !Next(w, ev).pc.Marking?
    ensures NotTaken(Next(w, ev), e)
  {
    hide OffersAgree, FreshIds, BackupsSafe, Uniform, FixedBy, Distinct, BodyAgrees, Untouched, Acknowledge, Complete, IsRunning;
  }

  lemma {:induction false} OffersAlways(events: seq<Event>)
    ensures OffersAgree(Run(INIT, events))
  {
    if events != [] {
      hide Next, Inv, OffersAgree;
      OffersAlways(Front(events));
      Always(Front(events));
      OffersStep(Run(INIT, Front(events)), Last(events));
    }
  }

  /** Once an offer was withdrawn, because its lease ran out before the agent accepted it, its body
      never starts, before or after, and the controller never records an outcome for it. */
  lemma {:induction false} WithdrawnNeverRuns(before: seq<Event>, after: seq<Event>, e: nat)
    requires e in Run(INIT, before).store && Run(INIT, before).store[e].Withdrawn?
    ensures var w := Run(INIT, before + after);
            e in w.store && w.store[e].Withdrawn? && e !in w.started
  {
    hide Next, Inv;
    OffersAlways(before + after);
    if after == [] {
      assert before + after == before;
    } else {
      WithdrawnNeverRuns(before, Front(after), e);
      Always(before + Front(after));
      assert Front(before + after) == before + Front(after);
      RecordsStep(Run(INIT, before + Front(after)), Last(after));
    }
    assert NotTaken(Run(INIT, before + after), e);
  }

  // ----- Bodies that were cut off -----

  /** Whatever is left of execution `e` can only end in a failure. */
  ghost predicate CutOff(w: World, e: nat) {
    && e < w.nextExec && (e, Succeeded) !in w.sent && (e, Succeeded) !in w.settled
    && (w.disk.Some? && w.disk.value.exec == e && w.disk.value.completion.Some? ==> w.disk.value.completion.value.status.Failed?)
    && (Held(w.pc).Some? && Held(w.pc).value.exec == e ==>
          && !InBody(w.pc) && !w.pc.Acknowledging? && !w.pc.Marking?
          && (Held(w.pc).value.completion.Some? ==> Held(w.pc).value.completion.value.status.Failed?))
    && (w.pc.Pulled? ==> w.pc.exec != e)
  }

  lemma CutOffRecovery(w: World, ev: Event, e: nat)
    requires Inv(w) && CutOff(w, e)
    ensures CutOff(NextRecovery(w, ev), e)
  {
    hide Core, FixedBy, BodyAgrees, Untouched, Acknowledge, Complete, IsRunning;
  }

  lemma CutOffPoll(w: World, ev: Event, e: nat)
    requires Inv(w) && CutOff(w, e)
    ensures CutOff(NextPoll(w, ev), e)
  {
    hide Core, FixedBy, BodyAgrees, Untouched, Acknowledge, Complete, IsRunning;
  }

  lemma CutOffBody(w: World, ev: Event, e: nat)
    requires Inv(w) && CutOff(w, e)
    ensures CutOff(NextBody(w, ev), e)
  {
    hide Core, FixedBy, Untouched, Complete, IsRunning;
  }

  lemma CutOffStep(w: World, ev: Event, e: nat)
    requires Inv(w) && CutOff(w, e)
    ensures CutOff(Next(w, ev), e)
  {
    CutOffRecovery(w, ev, e);
    CutOffPoll(w, ev, e);
    CutOffBody(w, ev, e);
    hide NextRecovery, NextPoll, NextBody, Inv;
  }

  lemma {:induction false} CutOffStays(before: seq<Event>, after: seq<Event>, e: nat)
    requires CutOff(Run(INIT, before), e)
    ensures CutOff(Run(INIT, before + after), e)
  {
    hide Next, Inv, CutOff;
    if after == [] {
      assert before + after == before;
    } else {
      CutOffStays(before, Front(after), e);
      Always(before + Front(after));
      assert Front(before + after) == before + Front(after);
      CutOffStep(Run(INIT, before + Front(after)), Last(after), e);
    }
  }

  /** An execution whose record holds no outcome when the agent crashes never succeeds: no success
      is sent, made durable or recorded for it in any continuation. */
  lemma CutOffNeverSucceeds(before: seq<Event>, after: seq<Event>)
    requires Run(INIT, before).disk.Some? && Run(INIT, before).disk.value.completion.None?
    ensures var e := Run(INIT, before).disk.value.exec; var w := Run(INIT, before + [Crash] + after);
            && (e, Succeeded) !in w.sent && (e, Succeeded) !in w.settled
            && !(e in w.store && w.store[e].Completed? && w.store[e].byAgent && w.store[e].completion.status.Succeeded?)
  {
    var w, e := Run(INIT, before), Run(INIT, before).disk.value.exec;
    Always(before);
    assert Front(before + [Crash]) == before;
    assert CutOff(Run(INIT, before + [Crash]), e) by { hide PcAgrees, HeldAgrees; }
    hide Run, Inv;
    CutOffStays(before + [Crash], after, e);
    RecordedStatusWasSent(before + [Crash] + after);
  }

  /** While a body is at work its record holds no outcome, none was sent or made durable, and
      between two of its steps no backup result is outstanding. */
  lemma BodyHasNoOutcome(events: seq<Event>)
    requires var pc := Run(INIT, events).pc;
             (pc.Running? && pc.stage == 0) || pc.SendingBackup? || pc.BackupDelivered?
    ensures var w := Run(INIT, events);
            && Held(w.pc).value.completion.None?
            && (w.pc.Running? && w.pc.open ==> w.pc.r.backups == [])
            && (forall st :: (Held(w.pc).value.exec, st) !in w.sent && (Held(w.pc).value.exec, st) !in w.settled)
  {
    Always(events);
    hide Run, Core, BodyAgrees;
  }
}
