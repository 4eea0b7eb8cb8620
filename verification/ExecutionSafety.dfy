/** What every run of the execution protocol keeps, over all crashes, persist failures,
    lost calls, lost responses and timeouts. */
module ExecutionSafety {
  import opened Common
  import opened ExecutionProtocol

  // ----- The invariant -----

  /** The record the agent holds in memory, if any. */
  function Held(pc: Pc): Option<Record> {
    match pc
    case Recovering(r) => Some(r)
    case MarkAccepted(r) => Some(r)
    case Draining(r) => Some(r)
    case DropDelivered(r) => Some(r)
    case Reporting(r) => Some(r)
    case Acknowledging(r) => Some(r)
    case Marking(r) => Some(r)
    case Running(r, _, _) => Some(r)
    case SendingBackup(r, _) => Some(r)
    case BackupDelivered(r) => Some(r)
    case SendingFinal(r, _, _) => Some(r)
    case Clearing(r, _) => Some(r)
    case _ => None
  }

  predicate InBody(pc: Pc) {
    pc.Running? || pc.SendingBackup? || pc.BackupDelivered? || pc.SendingFinal? || pc.Clearing?
  }

  predicate WellFormed(r: Record) {
    && |r.backups| <= 1
    && (r.completion.Some? ==> r.backups == [])
    && (!r.acked ==> r.completion.None? && r.backups == [])
  }

  /** Execution ids beyond `nextExec` have no trace anywhere. */
  ghost predicate FreshIds(w: World) {
    && (forall e :: e in w.store ==> e < w.nextExec)
    && (forall e :: e in w.started ==> e < w.nextExec)
    && (forall x :: x in w.sent ==> x.0 < w.nextExec)
    && (forall x :: x in w.settled ==> x.0 < w.nextExec)
    && (forall x :: x in w.durable ==> x.0 < w.nextExec)
  }

  /** The memory of a running body against the disk: the file lags behind by at most what a
      failed persist left out, and is gone only after the final report. */
  ghost predicate BodyAgrees(w: World, r: Record) {
    && r.acked && r.exec in w.started
    && (r.completion.None? ==> w.disk.Some?)
    && (w.disk.Some? ==>
          var d := w.disk.value;
          && d.exec == r.exec && d.acked
          && (d.completion.None? || d.completion == r.completion)
          && forall b :: b in d.backups ==> b in r.backups || (r.exec, b) in w.accepted)
  }

  ghost predicate PcAgrees(w: World) {
    match w.pc
    case Top => true
    case Recovering(r) => w.disk == Some(r) && !r.acked
    case MarkAccepted(r) => w.disk == Some(r) && !r.acked
    case Draining(r) => w.disk == Some(r) && r.acked
    case DropDelivered(r) => w.disk == Some(r) && r.acked && r.backups != [] && (r.exec, r.backups[0]) in w.accepted
    case Reporting(r) => w.disk == Some(r) && r.acked && r.completion.Some?
    case Discarding(_) => w.disk.Some? ==> w.disk.value.backups == []
    case Ready => w.disk.None?
    case Pulled(e) => w.disk.None? && Untouched(w, e)
    case Acknowledging(r) => w.disk == Some(r) && !r.acked && Untouched(w, r.exec)
    case Marking(r) => w.disk == Some(r) && !r.acked && Untouched(w, r.exec)
    case Running(r, open, stage) =>
      BodyAgrees(w, r) && (stage == 0 ==> r.completion.None?) && (open ==> r.backups == [])
    case SendingBackup(r, b) => BodyAgrees(w, r) && r.completion.None? && r.backups == [b]
    case BackupDelivered(r) =>
      BodyAgrees(w, r) && r.completion.None? && |r.backups| == 1 && (r.exec, r.backups[0]) in w.accepted
    case SendingFinal(r, c, stage) =>
      && BodyAgrees(w, r) && stage > 0
      && r.completion.Some? && r.completion.value.status == c.status
      && (c.status.Succeeded? ==> w.disk.Some? && w.disk.value.completion == r.completion)
    case Clearing(r, stage) => BodyAgrees(w, r) && stage > 0 && r.completion.Some?
  }

  /** Nothing has happened under this execution id but its offer. */
  ghost predicate Untouched(w: World, e: nat) {
    && e !in w.started
    && (forall x :: x in w.sent ==> x.0 != e)
    && (forall x :: x in w.settled ==> x.0 != e)
    && (forall x :: x in w.durable ==> x.0 != e)
  }

  /** Every terminal status sent or made durable for `e` is `st`. */
  ghost predicate Only(w: World, e: nat, st: Status) {
    forall x :: (x in w.sent || x in w.settled) && x.0 == e ==> x.1 == st
  }

  /** Nothing but Failed was sent for `e`, and nothing was made durable. */
  ghost predicate AtMostFailed(w: World, e: nat) {
    && (forall x :: x in w.sent && x.0 == e ==> x.1 == Failed)
    && (forall x :: x in w.settled ==> x.0 != e)
  }

  /** One terminal status per execution. */
  ghost predicate Uniform(w: World) {
    forall x, y :: x in w.sent + w.settled && y in w.sent + w.settled && x.0 == y.0 ==> x.1 == y.1
  }

  /** What was sent and settled for r's execution fits the completion r holds. */
  ghost predicate FixedBy(w: World, r: Record) {
    if r.completion.Some? then Only(w, r.exec, r.completion.value.status) else AtMostFailed(w, r.exec)
  }

  /** A backup result that reached the disk is still there or was accepted. */
  ghost predicate BackupsSafe(w: World) {
    forall x :: x in w.durable ==>
      x in w.accepted || (w.disk.Some? && w.disk.value.exec == x.0 && x.1 in w.disk.value.backups)
  }

  ghost predicate Distinct(xs: seq<nat>) {
    forall i, j :: 0 <= i < j < |xs| ==> xs[i] != xs[j]
  }

  /** The part of the invariant that does not look at where the agent stands. */
  ghost predicate Core(w: World) {
    && FreshIds(w)
    && Uniform(w)
    && BackupsSafe(w)
    && Distinct(w.started)
    && (w.disk.Some? ==> WellFormed(w.disk.value) && w.disk.value.exec < w.nextExec && FixedBy(w, w.disk.value))
  }

  ghost predicate HeldAgrees(w: World) {
    && PcAgrees(w)
    && (w.pc.Pulled? ==> w.pc.exec < w.nextExec)
    && (Held(w.pc).Some? ==> WellFormed(Held(w.pc).value) && Held(w.pc).value.exec < w.nextExec)
    && (InBody(w.pc) ==>
          var r := Held(w.pc).value;
          && FixedBy(w, r)
          && (r.completion.None? ==> forall x :: x in w.sent ==> x.0 != r.exec))
  }

  ghost predicate Inv(w: World) {
    Core(w) && HeldAgrees(w)
  }

  // ----- Persisting keeps the core -----

  /** `r` may replace what is on disk: same execution, no unaccepted result lost, and a
      completion that fits everything sent. */
  ghost predicate MayReplace(w: World, r: Record) {
    && WellFormed(r) && r.exec < w.nextExec && FixedBy(w, r)
    && (w.disk.Some? ==>
          && w.disk.value.exec == r.exec
          && forall b :: b in w.disk.value.backups ==> b in r.backups || (r.exec, b) in w.accepted)
  }

  lemma PersistKeeps(w: World, r: Record, write: DiskWrite, pc: Pc)
    requires Core(w) && MayReplace(w, r)
    ensures var w' := Persist(w, r, write).(pc := pc);
            && Core(w') && FixedBy(w', r)
            && w'.disk == (if write.NotInstalled? then w.disk else Some(r))
            && w'.store == w.store && w'.nextExec == w.nextExec && w'.started == w.started
            && w'.sent == w.sent && w'.accepted == w.accepted
            && (r.completion.None? ==> w'.settled == w.settled)
            && (r.backups == [] ==> w'.durable == w.durable)
  {
    InstallKeeps(w, r, pc);
  }

  lemma InstallKeeps(w: World, r: Record, pc: Pc)
    requires Core(w) && MayReplace(w, r)
    ensures var w' := Install(w, r).(pc := pc);
            Core(w') && FixedBy(w', r) && (r.backups == [] ==> w'.durable == w.durable)
  {
    var w' := Install(w, r).(pc := pc);
    assert forall x :: x in w'.durable ==> x in w.durable || (x.0 == r.exec && x.1 in r.backups);
    assert forall x :: x in w'.settled ==> x in w.settled || (r.completion.Some? && x == (r.exec, r.completion.value.status));
    assert Uniform(w');
    assert BackupsSafe(w');
    if r.backups == [] {
      assert (set b | b in r.backups :: (r.exec, b)) == {};
    }
  }

  // ----- Calls and the controller keep the core -----

  lemma StoreKeeps(w: World, store: Store, pc: Pc)
    requires Core(w) && store.Keys <= w.store.Keys
    ensures Core(w.(store := store, pc := pc))
  {
    var w' := w.(store := store, pc := pc);
    assert Uniform(w') && BackupsSafe(w');
    assert forall e :: e in store ==> e in w.store.Keys;
  }

  lemma SendKeeps(w: World, e: nat, c: Completion, rpc: Rpc, pc: Pc)
    requires Core(w) && e < w.nextExec && Only(w, e, c.status)
    requires w.disk.Some? && w.disk.value.exec == e ==>
               if w.disk.value.completion.Some? then w.disk.value.completion.value.status == c.status else c.status == Failed
    ensures var w' := SendStatus(w, e, c, rpc).0.(pc := pc);
            && Core(w') && Only(w', e, c.status)
            && w'.disk == w.disk && w'.nextExec == w.nextExec && w'.started == w.started && w'.accepted == w.accepted
  {
    var w' := SendStatus(w, e, c, rpc).0.(pc := pc);
    assert forall x :: x in w'.sent ==> x in w.sent || x == (e, c.status);
    assert w'.store.Keys <= w.store.Keys;
    assert BackupsSafe(w') && Uniform(w');
    assert FreshIds(w') by { assert forall k :: k in w'.store ==> k in w.store.Keys; }
  }

  lemma DeliverKeeps(w: World, e: nat, b: Backup, rpc: Rpc, conflict: bool, pc: Pc)
    requires Core(w)
    ensures var (d, ok) := DeliverBackup(w, e, b, rpc, conflict); var w' := d.(pc := pc);
            && Core(w') && w.accepted <= w'.accepted && (ok ==> (e, b) in w'.accepted)
            && w'.disk == w.disk && w'.nextExec == w.nextExec && w'.started == w.started
            && w'.sent == w.sent && w'.settled == w.settled
  {
    var w' := DeliverBackup(w, e, b, rpc, conflict).0.(pc := pc);
    assert BackupsSafe(w') && Uniform(w') && FreshIds(w');
  }

  // ----- Recovery -----

  lemma PersistAcceptedStep(w: World, write: DiskWrite)
    requires Inv(w)
    ensures Inv(NextRecovery(w, PersistAccepted(write)))
  {
    hide Persist, FreshIds, Uniform, BackupsSafe, Distinct;
    if w.pc.MarkAccepted? {
      var r := w.pc.r.(acked := true);
      PersistKeeps(w, r, write, if write.Installed? then Draining(r) else Top);
    }
  }

  lemma RemoveRecoveredStep(w: World, write: DiskWrite)
    requires Inv(w)
    ensures Inv(NextRecovery(w, RemoveRecovered(write)))
  {
    hide Persist, FreshIds, Uniform, BackupsSafe, Distinct;
    if w.pc.DropDelivered? {
      var r := w.pc.r.(backups := w.pc.r.backups[1..]);
      PersistKeeps(w, r, write, if write.Installed? then Draining(r) else Top);
    }
  }

  lemma ResolveStep(w: World, write: DiskWrite)
    requires Inv(w)
    ensures Inv(NextRecovery(w, Resolve(write)))
  {
    if w.pc.Draining? && w.pc.r.backups == [] && w.pc.r.completion.None? {
      hide Persist, FreshIds, Uniform, BackupsSafe, Distinct;
      var r := w.pc.r.(completion := Some(RESTARTED));
      PersistKeeps(w, r, write, if write.Installed? then Reporting(r) else Top);
    }
  }

  lemma SendRecoveredStep(w: World, rpc: Rpc, conflict: bool)
    requires Inv(w)
    ensures Inv(NextRecovery(w, SendRecovered(rpc, conflict)))
  {
    hide DeliverBackup, FreshIds, Uniform, BackupsSafe, Distinct;
    if w.pc.Draining? && w.pc.r.backups != [] {
      var r := w.pc.r;
      DeliverKeeps(w, r.exec, r.backups[0], rpc, conflict, DropDelivered(r));
      DeliverKeeps(w, r.exec, r.backups[0], rpc, conflict, Top);
    }
  }

  lemma ReportRecoveredStep(w: World, rpc: Rpc)
    requires Inv(w)
    ensures Inv(NextRecovery(w, ReportRecovered(rpc)))
  {
    hide SendStatus, FreshIds, Uniform, BackupsSafe, Distinct;
    if w.pc.Reporting? {
      var r := w.pc.r;
      SendKeeps(w, r.exec, r.completion.value, rpc, if rpc.Answered? then Discarding(true) else Top);
    }
  }

  lemma AckRecoveredStep(w: World, rpc: Rpc, expired: bool)
    requires Inv(w)
    ensures Inv(NextRecovery(w, AckRecovered(rpc, expired)))
  {
    hide FreshIds, Uniform, BackupsSafe, Distinct;
    if w.pc.Recovering? {
      var r := w.pc.r;
      var (store, ok) := if Reached(rpc) then Acknowledge(w.store, r.exec, expired) else (w.store, false);
      StoreKeeps(w, store, if !rpc.Answered? then Top else if ok then MarkAccepted(r) else Discarding(true));
    }
  }

  lemma LoadStep(w: World)
    requires Inv(w)
    ensures Inv(NextRecovery(w, Load))
  {
    hide FreshIds, Uniform, BackupsSafe, Distinct;
    if w.pc.Top? {
      StoreKeeps(w, w.store, NextRecovery(w, Load).pc);
    }
  }

  lemma UnlinkKeeps(w: World, write: DiskWrite, pc: Pc)
    requires Core(w)
    requires w.disk.Some? ==> forall b :: b in w.disk.value.backups ==> (w.disk.value.exec, b) in w.accepted
    ensures var w' := Unlink(w, write).(pc := pc);
            && Core(w')
            && w'.disk == (if write.NotInstalled? then w.disk else None)
            && w'.nextExec == w.nextExec && w'.started == w.started && w'.sent == w.sent
            && w'.settled == w.settled && w'.accepted == w.accepted
  {
    var w' := Unlink(w, write).(pc := pc);
    assert BackupsSafe(w') && Uniform(w') && FreshIds(w');
  }

  lemma DiscardStep(w: World, write: DiskWrite)
    requires Inv(w)
    ensures Inv(NextRecovery(w, Discard(write)))
  {
    hide Unlink, FreshIds, Uniform, BackupsSafe, Distinct;
    if w.pc.Discarding? {
      UnlinkKeeps(w, write, if write.Installed? && w.pc.thenPull then Ready else Top);
    }
  }

  lemma RecoveryStep(w: World, ev: Event)
    requires Inv(w)
    ensures Inv(NextRecovery(w, ev))
  {
    hide Inv;
    match ev
    case PersistAccepted(write) => PersistAcceptedStep(w, write);
    case RemoveRecovered(write) => RemoveRecoveredStep(w, write);
    case Resolve(write) => ResolveStep(w, write);
    case SendRecovered(rpc, conflict) => SendRecoveredStep(w, rpc, conflict);
    case ReportRecovered(rpc) => ReportRecoveredStep(w, rpc);
    case Load => LoadStep(w);
    case AckRecovered(rpc, expired) => AckRecoveredStep(w, rpc, expired);
    case Discard(write) => DiscardStep(w, write);
    case _ =>
  }

  // ----- A new task -----

  lemma PersistOfferStep(w: World, write: DiskWrite)
    requires Inv(w)
    ensures Inv(NextPoll(w, PersistOffer(write)))
  {
    hide Persist, FreshIds, Uniform, BackupsSafe, Distinct;
    if w.pc.Pulled? {
      var r := Record(w.pc.exec, false, None, []);
      PersistKeeps(w, r, write, if write.Installed? then Acknowledging(r) else Top);
    }
  }

  lemma PersistMarkedStep(w: World, write: DiskWrite)
    requires Inv(w)
    ensures Inv(NextPoll(w, PersistMarked(write)))
  {
    hide Persist, FreshIds, Uniform, BackupsSafe;
    if w.pc.Marking? {
      var r := w.pc.r.(acked := true);
      PersistKeeps(w, r, write, if write.Installed? then Running(r, true, 0) else Top);
      if write.Installed? {
        StartKeeps(Persist(w, r, write).(pc := Running(r, true, 0)), r.exec);
      }
    }
  }

  lemma StartKeeps(w: World, e: nat)
    requires Core(w) && e < w.nextExec && e !in w.started
    ensures Core(w.(started := w.started + [e]))
  {
    var w' := w.(started := w.started + [e]);
    assert BackupsSafe(w') && Uniform(w') && FreshIds(w');
    assert w.disk.Some? ==> FixedBy(w', w.disk.value);
  }

  lemma AckStep(w: World, rpc: Rpc, expired: bool)
    requires Inv(w)
    ensures Inv(NextPoll(w, Ack(rpc, expired)))
  {
    hide FreshIds, Uniform, BackupsSafe, Distinct;
    if w.pc.Acknowledging? {
      var r := w.pc.r;
      var (store, ok) := if Reached(rpc) then Acknowledge(w.store, r.exec, expired) else (w.store, false);
      StoreKeeps(w, store, if !rpc.Answered? then Top else if ok then Marking(r) else Discarding(false));
    }
  }

  lemma PullStep(w: World, rpc: Rpc, hasTask: bool)
    requires Inv(w)
    ensures Inv(NextPoll(w, Pull(rpc, hasTask)))
  {
    var w' := NextPoll(w, Pull(rpc, hasTask));
    assert BackupsSafe(w') && Uniform(w');
    assert w'.disk.Some? ==> FixedBy(w', w'.disk.value);
  }

  lemma PollStep(w: World, ev: Event)
    requires Inv(w)
    ensures Inv(NextPoll(w, ev))
  {
    hide Inv;
    match ev
    case PersistOffer(write) => PersistOfferStep(w, write);
    case PersistMarked(write) => PersistMarkedStep(w, write);
    case Pull(rpc, hasTask) => PullStep(w, rpc, hasTask);
    case Ack(rpc, expired) => AckStep(w, rpc, expired);
    case _ =>
  }

  // ----- The body -----

  lemma RecordBackupStep(w: World, b: Backup, write: DiskWrite)
    requires Inv(w)
    ensures Inv(NextBody(w, RecordBackup(b, write)))
  {
    hide Persist, FreshIds, Uniform, BackupsSafe, Distinct;
    if w.pc.Running? && w.pc.open && w.pc.stage == 0 {
      var r := w.pc.r.(backups := [b]);
      assert w.pc.r.backups + [b] == [b];
      PersistKeeps(w, r, write, if write.Installed? then SendingBackup(r, b) else Running(r, false, 0));
    }
  }

  lemma DropBackupStep(w: World, write: DiskWrite)
    requires Inv(w)
    ensures Inv(NextBody(w, DropBackup(write)))
  {
    hide Persist, FreshIds, Uniform, BackupsSafe, Distinct;
    if w.pc.BackupDelivered? {
      var r := w.pc.r.(backups := w.pc.r.backups[1..]);
      PersistKeeps(w, r, write, Running(r, write.Installed?, 0));
    }
  }

  lemma AttemptFinalStep(w: World, c: Completion, write: DiskWrite, stage: nat)
    requires Inv(w) && w.pc.Running? && stage > 0
    requires w.pc.stage == 0 || c.status.Failed?
    ensures Inv(AttemptFinal(w, c, write, stage))
  {
    hide Persist, FreshIds, Uniform, BackupsSafe, Distinct;
    var r := w.pc.r.(completion := Some(c));
    if StoreCompletion(w.pc.r, c).Changed? {
      PersistKeeps(w, r, write, if write.Installed? then SendingFinal(r, c, stage) else Running(r, false, stage));
    } else {
      StoreKeeps(w, w.store, AttemptFinal(w, c, write, stage).pc);
    }
  }

  lemma SendBackupStep(w: World, rpc: Rpc, conflict: bool)
    requires Inv(w)
    ensures Inv(NextBody(w, SendBackup(rpc, conflict)))
  {
    hide DeliverBackup, FreshIds, Uniform, BackupsSafe, Distinct;
    if w.pc.SendingBackup? {
      DeliverKeeps(w, w.pc.r.exec, w.pc.b, rpc, conflict, BackupDelivered(w.pc.r));
      DeliverKeeps(w, w.pc.r.exec, w.pc.b, rpc, conflict, w.pc);
      assert DeliverBackup(w, w.pc.r.exec, w.pc.b, rpc, conflict).0.pc == w.pc by { DeliverPc(w, w.pc.r.exec, w.pc.b, rpc, conflict); }
    }
  }

  lemma DeliverPc(w: World, e: nat, b: Backup, rpc: Rpc, conflict: bool)
    ensures DeliverBackup(w, e, b, rpc, conflict).0.pc == w.pc
  {}

  lemma ReportFinalStep(w: World, rpc: Rpc)
    requires Inv(w)
    ensures Inv(NextBody(w, ReportFinal(rpc)))
  {
    hide SendStatus, Core, Only, AtMostFailed, WellFormed, Untouched;
    if w.pc.SendingFinal? {
      var r, c, stage := w.pc.r, w.pc.c, w.pc.stage;
      var pc := if rpc.Answered? && SendStatus(w, r.exec, c, rpc).1 then Clearing(r, stage) else Running(r, false, stage);
      SendKeeps(w, r.exec, c, rpc, pc);
    }
  }

  lemma ClearStep(w: World, write: DiskWrite)
    requires Inv(w)
    ensures Inv(NextBody(w, Clear(write)))
  {
    hide Unlink, FreshIds, Uniform, BackupsSafe, Distinct;
    if w.pc.Clearing? {
      UnlinkKeeps(w, write, Running(w.pc.r, false, w.pc.stage));
    }
  }

  lemma BodyStep(w: World, ev: Event)
    requires Inv(w)
    ensures Inv(NextBody(w, ev))
  {
    hide Inv, AttemptFinal;
    match ev
    case RecordBackup(b, write) => RecordBackupStep(w, b, write);
    case SendBackup(rpc, conflict) => SendBackupStep(w, rpc, conflict);
    case DropBackup(write) => DropBackupStep(w, write);
    case FinishBody(c, write) =>
      if w.pc.Running? && w.pc.stage == 0 { AttemptFinalStep(w, c, write, 1); }
    case WrapperFails(summary, write) =>
      if w.pc.Running? && w.pc.stage <= 1 { AttemptFinalStep(w, Completion(Failed, summary), write, 2); }
    case ReportFinal(rpc) => ReportFinalStep(w, rpc);
    case Clear(write) => ClearStep(w, write);
    case GiveUpBackup => GiveUpBackupStep(w);
    case _ =>
  }

  lemma GiveUpBackupStep(w: World)
    requires Inv(w)
    ensures Inv(NextBody(w, GiveUpBackup))
  {}

  lemma ControllerStep(w: World, ev: Event)
    requires Inv(w)
    ensures Inv(NextController(w, ev))
  {
    hide FreshIds, Uniform, BackupsSafe, Distinct;
    var w' := NextController(w, ev);
    assert w'.store.Keys <= w.store.Keys;
    StoreKeeps(w, w'.store, w.pc);
    assert w' == w.(store := w'.store, pc := w.pc);
  }

  lemma Step(w: World, ev: Event)
    requires Inv(w)
    ensures Inv(Next(w, ev))
  {
    hide NextRecovery, NextPoll, NextBody, NextController;
    RecoveryStep(w, ev);
    PollStep(w, ev);
    BodyStep(w, ev);
    ControllerStep(w, ev);
  }

  lemma {:induction false} Always(events: seq<Event>)
    ensures Inv(Run(INIT, events))
  {
    if events != [] {
      hide Next, Inv;
      Always(Front(events));
      Step(Run(INIT, Front(events)), Last(events));
    }
  }
}
