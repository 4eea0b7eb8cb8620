/** Crash-safe task execution as one state machine: an agent that persists a record of the
    task it runs, the file that survives its crashes, and the controller's execution store.
    Agent: internal/app/agent/task_execution.go, task_lifecycle.go and run.go; store:
    internal/platform/store/tasks.go. */
module ExecutionProtocol {
  import opened Common

  datatype Status = Succeeded | Failed

  datatype Completion = Completion(status: Status, summary: string)

  datatype Backup = Backup(dataName: string, status: Status, artifact: string)

  /** The persisted record of one execution; `exec` is the execution id. */
  datatype Record = Record(exec: nat, acked: bool, completion: Option<Completion>, backups: seq<Backup>)

  const RESTARTED := Completion(Failed, "agent restarted during an accepted task execution; outcome may be partial")

  // ----- The runtime's guarded updates -----

  /** What a guarded update of the in-memory record does before anything is persisted. */
  datatype Update = Refused | Unchanged | Changed(record: Record)

  function StoreCompletion(r: Record, c: Completion): Update {
    if r.backups != [] then Refused
    else if r.completion.Some? then
      if r.completion.value.status != c.status then Refused else Unchanged
    else Changed(r.(completion := Some(c)))
  }

  /** The first stored result with the same data name decides; otherwise the new one is added. */
  function StoreBackup(r: Record, b: Backup): Update {
    var same := FirstNamed(r.backups, b.dataName);
    if same.Some? then
      if same.value.status != b.status || same.value.artifact != b.artifact then Refused else Unchanged
    else Changed(r.(backups := r.backups + [b]))
  }

  function FirstNamed(backups: seq<Backup>, name: string): Option<Backup> {
    if backups == [] then None
    else if backups[0].dataName == name then Some(backups[0])
    else FirstNamed(backups[1..], name)
  }

  function RemoveFirstBackup(r: Record): Update {
    if r.backups == [] then Unchanged else Changed(r.(backups := r.backups[1..]))
  }

  // ----- The controller's store -----

  datatype Execution =
    | Offered
    | Accepted
    | LeaseLost
    | Withdrawn
    | Completed(completion: Completion, byAgent: bool)

  type Store = map<nat, Execution>

  /** AcknowledgeTaskExecution: an accepted execution, or an offer whose lease still runs. */
  function Acknowledge(store: Store, e: nat, expired: bool): (Store, bool) {
    if e in store && (store[e].Accepted? || (store[e].Offered? && !expired)) then (store[e := Accepted], true)
    else (store, false)
  }

  function IsRunning(store: Store, e: nat): bool {
    e in store && (store[e].Accepted? || store[e].LeaseLost?)
  }

  /** CompleteTaskExecution: completes a running execution; a completed one accepts only the
      same status with the same summary again. */
  function Complete(store: Store, e: nat, c: Completion): (Store, bool) {
    if IsRunning(store, e) then (store[e := Completed(c, true)], true)
    else (store, e in store && store[e].Completed? && store[e].completion == c)
  }

  // ----- The world -----

  /** A persist installs the whole record or not at all; installed-but-unsynced is reported
      to the caller as a failure. */
  datatype DiskWrite = Installed | InstalledUnsynced | NotInstalled

  /** A call is answered, or fails on the agent's side after or without reaching the controller. */
  datatype Rpc = Answered | Lost(reached: bool)

  /** Where the agent stands. Every error return drops the runtime, so it goes to Top like a
      crash does. `stage` counts final-status attempts: the body's own, then the timeout
      wrapper's; `open` says the backup loop is still running. */
  datatype Pc =
    | Top
    | Recovering(r: Record)
    | MarkAccepted(r: Record)
    | Draining(r: Record)
    | DropDelivered(r: Record)
    | Reporting(r: Record)
    | Discarding(thenPull: bool)
    | Ready
    | Pulled(exec: nat)
    | Acknowledging(r: Record)
    | Marking(r: Record)
    | Running(r: Record, open: bool, stage: nat)
    | SendingBackup(r: Record, b: Backup)
    | BackupDelivered(r: Record)
    | SendingFinal(r: Record, c: Completion, stage: nat)
    | Clearing(r: Record, stage: nat)

  /** The last six fields are history: executions offered so far, bodies started, terminal
      statuses sent, terminal statuses that reached the disk, backup results that reached
      the disk, and backup results the controller accepted. */
  datatype World = World(
    disk: Option<Record>,
    pc: Pc,
    store: Store,
    nextExec: nat,
    started: seq<nat>,
    sent: set<(nat, Status)>,
    settled: set<(nat, Status)>,
    durable: set<(nat, Backup)>,
    accepted: set<(nat, Backup)>)

  const INIT := World(None, Top, map[], 0, [], {}, {}, {}, {})

  datatype Event =
    | Crash
    // recovery
    | Load
    | AckRecovered(rpc: Rpc, expired: bool)
    | PersistAccepted(write: DiskWrite)
    | SendRecovered(rpc: Rpc, conflict: bool)
    | RemoveRecovered(write: DiskWrite)
    | Resolve(write: DiskWrite)
    | ReportRecovered(rpc: Rpc)
    | Discard(write: DiskWrite)
    // a new task
    | Pull(rpc: Rpc, hasTask: bool)
    | PersistOffer(write: DiskWrite)
    | Ack(rpc: Rpc, expired: bool)
    | PersistMarked(write: DiskWrite)
    // the body and its timeout wrapper
    | RecordBackup(b: Backup, write: DiskWrite)
    | SendBackup(rpc: Rpc, conflict: bool)
    | GiveUpBackup
    | DropBackup(write: DiskWrite)
    | FinishBody(c: Completion, write: DiskWrite)
    | WrapperFails(summary: string, write: DiskWrite)
    | ReportFinal(rpc: Rpc)
    | Clear(write: DiskWrite)
    // the controller on its own
    | Expire(e: nat)
    | Renew(e: nat)
    | FailLost(e: nat)

  function Install(w: World, r: Record): World {
    w.(disk := Some(r),
       settled := if r.completion.Some? then w.settled + {(r.exec, r.completion.value.status)} else w.settled,
       durable := w.durable + set b | b in r.backups :: (r.exec, b))
  }

  function Persist(w: World, r: Record, write: DiskWrite): World {
    if write.NotInstalled? then w else Install(w, r)
  }

  function Unlink(w: World, write: DiskWrite): World {
    if write.NotInstalled? then w else w.(disk := None)
  }

  function Reached(rpc: Rpc): bool { rpc.Answered? || rpc.reached }

  /** The handler accepts a result of a running execution that does not contradict a stored one. */
  function DeliverBackup(w: World, e: nat, b: Backup, rpc: Rpc, conflict: bool): (World, bool) {
    var ok := Reached(rpc) && IsRunning(w.store, e) && !conflict;
    (if ok then w.(accepted := w.accepted + {(e, b)}) else w, ok && rpc.Answered?)
  }

  function SendStatus(w: World, e: nat, c: Completion, rpc: Rpc): (World, bool) {
    var (store, ok) := if Reached(rpc) then Complete(w.store, e, c) else (w.store, false);
    (w.(store := store, sent := w.sent + {(e, c.status)}), ok)
  }

  /** reportTaskCompletion up to the send: the guarded update, then the persist. */
  function AttemptFinal(w: World, c: Completion, write: DiskWrite, stage: nat): World
    requires w.pc.Running?
  {
    match StoreCompletion(w.pc.r, c)
    case Refused => w.(pc := Running(w.pc.r, false, stage))
    case Unchanged => w.(pc := SendingFinal(w.pc.r, c, stage))
    case Changed(r) =>
      Persist(w, r, write).(pc := if write.Installed? then SendingFinal(r, c, stage) else Running(r, false, stage))
  }

  function NextRecovery(w: World, ev: Event): World {
    match (ev, w.pc)
    case (Load, Top) =>
      if w.disk.None? then w.(pc := Ready)
      else
        var r := w.disk.value;
        w.(pc := if r.completion.None? && !r.acked then Recovering(r) else Draining(r))
    case (AckRecovered(rpc, expired), Recovering(r)) =>
      var (store, ok) := if Reached(rpc) then Acknowledge(w.store, r.exec, expired) else (w.store, false);
      w.(store := store,
         pc := if !rpc.Answered? then Top else if ok then MarkAccepted(r) else Discarding(true))
    case (PersistAccepted(write), MarkAccepted(r)) =>
      var r' := r.(acked := true);
      Persist(w, r', write).(pc := if write.Installed? then Draining(r') else Top)
    case (SendRecovered(rpc, conflict), Draining(r)) =>
      if r.backups == [] then w
      else
        var (w', ok) := DeliverBackup(w, r.exec, r.backups[0], rpc, conflict);
        w'.(pc := if ok then DropDelivered(r) else Top)
    case (RemoveRecovered(write), DropDelivered(r)) =>
      if r.backups == [] then w
      else
        var r' := r.(backups := r.backups[1..]);
        Persist(w, r', write).(pc := if write.Installed? then Draining(r') else Top)
    case (Resolve(write), Draining(r)) =>
      if r.backups != [] then w
      else if r.completion.Some? then w.(pc := Reporting(r))
      else
        var r' := r.(completion := Some(RESTARTED));
        Persist(w, r', write).(pc := if write.Installed? then Reporting(r') else Top)
    case (ReportRecovered(rpc), Reporting(r)) =>
      if r.completion.None? then w
      else
        var (w', _) := SendStatus(w, r.exec, r.completion.value, rpc);
        w'.(pc := if rpc.Answered? then Discarding(true) else Top)
    case (Discard(write), Discarding(thenPull)) =>
      Unlink(w, write).(pc := if write.Installed? && thenPull then Ready else Top)
    case _ => w
  }

  function NextPoll(w: World, ev: Event): World {
    match (ev, w.pc)
    case (Pull(rpc, hasTask), Ready) =>
      if !Reached(rpc) || !hasTask then w.(pc := Top)
      else
        w.(store := w.store[w.nextExec := Offered], nextExec := w.nextExec + 1,
           pc := if rpc.Answered? then Pulled(w.nextExec) else Top)
    case (PersistOffer(write), Pulled(e)) =>
      var r := Record(e, false, None, []);
      Persist(w, r, write).(pc := if write.Installed? then Acknowledging(r) else Top)
    case (Ack(rpc, expired), Acknowledging(r)) =>
      var (store, ok) := if Reached(rpc) then Acknowledge(w.store, r.exec, expired) else (w.store, false);
      w.(store := store,
         pc := if !rpc.Answered? then Top else if ok then Marking(r) else Discarding(false))
    case (PersistMarked(write), Marking(r)) =>
      var r' := r.(acked := true);
      var w' := Persist(w, r', write);
      if write.Installed? then w'.(pc := Running(r', true, 0), started := w.started + [r.exec])
      else w'.(pc := Top)
    case _ => w
  }

  function NextBody(w: World, ev: Event): World {
    match (ev, w.pc)
    case (RecordBackup(b, write), Running(r, true, 0)) =>
      (match StoreBackup(r, b)
       case Refused => w.(pc := Running(r, false, 0))
       case Unchanged => w.(pc := SendingBackup(r, b))
       case Changed(r') =>
         Persist(w, r', write).(pc := if write.Installed? then SendingBackup(r', b) else Running(r', false, 0)))
    case (SendBackup(rpc, conflict), SendingBackup(r, b)) =>
      var (w', ok) := DeliverBackup(w, r.exec, b, rpc, conflict);
      if ok then w'.(pc := BackupDelivered(r)) else w'
    case (GiveUpBackup, SendingBackup(r, _)) =>
      w.(pc := Running(r, false, 0))
    case (DropBackup(write), BackupDelivered(r)) =>
      (match RemoveFirstBackup(r)
       case Changed(r') => Persist(w, r', write).(pc := Running(r', write.Installed?, 0))
       case _ => w.(pc := Running(r, true, 0)))
    case (FinishBody(c, write), Running(_, _, stage)) =>
      if stage > 0 then w else AttemptFinal(w, c, write, 1)
    case (WrapperFails(summary, write), Running(_, _, stage)) =>
      if stage > 1 then w else AttemptFinal(w, Completion(Failed, summary), write, 2)
    case (ReportFinal(rpc), SendingFinal(r, c, stage)) =>
      var (w', ok) := SendStatus(w, r.exec, c, rpc);
      w'.(pc := if rpc.Answered? && ok then Clearing(r, stage) else Running(r, false, stage))
    case (Clear(write), Clearing(r, stage)) =>
      Unlink(w, write).(pc := Running(r, false, stage))
    case _ => w
  }

  function NextController(w: World, ev: Event): World {
    match ev
    case Expire(e) =>
      if e in w.store && w.store[e].Offered? then w.(store := w.store[e := Withdrawn])
      else if e in w.store && w.store[e].Accepted? then w.(store := w.store[e := LeaseLost])
      else w
    case Renew(e) =>
      if IsRunning(w.store, e) then w.(store := w.store[e := Accepted]) else w
    case FailLost(e) =>
      if e in w.store && w.store[e].LeaseLost? then w.(store := w.store[e := Completed(Completion(Failed, ""), false)]) else w
    case _ => w
  }

  /** One step; an event that is not enabled changes nothing. */
  function Next(w: World, ev: Event): World {
    match ev
    case Crash => w.(pc := Top)
    case Expire(_) => NextController(w, ev)
    case Renew(_) => NextController(w, ev)
    case FailLost(_) => NextController(w, ev)
    case Pull(_, _) => NextPoll(w, ev)
    case PersistOffer(_) => NextPoll(w, ev)
    case Ack(_, _) => NextPoll(w, ev)
    case PersistMarked(_) => NextPoll(w, ev)
    case RecordBackup(_, _) => NextBody(w, ev)
    case SendBackup(_, _) => NextBody(w, ev)
    case GiveUpBackup => NextBody(w, ev)
    case DropBackup(_) => NextBody(w, ev)
    case FinishBody(_, _) => NextBody(w, ev)
    case WrapperFails(_, _) => NextBody(w, ev)
    case ReportFinal(_) => NextBody(w, ev)
    case Clear(_) => NextBody(w, ev)
    case _ => NextRecovery(w, ev)
  }

  function Run(w: World, events: seq<Event>): World {
    if events == [] then w else Next(Run(w, Front(events)), Last(events))
  }

  lemma {:induction false} RunAppend(w: World, xs: seq<Event>, ys: seq<Event>)
    ensures Run(w, xs + ys) == Run(Run(w, xs), ys)
  {
    hide Next;
    if ys == [] {
      assert xs + ys == xs;
    } else {
      RunAppend(w, xs, Front(ys));
      assert Front(xs + ys) == xs + Front(ys);
    }
  }
}
