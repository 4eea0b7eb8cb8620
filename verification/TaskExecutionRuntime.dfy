/** The agent's task execution as the code writes it: the state file, the runtime object with
    its guarded updates, recovery, and the driver that pulls and runs a task. Every method
    follows the machine of ExecutionProtocol step by step, so that all it does is a run of
    that machine. */
module TaskExecutionRuntime {
  import opened Common
  import opened ExecutionProtocol
  import opened ExecutionSafety
  import opened ExecutionResults

  // ----- The state file -----

  class StateFile {
    var content: Option<Record>

    constructor ()
      ensures content == None
    {
      content := None;
    }

    method Persist(r: Record, write: DiskWrite) returns (ok: bool)
      modifies this
      ensures content == (if write.NotInstalled? then old(content) else Some(r))
      ensures ok == write.Installed?
    {
      if !write.NotInstalled? {
        content := Some(r);
      }
      ok := write.Installed?;
    }

    /** Removing and archiving leave the same state behind: no record. */
    method Remove(write: DiskWrite) returns (ok: bool)
      modifies this
      ensures content == (if write.NotInstalled? then old(content) else None)
      ensures ok == write.Installed?
    {
      if !write.NotInstalled? {
        content := None;
      }
      ok := write.Installed?;
    }
  }

  // ----- The runtime -----

  class Runtime {
    const file: StateFile
    var state: Record

    constructor (file: StateFile, state: Record)
      ensures this.file == file && this.state == state
    {
      this.file, this.state := file, state;
    }

    /** What an update leaves behind: memory changes first, so a failed persist leaves the
        file behind the memory. */
    twostate predicate Applies(u: Update, write: DiskWrite, ok: bool)
      reads this, file
    {
      match u
      case Refused => !ok && state == old(state) && file.content == old(file.content)
      case Unchanged => ok && state == old(state) && file.content == old(file.content)
      case Changed(r) =>
        && ok == write.Installed? && state == r
        && file.content == (if write.NotInstalled? then old(file.content) else Some(r))
    }

    method StoreCompletion(c: Completion, write: DiskWrite) returns (ok: bool)
      modifies this, file
      ensures Applies(ExecutionProtocol.StoreCompletion(old(state), c), write, ok)
    {
      if |state.backups| > 0 {
        return false;
      }
      if state.completion.Some? {
        return state.completion.value.status == c.status;
      }
      state := state.(completion := Some(c));
      ok := file.Persist(state, write);
    }

    method StoreBackupResult(b: Backup, write: DiskWrite) returns (ok: bool)
      modifies this, file
      ensures Applies(StoreBackup(old(state), b), write, ok)
    {
      for i := 0 to |state.backups|
        invariant state == old(state) && file.content == old(file.content)
        invariant FirstNamed(state.backups, b.dataName) == FirstNamed(state.backups[i..], b.dataName)
      {
        var existing := state.backups[i];
        if existing.dataName == b.dataName {
          return existing.status == b.status && existing.artifact == b.artifact;
        }
        assert state.backups[i..][1..] == state.backups[i+1..];
      }
      state := state.(backups := state.backups + [b]);
      ok := file.Persist(state, write);
    }

    method RemoveFirstBackupResult(write: DiskWrite) returns (ok: bool)
      modifies this, file
      ensures Applies(RemoveFirstBackup(old(state)), write, ok)
    {
      if state.backups == [] {
        return true;
      }
      state := state.(backups := state.backups[1..]);
      ok := file.Persist(state, write);
    }
  }

  // ----- The controller's store -----

  class Controller {
    var store: Store
    var nextExec: nat

    constructor ()
      ensures store == map[] && nextExec == 0
    {
      store, nextExec := map[], 0;
    }

    method PullNextTask() returns (e: nat)
      modifies this
      ensures e == old(nextExec) && nextExec == e + 1 && store == old(store)[e := Offered]
    {
      e := nextExec;
      store := store[e := Offered];
      nextExec := nextExec + 1;
    }

    method AcknowledgeTask(e: nat, expired: bool) returns (ok: bool)
      modifies this
      ensures (store, ok) == Acknowledge(old(store), e, expired) && nextExec == old(nextExec)
    {
      if e !in store {
        return false;
      }
      if store[e].Accepted? || (store[e].Offered? && !expired) {
        store := store[e := Accepted];
        return true;
      }
      return false;
    }

    method ReportTaskState(e: nat, c: Completion) returns (ok: bool)
      modifies this
      ensures (store, ok) == Complete(old(store), e, c) && nextExec == old(nextExec)
    {
      if e !in store {
        return false;
      }
      if store[e].Completed? {
        return store[e].completion == c;
      }
      if !IsRunning(store, e) {
        return false;
      }
      store := store[e := Completed(c, true)];
      return true;
    }

    /** A sweep, a lease renewal or an operator giving up on a lost execution. */
    method Act(ev: Event)
      requires ev.Expire? || ev.Renew? || ev.FailLost?
      modifies this
      ensures forall w: World :: w.store == old(store) ==> NextController(w, ev) == w.(store := store)
      ensures nextExec == old(nextExec)
    {
      match ev
      case Expire(e) =>
        if e in store && store[e].Offered? {
          store := store[e := Withdrawn];
        } else if e in store && store[e].Accepted? {
          store := store[e := LeaseLost];
        }
      case Renew(e) =>
        if IsRunning(store, e) {
          store := store[e := Accepted];
        }
      case FailLost(e) =>
        if e in store && store[e].LeaseLost? {
          store := store[e := Completed(Completion(Failed, ""), false)];
        }
    }
  }

  /** How a call ends for the agent: answered, rejected for good, or failed in transit. */
  datatype Reply = Ok | Rejected | Error

  // ----- The agent -----

  /** How often the agent lost its memory. */
  function Crashes(events: seq<Event>): nat {
    if events == [] then 0 else Crashes(Front(events)) + if Last(events).Crash? then 1 else 0
  }

  /** A failed write of a backup result, or a report that ran out of time. */
  predicate Mishap(ev: Event) {
    ev.GiveUpBackup? || ((ev.RecordBackup? || ev.DropBackup?) && !ev.write.Installed?)
  }

  /** The body ends and reports `c`. */
  predicate Finishes(ev: Event, c: Completion) {
    ev.FinishBody? && ev.c == c
  }

  /** A mishap among the events from `n` on. */
  ghost predicate MishapSince(events: seq<Event>, n: nat) {
    exists k :: n <= k < |events| && Mishap(events[k])
  }

  class Agent {
    const file: StateFile
    const controller: Controller
    ghost var history: seq<Event>
    ghost var world: World

    ghost predicate Valid()
      reads this, file, controller
    {
      && world == Run(INIT, history)
      && world.disk == file.content
      && world.store == controller.store && world.nextExec == controller.nextExec
    }

    constructor (file: StateFile, controller: Controller)
      requires file.content == None && controller.store == map[] && controller.nextExec == 0
      ensures this.file == file && this.controller == controller
      ensures Valid() && world.pc == Top && history == []
    {
      this.file, this.controller := file, controller;
      history, world := [], INIT;
    }

    /** The run goes on without a crash; no body is started, and no acceptance is forgotten. */
    twostate predicate Continues()
      reads this
    {
      && old(history) <= history && Crashes(history) == old(Crashes(history))
      && world.started == old(world.started)
      && old(world.accepted) <= world.accepted
    }

    /** No terminal status is sent, and none becomes durable. */
    twostate predicate Silent()
      reads this
    {
      world.sent == old(world.sent) && world.settled == old(world.settled)
    }

    /** At most `st` is sent for `e` or becomes durable for it, and nothing for any other execution. */
    twostate predicate Says(e: nat, st: Status)
      reads this
    {
      && old(world.sent) <= world.sent <= old(world.sent) + {(e, st)}
      && old(world.settled) <= world.settled <= old(world.settled) + {(e, st)}
    }

    /** No success was sent for `e`, none is durable, and the controller has none from the agent. */
    ghost predicate NoSuccess(e: nat)
      reads this, controller
    {
      && (e, Succeeded) !in world.sent && (e, Succeeded) !in world.settled
      && !(e in controller.store && controller.store[e].Completed? && controller.store[e].byAgent
           && controller.store[e].completion.status.Succeeded?)
    }

    lemma UnsentIsUnrecorded(e: nat)
      requires Valid() && (e, Succeeded) !in world.sent && (e, Succeeded) !in world.settled
      ensures NoSuccess(e)
    {
      hide Run;
      RecordedStatusWasSent(history);
    }

    /** The controller has `c` on record as the outcome of `e`, and the agent nothing. */
    predicate Closed(e: nat, c: Completion)
      reads file, controller
    {
      && file.content.None?
      && e in controller.store && controller.store[e].Completed? && controller.store[e].completion == c
    }

    ghost method Note(ev: Event)
      requires world == Run(INIT, history)
      modifies this
      ensures world == Run(INIT, history) && world == Next(old(world), ev)
      ensures history == old(history) + [ev]
      ensures Crashes(history) == old(Crashes(history)) + if ev.Crash? then 1 else 0
    {
      hide Next;
      history := history + [ev];
      assert Front(history) == old(history);
      world := Next(world, ev);
    }

    /** Between two steps of the agent the controller does what it likes. */
    method Meanwhile()
      requires Valid()
      modifies this, controller
      ensures Valid() && world.pc == old(world.pc) && world.disk == old(world.disk) && Continues() && Silent()
    {
      hide NextController, NextRecovery, NextPoll, NextBody, Run, Crashes;
      var events: seq<Event> := *;
      for i := 0 to |events|
        invariant Valid() && world.pc == old(world.pc) && world.disk == old(world.disk) && Continues() && Silent()
      {
        if events[i].Expire? || events[i].Renew? || events[i].FailLost? {
          controller.Act(events[i]);
          Note(events[i]);
        }
      }
    }

    // ----- Calls -----

    method Acknowledge(e: nat, rpc: Rpc, expired: bool) returns (reply: Reply)
      modifies controller
      ensures var (store, ok) := if Reached(rpc) then ExecutionProtocol.Acknowledge(old(controller.store), e, expired)
                                 else (old(controller.store), false);
              && controller.store == store && controller.nextExec == old(controller.nextExec)
              && reply == if !rpc.Answered? then Error else if ok then Ok else Rejected
    {
      var ok := false;
      if Reached(rpc) {
        ok := controller.AcknowledgeTask(e, expired);
      }
      reply := if !rpc.Answered? then Error else if ok then Ok else Rejected;
    }

    method Report(e: nat, c: Completion, rpc: Rpc) returns (reply: Reply)
      modifies controller
      ensures var (store, ok) := if Reached(rpc) then Complete(old(controller.store), e, c) else (old(controller.store), false);
              && controller.store == store && controller.nextExec == old(controller.nextExec)
              && reply == if !rpc.Answered? then Error else if ok then Ok else Rejected
    {
      var ok := false;
      if Reached(rpc) {
        ok := controller.ReportTaskState(e, c);
      }
      reply := if !rpc.Answered? then Error else if ok then Ok else Rejected;
    }

    /** sendPersistedBackupResult: fails unless the controller takes the result and says so. */
    method SendBackupResult(e: nat, rpc: Rpc, conflict: bool) returns (ok: bool)
      ensures ok == (rpc.Answered? && IsRunning(controller.store, e) && !conflict)
    {
      ok := rpc.Answered? && IsRunning(controller.store, e) && !conflict;
    }

    // ----- Recovery -----

    /** The first part of recoverTaskExecution: a record that was never acknowledged is
        acknowledged now, or discarded when the controller no longer wants it. */
    method AcceptRecovered(runtime: Runtime) returns (reply: Reply)
      requires Valid() && runtime.file == file && world.pc == Recovering(runtime.state)
      modifies this, file, controller, runtime
      ensures Valid() && Continues()
      ensures reply.Ok? ==> world.pc == Draining(runtime.state)
      ensures reply.Rejected? ==> world.pc == Ready && file.content.None?
      ensures reply.Error? ==> world.pc == Top
    {
      hide NextPoll, NextBody, NextController, Run, Crashes;
      var rpc: Rpc, expired: bool, write: DiskWrite := *, *, *;
      reply := Acknowledge(runtime.state.exec, rpc, expired);
      Note(AckRecovered(rpc, expired));
      if reply.Rejected? {
        var ok := file.Remove(write);
        Note(Discard(write));
        return if ok then Rejected else Error;
      }
      if reply.Error? {
        return;
      }
      runtime.state := runtime.state.(acked := true);
      var ok := file.Persist(runtime.state, write);
      Note(PersistAccepted(write));
      return if ok then Ok else Error;
    }

    /** Sends and removes the stored backup results, first to last. */
    method DrainBackups(runtime: Runtime) returns (ok: bool)
      requires Valid() && runtime.file == file && world.pc == Draining(runtime.state)
      modifies this, file, controller, runtime
      ensures Valid() && Continues()
      ensures ok ==> world.pc == Draining(runtime.state) && runtime.state.backups == []
      ensures !ok ==> world.pc == Top
    {
      while |runtime.state.backups| > 0
        invariant Valid() && Continues() && world.pc == Draining(runtime.state)
        decreases |runtime.state.backups|
      {
        ok := DrainOne(runtime);
        if !ok {
          return;
        }
      }
      return true;
    }

    method DrainOne(runtime: Runtime) returns (ok: bool)
      requires Valid() && runtime.file == file && world.pc == Draining(runtime.state) && runtime.state.backups != []
      modifies this, file, controller, runtime
      ensures Valid() && Continues()
      ensures ok ==> world.pc == Draining(runtime.state) && |runtime.state.backups| < |old(runtime.state.backups)|
      ensures !ok ==> world.pc == Top
    {
      hide NextPoll, NextBody, NextController, Run, Crashes;
      Meanwhile();
      var rpc: Rpc, conflict: bool, write: DiskWrite := *, *, *;
      ok := SendBackupResult(runtime.state.exec, rpc, conflict);
      Note(SendRecovered(rpc, conflict));
      if !ok {
        return;
      }
      ok := runtime.RemoveFirstBackupResult(write);
      Note(RemoveRecovered(write));
    }

    /** The last part of recoverTaskExecution: an execution without an outcome failed, and the
        outcome is reported until the controller takes it or refuses it for good. */
    method ReportRecoveredOutcome(runtime: Runtime) returns (ok: bool)
      requires Valid() && runtime.file == file && world.pc == Draining(runtime.state) && runtime.state.backups == []
      modifies this, file, controller, runtime
      ensures Valid() && Continues()
      ensures world.pc == if ok then Ready else Top
      ensures ok ==> file.content.None?
    {
      hide NextPoll, NextBody, NextController, Run, Crashes;
      var write: DiskWrite := *;
      if runtime.state.completion.None? {
        runtime.state := runtime.state.(completion := Some(RESTARTED));
        var persisted := file.Persist(runtime.state, write);
        Note(Resolve(write));
        if !persisted {
          return false;
        }
      } else {
        Note(Resolve(write));
      }
      ok := ReportOutcome(runtime);
    }

    method ReportOutcome(runtime: Runtime) returns (ok: bool)
      requires Valid() && runtime.file == file && world.pc == Reporting(runtime.state) && runtime.state.completion.Some?
      modifies this, file, controller
      ensures Valid() && Continues()
      ensures world.pc == if ok then Ready else Top
      ensures ok ==> file.content.None?
    {
      hide NextPoll, NextBody, NextController, Run, Crashes;
      Meanwhile();
      var rpc: Rpc, write: DiskWrite := *, *;
      var reply := Report(runtime.state.exec, runtime.state.completion.value, rpc);
      Note(ReportRecovered(rpc));
      if reply.Error? {
        return false;
      }
      ok := file.Remove(write);
      Note(Discard(write));
    }

    method Recover() returns (ok: bool)
      requires Valid() && world.pc == Top
      modifies this, file, controller
      ensures Valid() && Continues()
      ensures world.pc == if ok then Ready else Top
      ensures ok ==> file.content.None?
    {
      Note(Load);
      if file.content.None? {
        return true;
      }
      var runtime := new Runtime(file, file.content.value);
      hide Next;
      if runtime.state.completion.None? && !runtime.state.acked {
        var reply := AcceptRecovered(runtime);
        if !reply.Ok? {
          return reply.Rejected?;
        }
      }
      ok := DrainBackups(runtime);
      if ok {
        ok := ReportRecoveredOutcome(runtime);
      }
    }

    // ----- The task body -----

    /** reportBackupResult: stores the result, then sends it until it is accepted or the
        context ends. Success leaves no result outstanding. */
    method ReportBackupResult(runtime: Runtime, b: Backup) returns (ok: bool)
      requires Valid() && runtime.file == file && world.pc == Running(runtime.state, true, 0)
      modifies this, file, controller, runtime
      ensures Valid() && Continues() && Silent()
      ensures world.pc == Running(runtime.state, ok, 0)
      ensures runtime.state.exec == old(runtime.state.exec)
      ensures ok ==> (runtime.state.exec, b) in world.accepted
      ensures !ok ==> MishapSince(history, |old(history)|)
    {
      hide NextRecovery, NextPoll, NextController, Run, Crashes;
      BodyHasNoOutcome(history);
      var write: DiskWrite := *;
      ok := runtime.StoreBackupResult(b, write);
      Note(RecordBackup(b, write));
      if ok {
        ok := SendUntilAccepted(runtime, b);
      } else {
        assert Mishap(history[|old(history)|]);
      }
    }

    method SendUntilAccepted(runtime: Runtime, b: Backup) returns (ok: bool)
      requires Valid() && runtime.file == file && world.pc == SendingBackup(runtime.state, b)
      modifies this, file, controller, runtime
      ensures Valid() && Continues() && Silent()
      ensures world.pc == Running(runtime.state, ok, 0)
      ensures runtime.state.exec == old(runtime.state.exec)
      ensures ok ==> (runtime.state.exec, b) in world.accepted
      ensures !ok ==> MishapSince(history, |old(history)|)
    {
      hide NextRecovery, NextPoll, NextController, Run, Crashes;
      var retries: nat := *;
      var left := retries;
      var sent;
      sent, ok := TrySend(runtime, b);
      while !sent
        invariant Valid() && Continues() && Silent() && runtime.state.exec == old(runtime.state.exec)
        invariant ok ==> (runtime.state.exec, b) in world.accepted
        invariant sent && !ok ==> MishapSince(history, |old(history)|)
        invariant world.pc == if sent then Running(runtime.state, ok, 0) else SendingBackup(runtime.state, b)
        decreases !sent, left
      {
        if left == 0 {
          Note(GiveUpBackup);
          assert Mishap(history[|history| - 1]);
          return false;
        }
        left := left - 1;
        sent, ok := TrySend(runtime, b);
      }
    }

    method TrySend(runtime: Runtime, b: Backup) returns (sent: bool, ok: bool)
      requires Valid() && runtime.file == file && world.pc == SendingBackup(runtime.state, b)
      modifies this, file, controller, runtime
      ensures Valid() && Continues() && Silent()
      ensures world.pc == if sent then Running(runtime.state, ok, 0) else SendingBackup(runtime.state, b)
      ensures runtime.state.exec == old(runtime.state.exec)
      ensures ok ==> (runtime.state.exec, b) in world.accepted
      ensures sent && !ok ==> MishapSince(history, |old(history)|)
    {
      hide NextRecovery, NextPoll, NextController, Run, Crashes;
      Meanwhile();
      var rpc: Rpc, conflict: bool, write: DiskWrite := *, *, *;
      sent := SendBackupResult(runtime.state.exec, rpc, conflict);
      ok := false;
      Note(SendBackup(rpc, conflict));
      if sent {
        ok := DropSent(runtime, write);
      }
    }

    method DropSent(runtime: Runtime, write: DiskWrite) returns (ok: bool)
      requires Valid() && runtime.file == file && world.pc == BackupDelivered(runtime.state)
      modifies this, file, runtime
      ensures Valid() && Continues() && Silent()
      ensures world.pc == Running(runtime.state, ok, 0)
      ensures runtime.state.exec == old(runtime.state.exec)
      ensures !ok ==> MishapSince(history, |old(history)|)
    {
      hide NextRecovery, NextPoll, NextController, Run, Crashes;
      BodyHasNoOutcome(history);
      ok := runtime.RemoveFirstBackupResult(write);
      Note(DropBackup(write));
      assert !ok ==> Mishap(history[|old(history)|]);
    }

    /** What reportTaskCompletion is called for: by the body or by the timeout wrapper. */
    ghost predicate MayReport(c: Completion, byWrapper: bool)
      requires world.pc.Running?
      reads this
    {
      if byWrapper then world.pc.stage <= 1 && c.status.Failed? else world.pc.stage == 0
    }

    method ReportTaskCompletion(runtime: Runtime, c: Completion, byWrapper: bool) returns (ok: bool)
      requires Valid() && runtime.file == file
      requires world.pc.Running? && world.pc.r == runtime.state && MayReport(c, byWrapper)
      modifies this, file, controller, runtime
      ensures Valid() && Continues()
      ensures world.pc == Running(runtime.state, false, if byWrapper then 2 else 1)
      ensures runtime.state.exec == old(runtime.state.exec)
      ensures ok ==> Closed(runtime.state.exec, c)
      ensures Says(runtime.state.exec, c.status)
      ensures !byWrapper ==> |history| > |old(history)| && Finishes(history[|old(history)|], c)
    {
      hide NextRecovery, NextPoll, NextController, Run, Crashes;
      var write: DiskWrite := *;
      ok := runtime.StoreCompletion(c, write);
      Note(if byWrapper then WrapperFails(c.summary, write) else FinishBody(c, write));
      if ok {
        ok := SendFinal(runtime, c);
      }
    }

    method SendFinal(runtime: Runtime, c: Completion) returns (ok: bool)
      requires Valid() && runtime.file == file
      requires world.pc.SendingFinal? && world.pc.r == runtime.state && world.pc.c == c
      modifies this, file, controller
      ensures Valid() && Continues()
      ensures world.pc == Running(runtime.state, false, old(world.pc.stage))
      ensures ok ==> Closed(runtime.state.exec, c)
      ensures Says(runtime.state.exec, c.status)
    {
      hide NextRecovery, NextPoll, NextController, Run, Crashes;
      Meanwhile();
      var rpc: Rpc, write: DiskWrite := *, *;
      var reply := Report(runtime.state.exec, c, rpc);
      Note(ReportFinal(rpc));
      if !reply.Ok? {
        return false;
      }
      ok := ClearRecord(runtime, write);
    }

    method ClearRecord(runtime: Runtime, write: DiskWrite) returns (ok: bool)
      requires Valid() && world.pc.Clearing? && world.pc.r == runtime.state
      modifies this, file
      ensures Valid() && Continues() && Silent()
      ensures world.pc == Running(runtime.state, false, old(world.pc.stage))
      ensures ok ==> file.content.None?
    {
      hide NextRecovery, NextPoll, NextController, Run, Crashes;
      ok := file.Remove(write);
      Note(Clear(write));
    }

    /** executeBackupTask: steps that may fail before and after, and the items in between. A
        failed item is still reported, and its report may fail too. */
    method ExecuteBackupTask(runtime: Runtime, items: seq<Backup>, fails: bool) returns (ok: bool)
      requires Valid() && runtime.file == file && world.pc == Running(runtime.state, true, 0)
      modifies this, file, controller, runtime
      ensures Valid() && Continues()
      ensures world.pc == Running(runtime.state, false, 1)
      ensures runtime.state.exec == old(runtime.state.exec)
      ensures ok ==> Closed(runtime.state.exec, Completion(Succeeded, ""))
      ensures ok ==> forall b :: b in items ==> b.status.Succeeded? && (runtime.state.exec, b) in world.accepted
      ensures fails || (exists b :: b in items && b.status.Failed?) ==> NoSuccess(runtime.state.exec)
      ensures exists n, c: Completion :: |old(history)| <= n < |history| && Finishes(history[n], c)
                && if c.status.Succeeded? then !fails && forall b :: b in items ==> b.status.Succeeded?
                   else fails || (exists b :: b in items && b.status.Failed?) || MishapSince(history, |old(history)|)
    {
      hide Next, Run, Crashes;
      BodyHasNoOutcome(history);
      ghost var e := runtime.state.exec;
      ok := !fails;
      var i := 0;
      while ok && i < |items|
        invariant 0 <= i <= |items|
        invariant Valid() && Continues()
        invariant world.pc.Running? && world.pc.r == runtime.state && world.pc.stage == 0
        invariant ok ==> world.pc.open
        invariant runtime.state.exec == old(runtime.state.exec)
        invariant ok ==> !fails && forall k :: 0 <= k < i ==> items[k].status.Succeeded? && (runtime.state.exec, items[k]) in world.accepted
        invariant !ok ==> fails || (exists b :: b in items && b.status.Failed?) || MishapSince(history, |old(history)|)
        invariant (e, Succeeded) !in world.sent && (e, Succeeded) !in world.settled
      {
        ok := ReportBackupResult(runtime, items[i]);
        ok := ok && items[i].status.Succeeded?;
        i := i + 1;
      }
      ghost var n := |history|;
      if ok {
        ok := ReportTaskCompletion(runtime, Completion(Succeeded, ""), false);
        assert Finishes(history[n], Completion(Succeeded, ""));
      } else {
        var _ := ReportTaskCompletion(runtime, Completion(Failed, "step failed"), false);
        assert Finishes(history[n], Completion(Failed, "step failed"));
        UnsentIsUnrecorded(e);
      }
    }

    /** executePulledTaskWithTimeout: when the body fails, unless the agent itself is being
        stopped, a Failed is reported for it, whatever the body reported before. */
    method ExecutePulledTask(runtime: Runtime, items: seq<Backup>, fails: bool, stopping: bool) returns (ok: bool)
      requires Valid() && runtime.file == file && world.pc == Running(runtime.state, true, 0)
      modifies this, file, controller, runtime
      ensures Valid() && Continues()
      ensures world.pc == Running(runtime.state, false, if ok || stopping then 1 else 2)
      ensures runtime.state.exec == old(runtime.state.exec)
      ensures ok ==> Closed(runtime.state.exec, Completion(Succeeded, ""))
      ensures ok ==> forall b :: b in items ==> b.status.Succeeded? && (runtime.state.exec, b) in world.accepted
      ensures fails || (exists b :: b in items && b.status.Failed?) ==> NoSuccess(runtime.state.exec)
    {
      hide Next, Run, Crashes;
      ok := ExecuteBackupTask(runtime, items, fails);
      if !ok && !stopping {
        ghost var unsent := (runtime.state.exec, Succeeded) !in world.sent && (runtime.state.exec, Succeeded) !in world.settled;
        var _ := ReportTaskCompletion(runtime, Completion(Failed, "task failed"), true);
        if unsent {
          UnsentIsUnrecorded(runtime.state.exec);
        }
      }
    }

    // ----- The driver -----

    /** Pulls a task and brings its acknowledged record to disk. */
    method AcceptTask() returns (runtime: Option<Runtime>)
      requires Valid() && world.pc == Ready
      modifies this, file, controller
      ensures Valid() && old(history) <= history && old(world.accepted) <= world.accepted
      ensures Crashes(history) == old(Crashes(history))
      ensures runtime.None? ==> world.pc == Top && world.started == old(world.started)
      ensures runtime.Some? ==> fresh(runtime.value) && runtime.value.file == file
      ensures runtime.Some? ==> world.pc == Running(runtime.value.state, true, 0)
      ensures runtime.Some? ==> world.started == old(world.started) + [runtime.value.state.exec]
    {
      hide NextRecovery, NextBody, NextController, Run, Crashes;
      var rpc: Rpc, hasTask: bool := *, *;
      var e := 0;
      if Reached(rpc) && hasTask {
        e := controller.PullNextTask();
      }
      Note(Pull(rpc, hasTask));
      if !rpc.Answered? || !hasTask {
        return None;
      }
      var write: DiskWrite := *;
      var state := Record(e, false, Option.None, []);
      var ok := file.Persist(state, write);
      Note(PersistOffer(write));
      if !ok {
        return None;
      }
      runtime := AcceptOffer(state);
    }

    method AcceptOffer(state: Record) returns (runtime: Option<Runtime>)
      requires Valid() && world.pc == Acknowledging(state)
      modifies this, file, controller
      ensures Valid() && old(history) <= history && old(world.accepted) <= world.accepted
      ensures Crashes(history) == old(Crashes(history))
      ensures runtime.None? ==> world.pc == Top && world.started == old(world.started)
      ensures runtime.Some? ==> fresh(runtime.value) && runtime.value.file == file
      ensures runtime.Some? ==> world.pc == Running(runtime.value.state, true, 0)
      ensures runtime.Some? ==> world.started == old(world.started) + [runtime.value.state.exec]
    {
      hide NextBody, NextController, Run, Crashes;
      Meanwhile();
      var rpc: Rpc, expired: bool, write: DiskWrite := *, *, *;
      var reply := Acknowledge(state.exec, rpc, expired);
      Note(Ack(rpc, expired));
      if reply.Rejected? {
        var _ := file.Remove(write);
        Note(Discard(write));
        return None;
      }
      if reply.Error? {
        return None;
      }
      var accepted := state.(acked := true);
      var ok := file.Persist(accepted, write);
      Note(PersistMarked(write));
      if !ok {
        return None;
      }
      var started := new Runtime(file, accepted);
      return Some(started);
    }

    /** One turn of the agent's task loop. However it ends, the runtime is gone afterwards and
        the next turn starts from the file alone; memory is only given up once a started body
        has ended. When it reports success and started an execution, all its results were
        accepted and the controller holds its success. */
    method PollAndRunTask(items: seq<Backup>, fails: bool, stopping: bool) returns (ok: bool)
      requires Valid() && world.pc == Top
      modifies this, file, controller
      ensures Valid() && world.pc == Top && old(history) <= history
      ensures Crashes(history) == old(Crashes(history)) + |world.started| - |old(world.started)|
      ensures |world.started| <= |old(world.started)| + 1 && old(world.started) <= world.started
      ensures ok && world.started != old(world.started) ==>
                var e := world.started[|old(world.started)|];
                && Closed(e, Completion(Succeeded, ""))
                && forall b :: b in items ==> b.status.Succeeded? && (e, b) in world.accepted
      ensures world.started != old(world.started) && (fails || exists b :: b in items && b.status.Failed?) ==>
                NoSuccess(world.started[|old(world.started)|])
    {
      hide Next, Run, Crashes;
      ok := Recover();
      if !ok {
        return;
      }
      Meanwhile();
      var runtime := AcceptTask();
      if runtime.None? {
        return;
      }
      ok := ExecutePulledTask(runtime.value, items, fails, stopping);
      DropRuntime();
    }

    /** Returning from the turn drops what the memory held. */
    ghost method DropRuntime()
      requires Valid()
      modifies this
      ensures Valid() && world == old(world).(pc := Top) && old(history) <= history
      ensures Crashes(history) == old(Crashes(history)) + 1
    {
      Note(Crash);
    }
  }
}
