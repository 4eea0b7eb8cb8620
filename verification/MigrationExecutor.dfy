/** executeMigrateTask as the code writes it: one step after the other, each skipped when it has
    succeeded before, every write to the task store allowed to fail. What it does is a run of
    the machine of MigrationProtocol. */
module MigrationExecutor {
  import opened Common
  import opened MigrationProtocol
  import opened MigrationSafety

  class MigrateTask {
    ghost const plan: Plan
    const dataNames: seq<string>
    const hasDns: bool
    const newNodes: seq<string>
    var status: TaskStatus
    var steps: map<Step, StepStatus>
    var restoreItems: seq<Item>
    var nodes: seq<string>
    ghost var history: seq<Event>
    ghost var world: Migration

    ghost predicate Valid()
      reads this
    {
      && world == Run(plan, history)
      && world.status == status && world.steps == steps && world.items == restoreItems && world.nodes == nodes
      && plan.dataNames == dataNames && plan.hasDns == hasDns
      && newNodes == MigrateNodes(plan.nodes, plan.source, plan.target)
    }

    constructor (source: string, target: string, dataNames: seq<string>, hasDns: bool, nodes: seq<string>)
      ensures Valid() && plan == Plan(source, target, dataNames, hasDns, nodes) && history == []
    {
      this.plan := Plan(source, target, dataNames, hasDns, nodes);
      this.dataNames, this.hasDns, this.nodes := dataNames, hasDns, nodes;
      newNodes := MigrateNodes(nodes, source, target);
      status, steps, restoreItems := Pending, map[], [];
      history, world := [], Init(Plan(source, target, dataNames, hasDns, nodes));
    }

    ghost method Note(ev: Event)
      requires world == Run(plan, history)
      modifies this`history, this`world
      ensures world == Run(plan, history) && world == Next(plan, old(world), ev)
      ensures history == old(history) + [ev]
    {
      hide Next;
      history := history + [ev];
      assert Front(history) == old(history);
      world := Next(plan, world, ev);
    }

    /** What happened since is the executor taking steps: no crash, no handler, no other task. */
    twostate predicate StepsOnly()
      reads this`history
    {
      && old(history) < history
      && forall i :: |old(history)| <= i < |history| ==> history[i].Advance?
    }

    // ----- The task store -----

    method UpsertTaskStep(s: Step, st: StepStatus) returns (ok: bool)
      modifies this`steps
      ensures steps == Upsert(old(steps), s, st) && ok == Upserts(old(steps), s, st)
    {
      if s in steps && Terminal(steps[s]) {
        return steps[s] == st;
      }
      steps := steps[s := st];
      return true;
    }

    method CompleteTask(ghost m: Migration, to: TaskStatus, st: StepStatus) returns (ok: bool)
      requires m.status == status && m.steps == steps
      modifies this`status, this`steps
      ensures Complete(m, to, st) == m.(status := status, steps := steps)
      ensures ok <==> old(status).Pending? || old(status).TaskRunning? || old(status).TaskAwaiting?
    {
      hide EndRunning, Upsert, Run;
      if status.TaskSucceeded? || status.TaskFailed? || status.TaskCancelled? {
        return false;
      }
      status := to;
      EndRunningSteps(st);
      return true;
    }

    method EndRunningSteps(st: StepStatus)
      modifies this`steps
      ensures steps == EndRunning(old(steps), st)
    {
      var all := steps.Keys;
      while all != {}
        invariant all <= old(steps).Keys && steps.Keys == old(steps).Keys
        invariant forall s :: s in all ==> steps[s] == old(steps)[s]
        invariant forall s :: s in old(steps) && s !in all ==> steps[s] == if old(steps)[s].Running? then st else old(steps)[s]
        decreases all
      {
        var s :| s in all;
        all := all - {s};
        if steps[s].Running? {
          steps := steps[s := st];
        }
      }
    }

    /** failControllerTask; nothing changes when the store does not take the failure. */
    method FailTask(ghost m: Migration, s: Step, recorded: bool)
      requires m.status == status && m.steps == steps
      modifies this`status, this`steps
      ensures Fail(m, s, recorded) == m.(status := status, steps := steps, at := None)
    {
      if recorded {
        var _ := UpsertTaskStep(s, StepStatus.Failed);
        var _ := CompleteTask(m.(steps := steps, at := None), TaskFailed, StepStatus.Failed);
      }
    }

    // ----- The steps -----

    /** Collects one artifact per data name from what the backup recorded. */
    method CaptureItems(task: nat, backups: map<string, string>) returns (items: Option<seq<Item>>)
      ensures items == Capture(dataNames, backups, task)
    {
      var collected: seq<Item> := [];
      for i := 0 to |dataNames|
        invariant Capture(dataNames[..i], backups, task) == Some(collected)
      {
        assert Front(dataNames[..i + 1]) == dataNames[..i];
        var name := dataNames[i];
        if name !in backups || backups[name] == "" {
          NoneLater(dataNames, i + 1, backups, task);
          return None;
        }
        collected := collected + [Item(name, backups[name], task)];
      }
      assert dataNames[..|dataNames|] == dataNames;
      return Some(collected);
    }

    static lemma NoneLater(names: seq<string>, i: nat, backups: map<string, string>, task: nat)
      requires i <= |names| && Capture(names[..i], backups, task).None?
      ensures Capture(names, backups, task).None?
      decreases |names| - i
    {
      if i < |names| {
        assert Front(names[..i + 1]) == names[..i];
        NoneLater(names, i + 1, backups, task);
      } else {
        assert names[..i] == names;
      }
    }

    /** The fields are those of the machine's state `m`. */
    ghost predicate Matches(m: Migration)
      reads this
    {
      m.steps == steps && m.items == restoreItems && m.nodes == nodes && m.status == status
    }

    /** The body of a step that goes well: what it leaves in the parameters and the repository. */
    method Perform(ghost m: Migration, s: Step, task: nat, items: seq<Item>)
      requires newNodes == MigrateNodes(plan.nodes, plan.source, plan.target) && Matches(m)
      modifies this`restoreItems, this`nodes
      ensures Matches(Act(plan, m, s, task, items))
    {
      hide MigrateNodes;
      match s
      case Backup => restoreItems := restoreItems + items;
      case PersistRepo => nodes := newNodes;
      case _ =>
    }

    /** The step's record is opened and its body run, as far as the outcome lets it. */
    method RunBody(ghost m: Migration, s: Step, o: Outcome, task: nat, captured: Option<seq<Item>>)
      requires newNodes == MigrateNodes(plan.nodes, plan.source, plan.target) && Matches(m)
      modifies this`steps, this`restoreItems, this`nodes
      ensures Matches(AfterBody(plan, m, s, o, task, captured))
    {
      hide Act, MigrateNodes;
      if o.OpenFails? {
        return;
      }
      var _ := UpsertTaskStep(s, StepStatus.Running);
      if (o.BodyFails? && !o.effect.Landed?) || (s.Backup? && captured.None?) {
        return;
      }
      Perform(Begin(m, s), s, task, if captured.Some? then captured.value else []);
    }

    /** runMigrateStep with the body of step `s`, and failControllerTask when it does not end well. */
    method RunStep(s: Step, o: Outcome, task: nat, backups: map<string, string>) returns (ok: bool)
      requires Valid() && world.at == Some(Rank(s)) && Body(s) && !Done(world, s) && Applicable(plan, world, s)
      modifies this
      ensures Valid() && history == old(history) + [Advance(o, task, backups)]
      ensures world.at == if ok then Some(Rank(s) + 1) else None
    {
      hide AfterBody, Run, Fail, MigrateNodes;
      var captured := CaptureItems(task, backups);
      ghost var after := AfterBody(plan, world, s, o, task, captured);
      RunBody(world, s, o, task, captured);
      ok := o.Succeeds? && (s.Backup? ==> captured.Some?);
      if ok {
        var _ := UpsertTaskStep(s, StepStatus.Succeeded);
      } else {
        FailTask(after, s, o.Succeeds? || o.recorded);
      }
      RankIsInjective(s, s);
      Note(Advance(o, task, backups));
    }

    /** One step of the sequence: skipped when it does not apply or has succeeded before. */
    method TryStep(s: Step) returns (ok: bool)
      requires Valid() && world.at == Some(Rank(s)) && Body(s)
      modifies this
      ensures Valid() && StepsOnly()
      ensures world.at == if ok then Some(Rank(s) + 1) else None
    {
      hide Run, TakeStep;
      var o: Outcome, task: nat, backups: map<string, string> := *, *, *;
      var applicable := match s
        case Backup => |dataNames| > 0
        case Restore => |restoreItems| > 0
        case DnsUpdate => hasDns
        case _ => true;
      RankIsInjective(s, s);
      if applicable && !(s in steps && steps[s].Succeeded?) {
        ok := RunStep(s, o, task, backups);
      } else {
        Note(Advance(o, task, backups));
        ok := true;
      }
    }

    /** `if !stepSucceeded(awaiting_confirmation)`: says whether the migration goes on because it
        was approved before. */
    method AwaitConfirmation() returns (approved: bool)
      requires Valid() && world.at == Some(Rank(AwaitingConfirmation))
      modifies this
      ensures Valid() && StepsOnly()
      ensures world.at == if approved then Some(Rank(PersistRepo)) else None
      ensures approved == old(Done(world, AwaitingConfirmation))
    {
      hide Run, TakeStep, Pause, MigrateNodes;
      approved := AwaitingConfirmation in steps && steps[AwaitingConfirmation].Succeeded?;
      if approved {
        Note(Advance(Succeeds, 0, map[]));
      } else {
        var o: Outcome := *;
        EnterAwaitingConfirmation(world, o);
        Note(Advance(o, 0, map[]));
        PauseStops(old(world), o);
      }
    }

    static lemma PauseStops(m: Migration, o: Outcome)
      ensures Pause(m, o).at == None && Pause(m, o).nodes == m.nodes && Pause(m, o).items == m.items
    {}

    /** enterMigrateAwaitingConfirmation, and failControllerTask when it fails. */
    method EnterAwaitingConfirmation(ghost m: Migration, o: Outcome)
      requires m.status == status && m.steps == steps
      modifies this`status, this`steps
      ensures Pause(m, o).status == status && Pause(m, o).steps == steps
    {
      hide Fail;
      match o {
        case OpenFails(recorded) => FailTask(m, AwaitingConfirmation, recorded);
        case BodyFails(_, recorded) =>
          var _ := UpsertTaskStep(AwaitingConfirmation, Awaiting);
          FailTask(m.(steps := steps), AwaitingConfirmation, recorded);
        case CloseFails(recorded) =>
          var _ := UpsertTaskStep(AwaitingConfirmation, Awaiting);
          FailTask(m.(steps := steps), AwaitingConfirmation, recorded);
        case Succeeds =>
          var _ := UpsertTaskStep(AwaitingConfirmation, Awaiting);
          status := TaskAwaiting;
      }
    }

    method FinalizeTask()
      requires Valid() && world.at == Some(Rank(Finalize))
      modifies this
      ensures Valid() && StepsOnly() && world.at == None
    {
      hide Run, TakeStep, Fail, Complete, MigrateNodes;
      var o: Outcome := *;
      ghost var before := world;
      if !o.OpenFails? {
        var _ := UpsertTaskStep(Finalize, StepStatus.Succeeded);
      }
      match o {
        case OpenFails(recorded) => FailTask(before, Finalize, recorded);
        case BodyFails(_, recorded) => FailTask(before.(steps := steps), Finalize, recorded);
        case CloseFails(_) =>
        case Succeeds =>
          var _ := CompleteTask(before.(steps := steps, at := None), TaskSucceeded, StepStatus.Succeeded);
      }
      Note(Advance(o, 0, map[]));
    }

    /** The whole of executeMigrateTask, from the claim to the pause, the end or a failure. When it
        returns nothing is running; a pending migration that was approved before never pauses
        again. */
    method ExecuteMigrateTask()
      requires Valid() && world.status.Pending?
      modifies this
      ensures Valid() && world.at == None
      ensures old(history) + [Event.Claim] < history
      ensures forall i :: |old(history)| < i < |history| ==> history[i].Advance?
    {
      hide Valid;
      Claim();
      var ok := TakeUntilPause();
      if !ok { return; }
      ok := AwaitConfirmation();
      if !ok { return; }
      ok := TryStep(PersistRepo);
      if !ok { return; }
      FinalizeTask();
    }

    method TakeUntilPause() returns (ok: bool)
      requires Valid() && world.at == Some(Rank(ComposeDown))
      modifies this
      ensures Valid() && StepsOnly()
      ensures world.at == if ok then Some(Rank(AwaitingConfirmation)) else None
    {
      hide Valid;
      ok := TryStep(ComposeDown);
      if !ok { return; }
      ok := TryStep(Backup);
      if !ok { return; }
      ok := TryStep(Restore);
      if !ok { return; }
      ok := TryStep(ComposeUp);
      if !ok { return; }
      ok := TryStep(DnsUpdate);
    }

    method Claim()
      requires Valid() && world.status.Pending?
      modifies this
      ensures Valid() && history == old(history) + [Event.Claim] && world.at == Some(Rank(ComposeDown))
    {
      hide Run, MigrateNodes;
      status := TaskRunning;
      Note(Event.Claim);
    }

    /** ResolveTaskConfirmation: the step first, the task after it; either write may be the last
        that happens. */
    method ResolveConfirmation(approve: bool, stopsBetween: bool) returns (ok: bool)
      requires Valid() && world.offered
      modifies this
      ensures Valid() && old(history) < history && world.begun == old(world.begun) && world.effects == old(world.effects)
      ensures ok ==> !stopsBetween && AwaitingConfirmation in steps
      ensures ok && approve ==> old(status).TaskAwaiting? && status.Pending? && steps[AwaitingConfirmation].Succeeded?
      ensures ok && !approve ==> status.TaskCancelled? && steps[AwaitingConfirmation].Cancelled?
      ensures !ok ==> status == old(status)
    {
      hide Run, MigrateNodes;
      ok := UpsertTaskStep(AwaitingConfirmation, if approve then StepStatus.Succeeded else StepStatus.Cancelled);
      Note(if approve then ApproveStep else RejectStep);
      if !ok || stopsBetween {
        return false;
      }
      if approve {
        ok := status.TaskAwaiting?;
        if ok {
          status := Pending;
        }
        Note(ApproveTask);
      } else {
        ok := CompleteTask(world, TaskCancelled, StepStatus.Cancelled);
        Note(RejectTask);
      }
    }
  }
}
