/** The controller's migrate task as one state machine: the sequence of steps with its pause for
    a manual confirmation, the handlers that approve or reject it, and failures and crashes
    anywhere. Source: internal/app/controller/migrate.go and task_service.go; store:
    internal/platform/store/tasks.go. */
module MigrationProtocol {
  import opened Common

  datatype Step = ComposeDown | Backup | Restore | ComposeUp | DnsUpdate | AwaitingConfirmation | PersistRepo | Finalize

  /** The order in which the executor goes through the steps. */
  const ORDER: seq<Step> :=
    [ComposeDown, Backup, Restore, ComposeUp, DnsUpdate, AwaitingConfirmation, PersistRepo, Finalize]

  function Rank(s: Step): nat {
    match s
    case ComposeDown => 0
    case Backup => 1
    case Restore => 2
    case ComposeUp => 3
    case DnsUpdate => 4
    case AwaitingConfirmation => 5
    case PersistRepo => 6
    case Finalize => 7
  }

  datatype StepStatus = Running | Awaiting | Succeeded | Failed | Cancelled

  predicate Terminal(s: StepStatus) { s.Succeeded? || s.Failed? || s.Cancelled? }

  datatype TaskStatus = Pending | TaskRunning | TaskAwaiting | TaskSucceeded | TaskFailed | TaskCancelled

  /** One artifact to restore: which data, from which backup. */
  datatype Item = Item(dataName: string, artifact: string, task: nat)

  /** What never changes during a migration. */
  datatype Plan = Plan(source: string, target: string, dataNames: seq<string>, hasDns: bool, nodes: seq<string>)

  // ----- The pure parts -----

  /** migrateTargetNodes: the first occurrence of the source becomes the target. */
  function MigrateNodes(nodes: seq<string>, source: string, target: string): seq<string> {
    if nodes == [] then []
    else if nodes[0] == source then [target] + nodes[1..]
    else [nodes[0]] + MigrateNodes(nodes[1..], source, target)
  }

  /** The artifacts of a backup, one per data name in order; None when one was not recorded. */
  function Capture(dataNames: seq<string>, backups: map<string, string>, task: nat): Option<seq<Item>> {
    if dataNames == [] then Some([])
    else
      var rest := Capture(Front(dataNames), backups, task);
      var name := Last(dataNames);
      if rest.None? || name !in backups || backups[name] == "" then None
      else Some(rest.value + [Item(name, backups[name], task)])
  }

  // ----- The state -----

  /** What a step does outside the task's own record. */
  datatype Effect =
    | StopSource
    | BackupSource(task: nat)
    | RestoreTarget(items: seq<Item>)
    | DeployTarget
    | SyncDns(nodes: seq<string>)
    | WriteNodes(nodes: seq<string>)

  /** `at` is the step the executor is about to take, if one is running. `items` are the restore
      items in the persisted parameters, `nodes` the node list in the repository. The handlers
      that passed their status check and their step update are counted in `approving` and
      `rejecting`; `offered` says the confirmation was ever open. `begun` and `effects` are
      history: step bodies started, and effects that took place. `child` is the effect a child
      task may still have that was waited for in vain: nothing cancels it. */
  datatype Migration = Migration(
    status: TaskStatus,
    at: Option<nat>,
    steps: map<Step, StepStatus>,
    items: seq<Item>,
    nodes: seq<string>,
    offered: bool,
    approving: bool,
    rejecting: bool,
    begun: seq<Step>,
    effects: seq<Effect>,
    child: Option<Effect>)

  function Init(plan: Plan): Migration {
    Migration(Pending, None, map[], [], plan.nodes, false, false, false, [], [], None)
  }

  predicate Done(m: Migration, s: Step) {
    s in m.steps && m.steps[s].Succeeded?
  }

  predicate Applicable(plan: Plan, m: Migration, s: Step) {
    match s
    case Backup => plan.dataNames != []
    case Restore => m.items != []
    case DnsUpdate => plan.hasDns
    case _ => true
  }

  /** UpsertTaskStep: a terminal step keeps its status. */
  function Upsert(steps: map<Step, StepStatus>, s: Step, st: StepStatus): map<Step, StepStatus> {
    if s in steps && Terminal(steps[s]) then steps else steps[s := st]
  }

  predicate Upserts(steps: map<Step, StepStatus>, s: Step, st: StepStatus) {
    s in steps && Terminal(steps[s]) ==> steps[s] == st
  }

  function EndRunning(steps: map<Step, StepStatus>, st: StepStatus): map<Step, StepStatus> {
    map s | s in steps :: if steps[s].Running? then st else steps[s]
  }

  /** CompleteTask: only from a status that is not terminal; running steps get the task's status. */
  function Complete(m: Migration, status: TaskStatus, st: StepStatus): Migration {
    if m.status.TaskSucceeded? || m.status.TaskFailed? || m.status.TaskCancelled? then m
    else m.(status := status, steps := EndRunning(m.steps, st))
  }

  /** failControllerTask; when completing fails too the task stays running, as after a crash. */
  function Fail(m: Migration, s: Step, recorded: bool): Migration {
    if recorded then Complete(m.(steps := Upsert(m.steps, s, Failed), at := None), TaskFailed, Failed)
    else m.(at := None)
  }

  // ----- The executor -----

  /** What had become of its effect when a body failed: it took place, it did not and will not, or
      the wait for the child task ended first, by its timeout, the context or a crash. */
  datatype Landing = Landed | NotLanded | Unfinished

  /** How one step goes: its record cannot be opened, its body fails, its record cannot be closed,
      or it succeeds. `recorded` says the failure was recorded; if
      not, or at a crash, nothing more happens. For a backup the environment supplies what was
      recorded; for the repository write, whether the base revision still stands. */
  datatype Outcome =
    | OpenFails(recorded: bool)
    | BodyFails(effect: Landing, recorded: bool)
    | CloseFails(recorded: bool)
    | Succeeds

  function Begin(m: Migration, s: Step): Migration {
    m.(steps := Upsert(m.steps, s, Running), begun := m.begun + [s])
  }

  /** The effect of a step that runs as a task of its own on an agent. */
  function ChildEffect(m: Migration, s: Step, task: nat): Option<Effect> {
    match s
    case ComposeDown => Some(StopSource)
    case Backup => Some(BackupSource(task))
    case Restore => Some(RestoreTarget(m.items))
    case ComposeUp => Some(DeployTarget)
    case _ => None
  }

  /** The effect of a body, and what it leaves in the task's parameters and the repository. */
  function Act(plan: Plan, m: Migration, s: Step, task: nat, items: seq<Item>): Migration {
    match s
    case ComposeDown => m.(effects := m.effects + [StopSource])
    case Backup => m.(effects := m.effects + [BackupSource(task)], items := m.items + items)
    case Restore => m.(effects := m.effects + [RestoreTarget(m.items)])
    case ComposeUp => m.(effects := m.effects + [DeployTarget])
    case DnsUpdate => m.(effects := m.effects + [SyncDns(MigrateNodes(plan.nodes, plan.source, plan.target))])
    case PersistRepo =>
      var nodes := MigrateNodes(plan.nodes, plan.source, plan.target);
      m.(effects := m.effects + [WriteNodes(nodes)], nodes := nodes)
    case _ => m
  }

  /** The step once its body has run or failed. A backup that did not record every artifact has
      run all the same. */
  function AfterBody(plan: Plan, m: Migration, s: Step, o: Outcome, task: nat, captured: Option<seq<Item>>): Migration {
    if o.OpenFails? then m
    else if o.BodyFails? && !o.effect.Landed? then
      Begin(m, s).(child := if o.effect.Unfinished? then ChildEffect(m, s, task) else None)
    else if s.Backup? && captured.None? then
      var b := Begin(m, s);
      b.(effects := b.effects + [BackupSource(task)])
    else Act(plan, Begin(m, s), s, task, if captured.Some? then captured.value else [])
  }

  function CloseStep(m: Migration, s: Step): Migration {
    m.(steps := Upsert(m.steps, s, Succeeded), at := Some(Rank(s) + 1))
  }

  /** runMigrateStep around a body. */
  function TakeStep(plan: Plan, m: Migration, s: Step, o: Outcome, task: nat, backups: map<string, string>): Migration {
    var captured := Capture(plan.dataNames, backups, task);
    var after := AfterBody(plan, m, s, o, task, captured);
    if o.Succeeds? && (s.Backup? ==> captured.Some?) then CloseStep(after, s)
    else Fail(after, s, o.Succeeds? || o.recorded)
  }

  /** Entering the pause. */
  function Pause(m: Migration, o: Outcome): Migration {
    match o
    case OpenFails(recorded) => Fail(m, AwaitingConfirmation, recorded)
    case BodyFails(_, recorded) =>
      Fail(m.(steps := Upsert(m.steps, AwaitingConfirmation, Awaiting)), AwaitingConfirmation, recorded)
    case CloseFails(recorded) =>
      Fail(m.(steps := Upsert(m.steps, AwaitingConfirmation, Awaiting)), AwaitingConfirmation, recorded)
    case Succeeds =>
      m.(steps := Upsert(m.steps, AwaitingConfirmation, Awaiting), status := TaskAwaiting, at := None, offered := true)
  }

  function Close(m: Migration, o: Outcome): Migration {
    match o
    case OpenFails(recorded) => Fail(m, Finalize, recorded)
    case BodyFails(_, recorded) => Fail(m.(steps := Upsert(m.steps, Finalize, Succeeded)), Finalize, recorded)
    case CloseFails(_) => m.(steps := Upsert(m.steps, Finalize, Succeeded), at := None)
    case Succeeds =>
      Complete(m.(steps := Upsert(m.steps, Finalize, Succeeded), at := None), TaskSucceeded, Succeeded)
  }

  datatype Event =
    | Claim
    | Abort(recorded: bool)
    | Advance(o: Outcome, task: nat, backups: map<string, string>)
    | Crash
    | ApproveStep
    | ApproveTask
    | RejectStep
    | RejectTask
    | ChildEnds(effect: bool)

  function Next(plan: Plan, m: Migration, ev: Event): Migration {
    match ev
    case Claim =>
      if m.status.Pending? then m.(status := TaskRunning, at := Some(0)) else m
    case Abort(recorded) =>
      // The parameters, the task or the service cannot be read before the first step.
      if m.at == Some(0) then Fail(m, Finalize, recorded) else m
    case Advance(o, task, backups) =>
      if m.at.None? || m.at.value >= |ORDER| then m
      else
        var s := ORDER[m.at.value];
        if s.Finalize? then Close(m, o)
        else if Done(m, s) || !Applicable(plan, m, s) then m.(at := Some(m.at.value + 1))
        else if s.AwaitingConfirmation? then Pause(m, o)
        else TakeStep(plan, m, s, o, task, backups)
    case Crash => m.(at := None)
    case ApproveStep =>
      // The handler read the status while the confirmation was open, maybe a while ago.
      if !m.offered || !Upserts(m.steps, AwaitingConfirmation, Succeeded) then m
      else m.(steps := Upsert(m.steps, AwaitingConfirmation, Succeeded), approving := true)
    case ApproveTask =>
      if m.approving && m.status.TaskAwaiting? then m.(status := Pending) else m
    case RejectStep =>
      if !m.offered || !Upserts(m.steps, AwaitingConfirmation, Cancelled) then m
      else m.(steps := Upsert(m.steps, AwaitingConfirmation, Cancelled), rejecting := true)
    case RejectTask =>
      if m.rejecting then Complete(m, TaskCancelled, Cancelled) else m
    case ChildEnds(effect) =>
      if m.child.None? then m
      else m.(child := None, effects := if effect then m.effects + [m.child.value] else m.effects)
  }

  function Run(plan: Plan, events: seq<Event>): Migration {
    if events == [] then Init(plan) else Next(plan, Run(plan, Front(events)), Last(events))
  }
}
