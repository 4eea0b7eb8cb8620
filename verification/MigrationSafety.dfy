/** What every run of a migration keeps, through the pause, its approval or rejection, failures
    and crashes. */
module MigrationSafety {
  import opened Common
  import opened MigrationProtocol

  // ----- The invariant -----

  /** The steps this migration has to go through. */
  predicate Needed(plan: Plan, s: Step) {
    match s
    case Backup => plan.dataNames != []
    case Restore => plan.dataNames != []
    case DnsUpdate => plan.hasDns
    case _ => true
  }

  predicate Body(s: Step) { !s.AwaitingConfirmation? && !s.Finalize? }

  /** All needed steps before rank `i` have succeeded. */
  ghost predicate Before(plan: Plan, m: Migration, i: nat) {
    forall t :: Rank(t) < i && Needed(plan, t) ==> Done(m, t)
  }

  function StepOf(e: Effect): Step {
    match e
    case StopSource => ComposeDown
    case BackupSource(_) => Backup
    case RestoreTarget(_) => Restore
    case DeployTarget => ComposeUp
    case SyncDns(_) => DnsUpdate
    case WriteNodes(_) => PersistRepo
  }

  ghost predicate HasEffect(m: Migration, s: Step) {
    exists e :: e in m.effects && StepOf(e) == s
  }

  /** Somebody will still act on the migration: the queue, the executor, or a confirmation. */
  predicate Live(m: Migration) {
    m.status.Pending? || m.status.TaskAwaiting? || (m.status.TaskRunning? && m.at.Some?)
  }

  ghost predicate StepsAgree(plan: Plan, m: Migration) {
    && (forall s :: Done(m, s) ==> Before(plan, m, Rank(s)))
    && (forall s :: Done(m, s) && Body(s) ==> HasEffect(m, s))
    && (m.at.Some? ==> m.status.TaskRunning? && m.at.value < |ORDER| && Before(plan, m, m.at.value))
    && (Live(m) ==> forall s :: s in m.steps && !s.AwaitingConfirmation? ==> Done(m, s))
    && (m.status.TaskSucceeded? ==> Before(plan, m, Rank(Finalize)) && Done(m, Finalize))
  }

  ghost predicate BodiesAgree(plan: Plan, m: Migration) {
    && (forall i, j :: 0 <= i < j < |m.begun| ==> Rank(m.begun[i]) < Rank(m.begun[j]))
    && (forall s :: s in m.begun ==> Body(s) && Before(plan, m, Rank(s)))
    && (Live(m) ==> forall s :: s in m.begun ==> Done(m, s))
  }

  ghost predicate EffectsAgree(plan: Plan, m: Migration) {
    && (forall i, j :: 0 <= i < j < |m.effects| ==> Rank(StepOf(m.effects[i])) < Rank(StepOf(m.effects[j])))
    && (forall e :: e in m.effects ==> StepOf(e) in m.begun)
    && (forall e :: e in m.effects ==> Plausible(plan, m, e))
  }

  /** The items are one per data name, in order, all from the backup `task`. */
  ghost predicate FromBackup(plan: Plan, items: seq<Item>, task: nat) {
    |items| == |plan.dataNames| &&
    forall i :: 0 <= i < |items| ==>
      items[i].dataName == plan.dataNames[i] && items[i].artifact != "" && items[i].task == task
  }

  ghost predicate Backed(plan: Plan, m: Migration, items: seq<Item>) {
    exists task :: BackupSource(task) in m.effects && FromBackup(plan, items, task)
  }

  /** What an effect says fits the plan. */
  ghost predicate Plausible(plan: Plan, m: Migration, e: Effect) {
    match e
    case RestoreTarget(items) => Backed(plan, m, items)
    case SyncDns(nodes) => nodes == MigrateNodes(plan.nodes, plan.source, plan.target)
    case WriteNodes(nodes) => nodes == MigrateNodes(plan.nodes, plan.source, plan.target)
    case _ => true
  }

  ghost predicate DataAgrees(plan: Plan, m: Migration) {
    && (m.items != [] ==> Backed(plan, m, m.items))
    && (Live(m) && !Done(m, Backup) ==> m.items == [])
    && (Done(m, Backup) ==> |m.items| == |plan.dataNames|)
    && (m.nodes != plan.nodes ==>
          m.nodes == MigrateNodes(plan.nodes, plan.source, plan.target) && HasEffect(m, PersistRepo))
  }

  /** The confirmation: once it was offered its step says how far it got. */
  ghost predicate PauseAgrees(plan: Plan, m: Migration) {
    && (m.offered ==>
          && Before(plan, m, Rank(AwaitingConfirmation)) && AwaitingConfirmation in m.steps
          && match m.steps[AwaitingConfirmation]
             case Awaiting => m.status.TaskAwaiting?
             case Succeeded => true
             case Cancelled => m.status.TaskAwaiting? || m.status.TaskCancelled?
             case _ => false)
    && (!m.offered ==>
          && !Done(m, AwaitingConfirmation) && !m.approving && !m.rejecting && !m.status.TaskAwaiting?
          && (m.status.Pending? || m.at.Some? ==> AwaitingConfirmation !in m.steps))
    && (m.approving ==> Done(m, AwaitingConfirmation))
    && (m.rejecting ==> m.offered && m.steps[AwaitingConfirmation].Cancelled?)
  }

  ghost predicate Inv(plan: Plan, m: Migration) {
    StepsAgree(plan, m) && BodiesAgree(plan, m) && EffectsAgree(plan, m) && DataAgrees(plan, m) && PauseAgrees(plan, m)
  }

  /** Steps whose body waits for a task of its own on an agent. */
  predicate HasChild(s: Step) { s.ComposeDown? || s.Backup? || s.Restore? || s.ComposeUp? }

  /** An unfinished child is that of the last body, which ended the migration; it would have the
      effect that body was to have. */
  ghost predicate ChildAgrees(plan: Plan, m: Migration) {
    m.child.Some? ==>
      var s := StepOf(m.child.value);
      && !Live(m) && m.begun != [] && Last(m.begun) == s && HasChild(s)
      && !HasEffect(m, s) && !Done(m, s) && Plausible(plan, m, m.child.value)
  }

  // ----- Ending -----

  /** Predicates over effects and steps see only those fields. */
  lemma SameHistory(plan: Plan, m: Migration, m': Migration)
    requires m'.effects == m.effects
    ensures forall s :: HasEffect(m', s) == HasEffect(m, s)
    ensures forall items :: Backed(plan, m', items) == Backed(plan, m, items)
    ensures forall e :: Plausible(plan, m', e) == Plausible(plan, m, e)
  {
    forall items ensures Backed(plan, m', items) == Backed(plan, m, items) {}
    forall s ensures HasEffect(m', s) == HasEffect(m, s) {}
  }

  /** What failing needs: everything but the step being taken is as the invariant wants it. */
  ghost predicate MayFail(plan: Plan, m: Migration) {
    && (forall s :: Done(m, s) ==> Before(plan, m, Rank(s)))
    && (forall s :: Done(m, s) && Body(s) ==> HasEffect(m, s))
    && m.status.TaskRunning?
    && (forall i, j :: 0 <= i < j < |m.begun| ==> Rank(m.begun[i]) < Rank(m.begun[j]))
    && (forall s :: s in m.begun ==> Body(s) && Before(plan, m, Rank(s)))
    && EffectsAgree(plan, m)
    && (m.items != [] ==> Backed(plan, m, m.items))
    && (Done(m, Backup) ==> |m.items| == |plan.dataNames|)
    && (m.nodes != plan.nodes ==>
          m.nodes == MigrateNodes(plan.nodes, plan.source, plan.target) && HasEffect(m, PersistRepo))
    && PauseAgrees(plan, m.(at := None))
  }

  lemma FailKeeps(plan: Plan, m: Migration, s: Step, recorded: bool)
    requires MayFail(plan, m) && (s.AwaitingConfirmation? ==> !m.offered)
    ensures Inv(plan, Fail(m, s, recorded))
  {
    hide Plausible, HasEffect, Backed, MigrateNodes;
    var m' := Fail(m, s, recorded);
    SameHistory(plan, m, m');
    assert forall t :: Done(m', t) == Done(m, t);
    assert forall i: nat :: Before(plan, m', i) == Before(plan, m, i);
    assert PauseAgrees(plan, m') by { hide Before, Needed; }
    hide Before, Done, Needed, PauseAgrees;
  }

  lemma InvMayFail(plan: Plan, m: Migration)
    requires Inv(plan, m) && m.at.Some?
    ensures MayFail(plan, m)
  {}

  // ----- Taking a step -----

  /** The dynamic test of the executor agrees with the plan. */
  lemma ApplicableIffNeeded(plan: Plan, m: Migration, s: Step)
    requires Inv(plan, m) && m.at == Some(Rank(s))
    ensures Applicable(plan, m, s) <==> Needed(plan, s)
  {
    if s.Restore? && plan.dataNames != [] {
      assert Needed(plan, Backup) && Done(m, Backup);
    }
  }

  /** The step about to be taken has not begun, and nothing after it has. */
  lemma NotBegun(plan: Plan, m: Migration, s: Step)
    requires Inv(plan, m) && m.at == Some(Rank(s)) && !Done(m, s) && Needed(plan, s)
    ensures forall t :: t in m.begun ==> Rank(t) < Rank(s)
    ensures forall e :: e in m.effects ==> Rank(StepOf(e)) < Rank(s)
  {
    forall t | t in m.begun ensures Rank(t) < Rank(s) {
      assert Done(m, t);
      assert Before(plan, m, Rank(t));
      RankIsInjective(s, t);
    }
  }

  lemma RankIsInjective(s: Step, t: Step)
    ensures Rank(s) == Rank(t) ==> s == t
    ensures Rank(s) < |ORDER| && ORDER[Rank(s)] == s
  {}

  lemma BeginKeeps(plan: Plan, m: Migration, s: Step)
    requires Inv(plan, m) && m.at == Some(Rank(s)) && !Done(m, s) && Needed(plan, s) && Body(s)
    ensures MayFail(plan, Begin(m, s))
    ensures forall t :: t in m.begun ==> Rank(t) < Rank(s)
    ensures forall e :: e in m.effects ==> Rank(StepOf(e)) < Rank(s)
    ensures forall t :: Done(Begin(m, s), t) == Done(m, t)
  {
    hide Plausible, HasEffect, Backed, MigrateNodes;
    NotBegun(plan, m, s);
    assert s !in m.steps;
    BeginMayFail(plan, m, s);
  }

  lemma BeginMayFail(plan: Plan, m: Migration, s: Step)
    requires MayFail(plan, m) && s !in m.steps && Body(s) && Before(plan, m, Rank(s))
    requires forall t :: t in m.begun ==> Rank(t) < Rank(s)
    ensures MayFail(plan, Begin(m, s)) && forall t :: Done(Begin(m, s), t) == Done(m, t)
  {
    hide Plausible, HasEffect, Backed, MigrateNodes, EffectsAgree, PauseAgrees;
    var b := Begin(m, s);
    SameHistory(plan, m, b);
    assert forall t :: Done(b, t) == Done(m, t);
    assert forall i: nat :: Before(plan, b, i) == Before(plan, m, i);
    BeginKeepsEffects(plan, m, b);
    BeginKeepsPause(plan, m, s);
    hide Before;
  }

  lemma BeginKeepsEffects(plan: Plan, m: Migration, b: Migration)
    requires EffectsAgree(plan, m) && b.effects == m.effects && m.begun <= b.begun
    requires forall e :: Plausible(plan, b, e) == Plausible(plan, m, e)
    ensures EffectsAgree(plan, b)
  {
    hide Plausible;
  }

  lemma BeginKeepsPause(plan: Plan, m: Migration, s: Step)
    requires PauseAgrees(plan, m.(at := None)) && s !in m.steps && Body(s)
    requires forall t :: Done(Begin(m, s), t) == Done(m, t)
    ensures PauseAgrees(plan, Begin(m, s).(at := None))
  {}

  lemma CaptureFromBackup(plan: Plan, dataNames: seq<string>, backups: map<string, string>, task: nat)
    ensures var c := Capture(dataNames, backups, task);
            c.Some? ==>
              && |c.value| == |dataNames|
              && forall i :: 0 <= i < |c.value| ==>
                   c.value[i].dataName == dataNames[i] && c.value[i].artifact != "" && c.value[i].task == task
  {
    if dataNames != [] {
      CaptureFromBackup(plan, Front(dataNames), backups, task);
    }
  }

  /** Adding the effect of the step that has just begun. */
  lemma EffectKeeps(plan: Plan, b: Migration, s: Step, e: Effect)
    requires MayFail(plan, b) && s in b.begun && Body(s) && StepOf(e) == s
    requires forall d :: d in b.effects ==> Rank(StepOf(d)) < Rank(s)
    requires Plausible(plan, b.(effects := b.effects + [e]), e)
    ensures MayFail(plan, b.(effects := b.effects + [e])) && HasEffect(b.(effects := b.effects + [e]), s)
  {
    var m' := b.(effects := b.effects + [e]);
    assert e in m'.effects;
    assert forall i: nat :: Before(plan, m', i) == Before(plan, b, i);
    forall t | HasEffect(b, t) ensures HasEffect(m', t) {
      var d :| d in b.effects && StepOf(d) == t;
      assert d in m'.effects;
    }
    forall items | Backed(plan, b, items) ensures Backed(plan, m', items) {
      var task :| BackupSource(task) in b.effects && FromBackup(plan, items, task);
      assert BackupSource(task) in m'.effects;
    }
    forall d | d in m'.effects ensures Plausible(plan, m', d) {
      if d != e {
        assert d in b.effects && Plausible(plan, b, d);
      }
    }
  }

  /** The step has begun and had its effect; its record is still open. */
  ghost predicate Acted(plan: Plan, m: Migration, a: Migration, s: Step) {
    && MayFail(plan, a) && HasEffect(a, s)
    && (s.Backup? ==> |a.items| == |plan.dataNames|) && (!s.Backup? ==> a.items == m.items)
    && a.steps == Begin(m, s).steps && a.begun == m.begun + [s] && a.offered == m.offered
    && a.approving == m.approving && a.rejecting == m.rejecting && a.status == m.status
  }

  lemma ActKeeps(plan: Plan, m: Migration, s: Step, task: nat, items: seq<Item>)
    requires Inv(plan, m) && m.at == Some(Rank(s)) && !Done(m, s) && Needed(plan, s) && Body(s)
    requires s.Backup? ==> FromBackup(plan, items, task)
    ensures Acted(plan, m, Act(plan, Begin(m, s), s, task, items), s)
  {
    hide Inv, MayFail, Backed, HasEffect;
    var b := Begin(m, s);
    BeginKeeps(plan, m, s);
    assert s in b.begun;
    match s
    case ComposeDown => EffectKeeps(plan, b, s, StopSource);
    case ComposeUp => EffectKeeps(plan, b, s, DeployTarget);
    case DnsUpdate => EffectKeeps(plan, b, s, SyncDns(MigrateNodes(plan.nodes, plan.source, plan.target)));
    case Restore => RestoreKeeps(plan, m, b);
    case Backup => BackupKeeps(plan, m, b, task, items);
    case PersistRepo => PersistKeeps(plan, b);
  }

  lemma BackupKeeps(plan: Plan, m: Migration, b: Migration, task: nat, items: seq<Item>)
    requires Inv(plan, m) && m.at == Some(Rank(Backup)) && !Done(m, Backup)
    requires b == Begin(m, Backup) && MayFail(plan, b) && FromBackup(plan, items, task)
    requires forall d :: d in b.effects ==> Rank(StepOf(d)) < Rank(Backup)
    ensures var a := b.(effects := b.effects + [BackupSource(task)], items := b.items + items);
            MayFail(plan, a) && HasEffect(a, Backup) && a.items == items
  {
    var e := BackupSource(task);
    EffectKeeps(plan, b, Backup, e);
    var a := b.(effects := b.effects + [e]);
    assert m.items == [];
    assert b.items + items == items;
    assert BackupSource(task) in a.effects;
    assert Backed(plan, a, items);
    assert !Done(a, Backup);
    hide Inv, MayFail, Backed;
    ItemsKeep(plan, a, items);
  }

  lemma ItemsKeep(plan: Plan, a: Migration, items: seq<Item>)
    requires MayFail(plan, a) && Backed(plan, a, items) && !Done(a, Backup)
    ensures MayFail(plan, a.(items := items))
    ensures HasEffect(a, Backup) ==> HasEffect(a.(items := items), Backup)
  {
    hide Backed, Plausible, HasEffect, MigrateNodes;
    SameHistory(plan, a, a.(items := items));
    assert forall i: nat :: Before(plan, a.(items := items), i) == Before(plan, a, i);
  }

  lemma PersistKeeps(plan: Plan, b: Migration)
    requires MayFail(plan, b) && PersistRepo in b.begun
    requires forall d :: d in b.effects ==> Rank(StepOf(d)) < Rank(PersistRepo)
    ensures var nodes := MigrateNodes(plan.nodes, plan.source, plan.target);
            var a := b.(effects := b.effects + [WriteNodes(nodes)], nodes := nodes);
            MayFail(plan, a) && HasEffect(a, PersistRepo)
  {
    var nodes := MigrateNodes(plan.nodes, plan.source, plan.target);
    EffectKeeps(plan, b, PersistRepo, WriteNodes(nodes));
    var a := b.(effects := b.effects + [WriteNodes(nodes)]);
    var a' := a.(nodes := nodes);
    SameHistory(plan, a, a');
    hide Backed, Plausible, HasEffect, MigrateNodes;
    assert forall i: nat :: Before(plan, a', i) == Before(plan, a, i);
  }

  lemma RestoreKeeps(plan: Plan, m: Migration, b: Migration)
    requires Inv(plan, m) && m.at == Some(Rank(Restore)) && !Done(m, Restore) && Needed(plan, Restore)
    requires b == Begin(m, Restore) && MayFail(plan, b)
    requires forall e :: e in b.effects ==> Rank(StepOf(e)) < Rank(Restore)
    ensures var a := b.(effects := b.effects + [RestoreTarget(b.items)]); MayFail(plan, a) && HasEffect(a, Restore)
  {
    var e := RestoreTarget(b.items);
    assert Needed(plan, Backup) && Done(m, Backup);
    assert Backed(plan, m, m.items);
    var task :| BackupSource(task) in m.effects && FromBackup(plan, m.items, task);
    assert BackupSource(task) in b.(effects := b.effects + [e]).effects;
    EffectKeeps(plan, b, Restore, e);
  }

  /** Closing the step's record successfully. */
  lemma SucceedKeeps(plan: Plan, m: Migration, a: Migration, s: Step)
    requires Inv(plan, m) && m.at == Some(Rank(s)) && !Done(m, s) && Needed(plan, s) && Body(s)
    requires Acted(plan, m, a, s)
    ensures Inv(plan, CloseStep(a, s))
  {
    hide StepsAgree, BodiesAgree, EffectsAgree, DataAgrees, PauseAgrees, Acted, Before, CloseStep;
    SucceedFacts(plan, m, a, s);
    SucceedKeepsSteps(plan, m, a, s);
    SucceedKeepsHistory(plan, m, a, s);
    SucceedKeepsData(plan, m, a, s);
    SucceedKeepsPause(plan, m, a, s);
  }

  lemma SucceedFacts(plan: Plan, m: Migration, a: Migration, s: Step)
    requires StepsAgree(plan, m) && Acted(plan, m, a, s)
    requires m.at == Some(Rank(s)) && !Done(m, s) && Needed(plan, s) && Body(s)
    ensures s !in m.steps && Live(m) && m.status.TaskRunning?
    ensures forall t :: Done(CloseStep(a, s), t) <==> Done(m, t) || t == s
    ensures forall t :: Done(a, t) ==> Done(CloseStep(a, s), t)
    ensures Before(plan, CloseStep(a, s), Rank(s) + 1)
    ensures forall t :: Done(CloseStep(a, s), t) ==> Before(plan, CloseStep(a, s), Rank(t))
  {
    hide MayFail, HasEffect, Before;
    assert s !in m.steps;
    forall t ensures (Done(CloseStep(a, s), t) <==> Done(m, t) || t == s) && (Done(a, t) ==> Done(CloseStep(a, s), t)) {
      DoneAfterClose(m, a, s, t);
    }
    OneMoreDone(plan, m, CloseStep(a, s), s);
  }

  lemma DoneAfterClose(m: Migration, a: Migration, s: Step, t: Step)
    requires s !in m.steps && a.steps == Begin(m, s).steps
    ensures Done(CloseStep(a, s), t) <==> Done(m, t) || t == s
    ensures Done(a, t) ==> Done(CloseStep(a, s), t)
  {}

  lemma SucceedKeepsPause(plan: Plan, m: Migration, a: Migration, s: Step)
    requires PauseAgrees(plan, m) && m.at.Some? && m.status.TaskRunning? && Body(s) && Acted(plan, m, a, s)
    requires forall t :: Done(a, t) ==> Done(CloseStep(a, s), t)
    requires forall t :: Done(CloseStep(a, s), t) <==> Done(m, t) || t == s
    ensures PauseAgrees(plan, CloseStep(a, s))
  {
    hide HasEffect, EffectsAgree, Backed;
    assert PauseAgrees(plan, a.(at := None));
  }

  lemma SucceedKeepsSteps(plan: Plan, m: Migration, a: Migration, s: Step)
    requires StepsAgree(plan, m) && m.at == Some(Rank(s)) && s !in m.steps && Body(s)
    requires Acted(plan, m, a, s)
    requires forall t :: Done(CloseStep(a, s), t) <==> Done(m, t) || t == s
    requires Before(plan, CloseStep(a, s), Rank(s) + 1) && forall t :: Done(CloseStep(a, s), t) ==> Before(plan, CloseStep(a, s), Rank(t))
    ensures StepsAgree(plan, CloseStep(a, s))
  {
    hide Plausible, Backed, MigrateNodes, EffectsAgree;
    SameHistory(plan, a, CloseStep(a, s));
    hide HasEffect;
  }

  lemma SucceedKeepsHistory(plan: Plan, m: Migration, a: Migration, s: Step)
    requires BodiesAgree(plan, m) && m.at.Some? && m.status.TaskRunning? && Acted(plan, m, a, s)
    requires forall t :: Done(CloseStep(a, s), t) <==> Done(m, t) || t == s
    requires forall t :: Done(a, t) ==> Done(CloseStep(a, s), t)
    ensures BodiesAgree(plan, CloseStep(a, s)) && EffectsAgree(plan, CloseStep(a, s))
  {
    hide Backed, MigrateNodes, HasEffect;
    SameHistory(plan, a, CloseStep(a, s));
    hide Plausible;
    assert forall i: nat :: Before(plan, a, i) ==> Before(plan, CloseStep(a, s), i);
  }

  lemma SucceedKeepsData(plan: Plan, m: Migration, a: Migration, s: Step)
    requires DataAgrees(plan, m) && Live(m) && Acted(plan, m, a, s)
    requires forall t :: Done(CloseStep(a, s), t) <==> Done(m, t) || t == s
    ensures DataAgrees(plan, CloseStep(a, s))
  {
    hide Plausible, MigrateNodes, EffectsAgree;
    SameHistory(plan, a, CloseStep(a, s));
    hide Backed, HasEffect;
  }

  lemma OneMoreDone(plan: Plan, m: Migration, m': Migration, s: Step)
    requires forall t :: Done(m', t) <==> Done(m, t) || t == s
    requires Before(plan, m, Rank(s)) && forall t :: Done(m, t) ==> Before(plan, m, Rank(t))
    ensures Before(plan, m', Rank(s) + 1)
    ensures forall t :: Done(m', t) ==> Before(plan, m', Rank(t))
    ensures forall i: nat :: Before(plan, m, i) ==> Before(plan, m', i)
  {
    forall t | Rank(t) < Rank(s) + 1 && Needed(plan, t) ensures Done(m', t) {
      RankIsInjective(s, t);
    }
  }

  lemma TakeKeeps(plan: Plan, m: Migration, s: Step, o: Outcome, task: nat, backups: map<string, string>)
    requires Inv(plan, m) && m.at == Some(Rank(s)) && !Done(m, s) && Needed(plan, s) && Body(s)
    ensures Inv(plan, TakeStep(plan, m, s, o, task, backups))
  {
    hide Inv, MayFail, Act, Acted, CloseStep, Fail;
    var captured := Capture(plan.dataNames, backups, task);
    CaptureFromBackup(plan, plan.dataNames, backups, task);
    var after := AfterBody(plan, m, s, o, task, captured);
    AfterBodyKeeps(plan, m, s, o, task, captured);
    if o.Succeeds? && (s.Backup? ==> captured.Some?) {
      SucceedKeeps(plan, m, after, s);
    } else {
      FailKeeps(plan, after, s, o.Succeeds? || o.recorded);
    }
  }

  lemma AfterBodyKeeps(plan: Plan, m: Migration, s: Step, o: Outcome, task: nat, captured: Option<seq<Item>>)
    requires Inv(plan, m) && m.at == Some(Rank(s)) && !Done(m, s) && Needed(plan, s) && Body(s)
    requires s.Backup? && captured.Some? ==> FromBackup(plan, captured.value, task)
    ensures MayFail(plan, AfterBody(plan, m, s, o, task, captured))
    ensures o.Succeeds? && (s.Backup? ==> captured.Some?) ==> Acted(plan, m, AfterBody(plan, m, s, o, task, captured), s)
  {
    hide Inv, MayFail, Act, Acted;
    InvMayFail(plan, m);
    BeginKeeps(plan, m, s);
    if o.BodyFails? && !o.effect.Landed? {
      ChildMayFail(plan, Begin(m, s), AfterBody(plan, m, s, o, task, captured).child);
    } else if s.Backup? && captured.None? {
      EffectKeeps(plan, Begin(m, s), s, BackupSource(task));
    } else {
      var items := if captured.Some? then captured.value else [];
      ActKeeps(plan, m, s, task, items);
      ActedMayFail(plan, m, Act(plan, Begin(m, s), s, task, items), s);
    }
  }

  lemma ChildMayFail(plan: Plan, b: Migration, child: Option<Effect>)
    requires MayFail(plan, b)
    ensures MayFail(plan, b.(child := child))
  {
    hide Backed, Plausible, HasEffect, MigrateNodes;
    SameHistory(plan, b, b.(child := child));
    assert forall i: nat :: Before(plan, b.(child := child), i) == Before(plan, b, i);
  }

  lemma ActedMayFail(plan: Plan, m: Migration, a: Migration, s: Step)
    requires Acted(plan, m, a, s)
    ensures MayFail(plan, a)
  {}

  lemma SkipKeeps(plan: Plan, m: Migration, s: Step)
    requires Inv(plan, m) && m.at == Some(Rank(s)) && !s.Finalize? && (Done(m, s) || !Needed(plan, s))
    ensures Inv(plan, m.(at := Some(Rank(s) + 1)))
  {
    hide Plausible, HasEffect, Backed, MigrateNodes;
    var m' := m.(at := Some(Rank(s) + 1));
    SameHistory(plan, m, m');
    forall t | Rank(t) < Rank(s) + 1 && Needed(plan, t) ensures Done(m', t) {
      RankIsInjective(s, t);
      assert Rank(t) < Rank(s) ==> Done(m, t);
    }
    assert forall i: nat :: Before(plan, m', i) == Before(plan, m, i);
    assert forall t :: Done(m', t) == Done(m, t);
  }

  lemma PauseKeeps(plan: Plan, m: Migration, o: Outcome)
    requires Inv(plan, m) && m.at == Some(Rank(AwaitingConfirmation)) && !Done(m, AwaitingConfirmation)
    ensures Inv(plan, Pause(m, o))
  {
    hide Plausible, HasEffect, Backed, MigrateNodes;
    InvMayFail(plan, m);
    assert !m.offered && AwaitingConfirmation !in m.steps;
    var p := m.(steps := Upsert(m.steps, AwaitingConfirmation, Awaiting));
    SameHistory(plan, m, p);
    assert forall t :: Done(p, t) == Done(m, t);
    assert forall i: nat :: Before(plan, p, i) == Before(plan, m, i);
    assert MayFail(plan, p);
    if o.Succeeds? {
      var m' := Pause(m, o);
      SameHistory(plan, m, m');
      assert forall t :: Done(m', t) == Done(m, t);
      assert forall i: nat :: Before(plan, m', i) == Before(plan, m, i);
      hide Plausible, HasEffect, Backed, MigrateNodes, MayFail;
    } else {
      hide Inv, MayFail;
      FailKeeps(plan, m, AwaitingConfirmation, o.recorded);
      FailKeeps(plan, p, AwaitingConfirmation, o.recorded);
    }
  }

  lemma CloseKeeps(plan: Plan, m: Migration, o: Outcome)
    requires Inv(plan, m) && m.at == Some(Rank(Finalize))
    ensures Inv(plan, Close(m, o))
  {
    hide Plausible, HasEffect, Backed, MigrateNodes;
    InvMayFail(plan, m);
    var c := m.(steps := Upsert(m.steps, Finalize, Succeeded));
    SameHistory(plan, m, c);
    assert forall t :: Done(c, t) <==> Done(m, t) || t == Finalize;
    OneMoreDone(plan, m, c, Finalize);
    assert MayFail(plan, c);
    match o
    case OpenFails(recorded) => FailKeeps(plan, m, Finalize, recorded);
    case BodyFails(_, recorded) => FailKeeps(plan, c, Finalize, recorded);
    case CloseFails(_) => FailKeeps(plan, c, Finalize, false);
    case Succeeds => ClosedKeeps(plan, m, c);
  }

  lemma ClosedKeeps(plan: Plan, m: Migration, c: Migration)
    requires Inv(plan, m) && m.at == Some(Rank(Finalize)) && MayFail(plan, c)
    requires c == m.(steps := Upsert(m.steps, Finalize, Succeeded))
    ensures Inv(plan, Complete(c.(at := None), TaskSucceeded, Succeeded))
  {
    hide Plausible, HasEffect, Backed, MigrateNodes;
    var m' := Complete(c.(at := None), TaskSucceeded, Succeeded);
    assert Needed(plan, AwaitingConfirmation) && Done(m, AwaitingConfirmation);
    assert forall s :: s in c.steps ==> Done(c, s);
    assert m'.steps == c.steps;
    SameHistory(plan, c, m');
    assert forall t :: Done(m', t) == Done(c, t);
    assert forall i: nat :: Before(plan, m', i) == Before(plan, c, i);
    assert Done(c, Finalize);
    hide Before, Done, Needed;
  }

  lemma AdvanceKeeps(plan: Plan, m: Migration, o: Outcome, task: nat, backups: map<string, string>)
    requires Inv(plan, m)
    ensures Inv(plan, Next(plan, m, Advance(o, task, backups)))
  {
    if m.at.Some? && m.at.value < |ORDER| {
      var s := ORDER[m.at.value];
      OrderIsRanked(m.at.value);
      ApplicableIffNeeded(plan, m, s);
      hide Inv, TakeStep, Pause, Close;
      if s.Finalize? {
        CloseKeeps(plan, m, o);
      } else if Done(m, s) || !Applicable(plan, m, s) {
        SkipKeeps(plan, m, s);
      } else if s.AwaitingConfirmation? {
        PauseKeeps(plan, m, o);
      } else {
        TakeKeeps(plan, m, s, o, task, backups);
      }
    }
  }

  lemma OrderIsRanked(i: nat)
    requires i < |ORDER|
    ensures Rank(ORDER[i]) == i
  {}

  // ----- Claiming, crashing and the handlers -----

  // These three leave the history and which steps are done alone.

  lemma ClaimKeeps(plan: Plan, m: Migration)
    requires Inv(plan, m)
    ensures Inv(plan, Next(plan, m, Claim))
  {
    hide Plausible, HasEffect, Backed, MigrateNodes;
    if m.status.Pending? {
      var m' := m.(status := TaskRunning, at := Some(0));
      SameHistory(plan, m, m');
      assert forall i: nat :: Before(plan, m', i) == Before(plan, m, i);
      assert StepsAgree(plan, m') by { hide BodiesAgree, EffectsAgree, DataAgrees, PauseAgrees; }
      assert BodiesAgree(plan, m') by { hide StepsAgree, EffectsAgree, DataAgrees, PauseAgrees; }
      assert DataAgrees(plan, m') by { hide StepsAgree, BodiesAgree, EffectsAgree, PauseAgrees; }
      assert PauseAgrees(plan, m') by { hide StepsAgree, BodiesAgree, EffectsAgree, DataAgrees; }
    }
  }

  lemma CrashKeeps(plan: Plan, m: Migration)
    requires Inv(plan, m)
    ensures Inv(plan, Next(plan, m, Crash))
  {
    hide Plausible, HasEffect, Backed, MigrateNodes;
    var m' := Next(plan, m, Crash);
    SameHistory(plan, m, m');
    assert forall i: nat :: Before(plan, m', i) == Before(plan, m, i);
    assert forall t :: Done(m', t) == Done(m, t);
    hide Before, Done, Needed;
  }

  lemma ApproveTaskKeeps(plan: Plan, m: Migration)
    requires Inv(plan, m)
    ensures Inv(plan, Next(plan, m, ApproveTask))
  {
    hide Plausible, HasEffect, Backed, MigrateNodes;
    var m' := Next(plan, m, ApproveTask);
    SameHistory(plan, m, m');
    assert forall i: nat :: Before(plan, m', i) == Before(plan, m, i);
  }

  lemma AbortKeeps(plan: Plan, m: Migration, recorded: bool)
    requires Inv(plan, m)
    ensures Inv(plan, Next(plan, m, Abort(recorded)))
  {
    if m.at == Some(0) {
      InvMayFail(plan, m);
      FailKeeps(plan, m, Finalize, recorded);
    }
  }

  lemma ApproveKeeps(plan: Plan, m: Migration)
    requires Inv(plan, m)
    ensures Inv(plan, Next(plan, m, ApproveStep))
  {
    hide Plausible, HasEffect, Backed, MigrateNodes;
    var m' := Next(plan, m, ApproveStep);
    SameHistory(plan, m, m');
    if m.offered && Upserts(m.steps, AwaitingConfirmation, Succeeded) {
      assert forall t :: Done(m', t) <==> Done(m, t) || t == AwaitingConfirmation;
      OneMoreDone(plan, m, m', AwaitingConfirmation);
    }
  }

  lemma RejectStepKeeps(plan: Plan, m: Migration)
    requires Inv(plan, m)
    ensures Inv(plan, Next(plan, m, RejectStep))
  {
    hide Plausible, HasEffect, Backed, MigrateNodes;
    var r := Next(plan, m, RejectStep);
    SameHistory(plan, m, r);
    assert forall t :: Done(r, t) == Done(m, t);
    assert forall i: nat :: Before(plan, r, i) == Before(plan, m, i);
  }

  lemma RejectTaskKeeps(plan: Plan, m: Migration)
    requires Inv(plan, m)
    ensures Inv(plan, Next(plan, m, RejectTask))
  {
    hide Plausible, HasEffect, Backed, MigrateNodes;
    var c := Next(plan, m, RejectTask);
    SameHistory(plan, m, c);
    assert forall t :: Done(c, t) == Done(m, t);
    assert forall i: nat :: Before(plan, c, i) == Before(plan, m, i);
  }

  // ----- The child -----

  /** The one effect that may come later comes after all others. */
  lemma ChildEndsKeeps(plan: Plan, m: Migration, effect: bool)
    requires Inv(plan, m) && ChildAgrees(plan, m)
    ensures Inv(plan, Next(plan, m, ChildEnds(effect)))
  {
    if m.child.Some? {
      var m' := Next(plan, m, ChildEnds(effect));
      assert forall i: nat :: Before(plan, m', i) == Before(plan, m, i);
      if effect {
        LateEffectKeeps(plan, m, m.child.value);
      } else {
        SameHistory(plan, m, m');
        hide Plausible, HasEffect, Backed, MigrateNodes;
      }
    }
  }

  lemma LateEffectKeeps(plan: Plan, m: Migration, e: Effect)
    requires Inv(plan, m) && ChildAgrees(plan, m) && m.child == Some(e)
    ensures Inv(plan, m.(child := None, effects := m.effects + [e]))
  {
    hide StepsAgree, BodiesAgree, EffectsAgree, DataAgrees, PauseAgrees, Plausible, HasEffect, Backed;
    var m' := m.(child := None, effects := m.effects + [e]);
    MoreHistory(plan, m, m', e);
    LateEffectsAgree(plan, m, m', e);
    LateRestAgrees(plan, m, m');
  }

  lemma LateEffectsAgree(plan: Plan, m: Migration, m': Migration, e: Effect)
    requires BodiesAgree(plan, m) && EffectsAgree(plan, m) && ChildAgrees(plan, m) && m.child == Some(e)
    requires m' == m.(child := None, effects := m.effects + [e])
    requires forall d :: Plausible(plan, m, d) ==> Plausible(plan, m', d)
    ensures EffectsAgree(plan, m')
  {
    LateEffectIsLast(plan, m, e);
    hide BodiesAgree, Plausible, HasEffect;
  }

  lemma LateRestAgrees(plan: Plan, m: Migration, m': Migration)
    requires StepsAgree(plan, m) && BodiesAgree(plan, m) && DataAgrees(plan, m) && PauseAgrees(plan, m)
    requires m' == m.(child := m'.child, effects := m'.effects)
    requires forall s :: HasEffect(m, s) ==> HasEffect(m', s)
    requires forall items :: Backed(plan, m, items) ==> Backed(plan, m', items)
    ensures StepsAgree(plan, m') && BodiesAgree(plan, m') && DataAgrees(plan, m') && PauseAgrees(plan, m')
  {
    hide HasEffect, Backed, MigrateNodes;
    assert forall i: nat :: Before(plan, m', i) == Before(plan, m, i);
    assert forall t :: Done(m', t) == Done(m, t);
    hide Before, Done, Needed;
  }

  lemma LateEffectIsLast(plan: Plan, m: Migration, e: Effect)
    requires BodiesAgree(plan, m) && EffectsAgree(plan, m) && ChildAgrees(plan, m) && m.child == Some(e)
    ensures forall d :: d in m.effects ==> Rank(StepOf(d)) < Rank(StepOf(e))
  {
    hide Plausible, Before;
    forall d | d in m.effects ensures Rank(StepOf(d)) < Rank(StepOf(e)) {
      assert StepOf(d) in m.begun && StepOf(d) != StepOf(e);
      var i :| 0 <= i < |m.begun| && m.begun[i] == StepOf(d);
      assert m.begun[|m.begun| - 1] == StepOf(e);
    }
  }

  /** One effect more leaves what the others gave. */
  lemma MoreHistory(plan: Plan, m: Migration, m': Migration, e: Effect)
    requires m'.effects == m.effects + [e]
    ensures forall s :: HasEffect(m, s) ==> HasEffect(m', s)
    ensures forall items :: Backed(plan, m, items) ==> Backed(plan, m', items)
    ensures forall d :: Plausible(plan, m, d) ==> Plausible(plan, m', d)
  {
    hide FromBackup, MigrateNodes;
    forall s | HasEffect(m, s) ensures HasEffect(m', s) {
      var d :| d in m.effects && StepOf(d) == s;
      assert d in m'.effects;
    }
    forall items | Backed(plan, m, items) ensures Backed(plan, m', items) {
      var task :| BackupSource(task) in m.effects && FromBackup(plan, items, task);
      assert BackupSource(task) in m'.effects;
    }
  }

  lemma ChildStep(plan: Plan, m: Migration, ev: Event)
    requires Inv(plan, m) && ChildAgrees(plan, m)
    ensures ChildAgrees(plan, Next(plan, m, ev))
  {
    hide Plausible, HasEffect, Backed, MigrateNodes, Before;
    var m' := Next(plan, m, ev);
    if ev.Advance? {
      if m.at.Some? && m.at.value < |ORDER| {
        ChildAdvance(plan, m, ev.o, ev.task, ev.backups);
      }
    } else if !ev.ChildEnds? {
      hide TakeStep, Pause, Close;
      SameHistory(plan, m, m');
    }
  }

  lemma ChildAdvance(plan: Plan, m: Migration, o: Outcome, task: nat, backups: map<string, string>)
    requires Inv(plan, m) && ChildAgrees(plan, m) && m.at.Some? && m.at.value < |ORDER|
    ensures ChildAgrees(plan, Next(plan, m, Advance(o, task, backups)))
  {
    var s := ORDER[m.at.value];
    OrderIsRanked(m.at.value);
    ApplicableIffNeeded(plan, m, s);
    LiveHasNone(plan, m);
    PauseLeavesChild(m, o);
    CloseLeavesChild(m, o);
    hide Inv, ChildAgrees, TakeStep, Pause, Close;
    if Body(s) && !Done(m, s) && Applicable(plan, m, s) {
      ChildTake(plan, m, s, o, task, backups);
    } else {
      NoChildAgrees(plan, Next(plan, m, Advance(o, task, backups)));
    }
  }

  lemma PauseLeavesChild(m: Migration, o: Outcome)
    ensures Pause(m, o).child == m.child
  {
    hide Upsert, Complete;
    CompleteLeavesChild();
  }

  lemma CloseLeavesChild(m: Migration, o: Outcome)
    ensures Close(m, o).child == m.child
  {
    hide Upsert, Complete;
    CompleteLeavesChild();
  }

  lemma CompleteLeavesChild()
    ensures forall m, status, st :: Complete(m, status, st).child == m.child
  {}

  lemma LiveHasNone(plan: Plan, m: Migration)
    requires Inv(plan, m) && ChildAgrees(plan, m) && m.at.Some?
    ensures m.child.None?
  {}

  lemma AfterBodyChild(plan: Plan, m: Migration, s: Step, o: Outcome, task: nat, captured: Option<seq<Item>>)
    requires m.child.None?
    ensures var a := AfterBody(plan, m, s, o, task, captured);
            (a.child.Some? <==> o.BodyFails? && o.effect.Unfinished? && HasChild(s))
            && (a.child.Some? ==> a == Begin(m, s).(child := ChildEffect(m, s, task)))
  {
    hide Begin, Act, ChildEffect;
    BeginLeavesChild(m, s);
    ActLeavesChild(plan, Begin(m, s), s, task, if captured.Some? then captured.value else []);
    ChildEffectIff(m, s, task);
  }

  /** Taking a step leaves an unfinished child iff the wait for one ended early. */
  lemma ChildTake(plan: Plan, m: Migration, s: Step, o: Outcome, task: nat, backups: map<string, string>)
    requires Inv(plan, m) && m.child.None? && m.at == Some(Rank(s)) && !Done(m, s) && Needed(plan, s) && Body(s)
    ensures var m' := TakeStep(plan, m, s, o, task, backups);
            && ChildAgrees(plan, m')
            && (m'.child.Some? <==> o.BodyFails? && o.effect.Unfinished? && HasChild(s))
  {
    hide Inv, ChildAgrees, AfterBody, Begin, Capture, Fail, CloseStep, ChildEffect, Needed, Done, Body;
    var captured := Capture(plan.dataNames, backups, task);
    var after := AfterBody(plan, m, s, o, task, captured);
    AfterBodyChild(plan, m, s, o, task, captured);
    EndLeavesChild(after, s, o.Succeeds? || o.recorded);
    if after.child.Some? {
      UnfinishedAgrees(plan, m, s, o.recorded, task);
    } else {
      NoChildAgrees(plan, TakeStep(plan, m, s, o, task, backups));
    }
  }

  lemma NoChildAgrees(plan: Plan, m: Migration)
    requires m.child.None?
    ensures ChildAgrees(plan, m)
  {}

  lemma BeginLeavesChild(m: Migration, s: Step)
    ensures Begin(m, s).child == m.child
  {}

  lemma ChildEffectIff(m: Migration, s: Step, task: nat)
    ensures ChildEffect(m, s, task).Some? <==> HasChild(s)
  {}

  lemma EndLeavesChild(m: Migration, s: Step, recorded: bool)
    ensures Fail(m, s, recorded).child == CloseStep(m, s).child == m.child
  {
    hide Upsert, EndRunning;
  }

  lemma UnfinishedAgrees(plan: Plan, m: Migration, s: Step, recorded: bool, task: nat)
    requires Inv(plan, m) && m.at == Some(Rank(s)) && !Done(m, s) && Needed(plan, s) && HasChild(s)
    ensures ChildAgrees(plan, Fail(Begin(m, s).(child := ChildEffect(m, s, task)), s, recorded))
  {
    hide MigrateNodes, Backed, EffectsAgree, PauseAgrees, DataAgrees;
    var m' := Fail(Begin(m, s).(child := ChildEffect(m, s, task)), s, recorded);
    SameHistory(plan, m, m');
    NotBegun(plan, m, s);
    ChildIsPlausible(plan, m, s, task);
    assert s !in m.steps;
    hide Plausible, Before;
  }

  lemma ActLeavesChild(plan: Plan, b: Migration, s: Step, task: nat, items: seq<Item>)
    ensures Act(plan, b, s, task, items).child == b.child
  {}

  lemma ChildIsPlausible(plan: Plan, m: Migration, s: Step, task: nat)
    requires Inv(plan, m) && m.at == Some(Rank(s)) && !Done(m, s) && Needed(plan, s) && HasChild(s)
    ensures ChildEffect(m, s, task).Some? && Plausible(plan, m, ChildEffect(m, s, task).value)
    ensures StepOf(ChildEffect(m, s, task).value) == s
  {
    hide Backed, MigrateNodes;
    if s.Restore? {
      assert Needed(plan, Backup) && Done(m, Backup);
    }
  }

  // ----- Every run -----

  lemma NextKeeps(plan: Plan, m: Migration, ev: Event)
    requires Inv(plan, m) && ChildAgrees(plan, m)
    ensures Inv(plan, Next(plan, m, ev)) && ChildAgrees(plan, Next(plan, m, ev))
  {
    hide Next, Inv, ChildAgrees;
    ChildStep(plan, m, ev);
    match ev
    case Claim => ClaimKeeps(plan, m);
    case Crash => CrashKeeps(plan, m);
    case ApproveTask => ApproveTaskKeeps(plan, m);
    case Abort(recorded) => AbortKeeps(plan, m, recorded);
    case Advance(o, task, backups) => AdvanceKeeps(plan, m, o, task, backups);
    case ApproveStep => ApproveKeeps(plan, m);
    case RejectStep => RejectStepKeeps(plan, m);
    case RejectTask => RejectTaskKeeps(plan, m);
    case ChildEnds(effect) => ChildEndsKeeps(plan, m, effect);
  }

  lemma {:induction false} Always(plan: Plan, events: seq<Event>)
    ensures Inv(plan, Run(plan, events)) && ChildAgrees(plan, Run(plan, events))
  {
    if events != [] {
      hide Next, Inv, ChildAgrees;
      Always(plan, Front(events));
      NextKeeps(plan, Run(plan, Front(events)), Last(events));
    }
  }
}
