/** What a migration promises, for every run. */
module MigrationResults {
  import opened Common
  import opened MigrationProtocol
  import opened MigrationSafety

  /** The steps that succeeded are closed under "earlier step of the plan". */
  lemma StepsInOrder(plan: Plan, events: seq<Event>, s: Step, t: Step)
    requires Done(Run(plan, events), s) && Rank(t) < Rank(s) && Needed(plan, t)
    ensures Done(Run(plan, events), t)
  {
    Always(plan, events);
    hide Run;
    assert Before(plan, Run(plan, events), Rank(s));
  }

  /** Over the whole life of a migration, the pause included, step bodies begin in the order of
      the steps and each at most once, and so do their effects. */
  lemma BodiesBeginOnce(plan: Plan, events: seq<Event>)
    ensures var m := Run(plan, events);
            && (forall i, j :: 0 <= i < j < |m.begun| ==> Rank(m.begun[i]) < Rank(m.begun[j]))
            && (forall i, j :: 0 <= i < j < |m.effects| ==> Rank(StepOf(m.effects[i])) < Rank(StepOf(m.effects[j])))
            && (forall e :: e in m.effects ==> StepOf(e) in m.begun)
  {
    Always(plan, events);
    hide Run;
  }

  function Phase(e: Effect): nat {
    match e
    case StopSource => 0
    case BackupSource(_) => 1
    case RestoreTarget(_) => 2
    case DeployTarget => 3
    case SyncDns(_) => 4
    case WriteNodes(_) => 5
  }

  lemma PhaseIsRank(e: Effect)
    ensures Phase(e) == if e.WriteNodes? then 5 else Rank(StepOf(e))
    ensures Rank(StepOf(e)) == if Phase(e) == 5 then 6 else Phase(e)
  {}

  /** The plan of every migration, on the outside world: stop, back up, restore, deploy, DNS, node
      list. Each happens at most once and in this order ... */
  lemma EffectsFollowThePlan(plan: Plan, events: seq<Event>, i: nat, j: nat)
    requires i < j < |Run(plan, events).effects|
    ensures Phase(Run(plan, events).effects[i]) < Phase(Run(plan, events).effects[j])
  {
    Always(plan, events);
    var m := Run(plan, events);
    PhaseIsRank(m.effects[i]);
    PhaseIsRank(m.effects[j]);
    hide Run, Plausible, Phase;
  }

  /** ... and only after everything before it that the plan calls for: backup and restore with data
      to move, DNS with names to move. */
  lemma EffectsArePreceded(plan: Plan, events: seq<Event>, e: Effect, p: nat)
    requires e in Run(plan, events).effects && p < Phase(e)
    requires (p == 1 || p == 2 ==> plan.dataNames != []) && (p == 4 ==> plan.hasDns)
    ensures exists d :: d in Run(plan, events).effects && Phase(d) == p
  {
    Always(plan, events);
    var m := Run(plan, events);
    PhaseIsRank(e);
    var t := ORDER[p];
    assert Rank(t) == p && Body(t) && Needed(plan, t);
    hide Run, Plausible, Phase;
    assert StepOf(e) in m.begun && Before(plan, m, Rank(StepOf(e)));
    assert HasEffect(m, t);
    var d :| d in m.effects && StepOf(d) == t;
    PhaseIsRank(d);
  }

  /** The target is deployed only after the source was stopped, and both stop and deploy happen
      at most once. */
  lemma DeployAfterStop(plan: Plan, events: seq<Event>, j: nat)
    requires j < |Run(plan, events).effects| && Run(plan, events).effects[j].DeployTarget?
    ensures exists i :: 0 <= i < j && Run(plan, events).effects[i].StopSource?
    ensures Done(Run(plan, events), ComposeDown)
  {
    Always(plan, events);
    var m := Run(plan, events);
    hide Run, Plausible;
    assert m.effects[j] in m.effects && ComposeUp in m.begun;
    assert Before(plan, m, Rank(ComposeUp)) && Needed(plan, ComposeDown);
    assert HasEffect(m, ComposeDown);
    var e :| e in m.effects && StepOf(e) == ComposeDown;
    var i :| 0 <= i < |m.effects| && m.effects[i] == e;
    assert i < j;
  }

  /** The target gets one artifact for each data name, in order, all from the one backup that was
      taken of the source before. */
  lemma RestoresTheBackup(plan: Plan, events: seq<Event>, j: nat)
    requires j < |Run(plan, events).effects| && Run(plan, events).effects[j].RestoreTarget?
    ensures var m := Run(plan, events);
            exists i :: 0 <= i < j && m.effects[i].BackupSource? &&
              FromBackup(plan, m.effects[j].items, m.effects[i].task)
  {
    Always(plan, events);
    var m := Run(plan, events);
    hide Run, FromBackup;
    var e := m.effects[j];
    assert e in m.effects && Plausible(plan, m, e);
    var task :| BackupSource(task) in m.effects && FromBackup(plan, e.items, task);
    var i :| 0 <= i < |m.effects| && m.effects[i] == BackupSource(task);
    assert StepOf(m.effects[i]) == Backup && StepOf(m.effects[j]) == Restore;
    assert i < j;
  }

  /** The node list in the repository changes only after the confirmation was approved, and only
      to the source replaced by the target. */
  lemma NodesOnlyAfterConfirmation(plan: Plan, events: seq<Event>)
    requires Run(plan, events).nodes != plan.nodes
    ensures var m := Run(plan, events);
            m.nodes == MigrateNodes(plan.nodes, plan.source, plan.target) && Done(m, AwaitingConfirmation)
  {
    Always(plan, events);
    var m := Run(plan, events);
    hide Run, Plausible;
    var e :| e in m.effects && StepOf(e) == PersistRepo;
    assert PersistRepo in m.begun;
    assert Before(plan, m, Rank(PersistRepo)) && Needed(plan, AwaitingConfirmation);
  }

  /** A succeeded migration has done every step of its plan and written the new node list. */
  lemma SuccessIsComplete(plan: Plan, events: seq<Event>)
    requires Run(plan, events).status.TaskSucceeded?
    ensures var m := Run(plan, events);
            && (forall s :: Needed(plan, s) ==> Done(m, s))
            && (forall s :: Needed(plan, s) && Body(s) ==> HasEffect(m, s))
            && m.nodes == MigrateNodes(plan.nodes, plan.source, plan.target)
  {
    Always(plan, events);
    var m := Run(plan, events);
    hide Run;
    forall s | Needed(plan, s) ensures Done(m, s) {
      assert Rank(s) < Rank(Finalize) || s == Finalize;
    }
    hide Plausible;
    WrittenNodes(plan, events);
  }

  /** Once the node list was written it stays written. */
  ghost predicate NodesWritten(plan: Plan, m: Migration) {
    HasEffect(m, PersistRepo) ==> m.nodes == MigrateNodes(plan.nodes, plan.source, plan.target)
  }

  /** A step changes the outside world by at most one effect; the node list only with its own. */
  ghost predicate OneEffect(plan: Plan, m: Migration, m': Migration) {
    || (m'.effects == m.effects && m'.nodes == m.nodes)
    || (exists e :: m'.effects == m.effects + [e] && !e.WriteNodes? && m'.nodes == m.nodes)
    || (exists e :: m'.effects == m.effects + [e] && e.WriteNodes? &&
         m'.nodes == MigrateNodes(plan.nodes, plan.source, plan.target))
  }

  lemma FailHasNone(plan: Plan, m: Migration, s: Step, recorded: bool)
    ensures Fail(m, s, recorded).effects == m.effects && Fail(m, s, recorded).nodes == m.nodes
  {}

  lemma ActHasOne(plan: Plan, m: Migration, b: Migration, s: Step, task: nat, items: seq<Item>)
    requires b.effects == m.effects && b.nodes == m.nodes
    ensures OneEffect(plan, m, Act(plan, b, s, task, items))
  {
    hide MigrateNodes;
    var a := Act(plan, b, s, task, items);
    if Body(s) {
      assert a.effects == m.effects + [Last(a.effects)];
    }
  }

  lemma TakeHasOne(plan: Plan, m: Migration, s: Step, o: Outcome, task: nat, backups: map<string, string>)
    ensures OneEffect(plan, m, TakeStep(plan, m, s, o, task, backups))
  {
    hide Act, Fail, MigrateNodes;
    var captured := Capture(plan.dataNames, backups, task);
    ActHasOne(plan, m, Begin(m, s), s, task, if captured.Some? then captured.value else []);
    FailHasNone(plan, AfterBody(plan, m, s, o, task, captured), s, o.Succeeds? || o.recorded);
  }

  lemma ClosingHasNone(m: Migration, o: Outcome)
    ensures Pause(m, o).effects == m.effects && Pause(m, o).nodes == m.nodes
    ensures Close(m, o).effects == m.effects && Close(m, o).nodes == m.nodes
  {
    hide Upsert;
  }

  lemma NextHasOne(plan: Plan, m: Migration, ev: Event)
    requires m.child.Some? ==> !m.child.value.WriteNodes?
    ensures OneEffect(plan, m, Next(plan, m, ev))
  {
    hide TakeStep, MigrateNodes, Upsert, Upserts, Pause, Close;
    if ev.Advance? && m.at.Some? && m.at.value < |ORDER| {
      ClosingHasNone(m, ev.o);
      TakeHasOne(plan, m, ORDER[m.at.value], ev.o, ev.task, ev.backups);
    }
  }

  lemma WrittenStep(plan: Plan, m: Migration, ev: Event)
    requires NodesWritten(plan, m) && (m.child.Some? ==> !m.child.value.WriteNodes?)
    ensures NodesWritten(plan, Next(plan, m, ev))
  {
    NextHasOne(plan, m, ev);
    hide Next, MigrateNodes;
    var m' := Next(plan, m, ev);
    if HasEffect(m', PersistRepo) {
      var e :| e in m'.effects && StepOf(e) == PersistRepo;
      if e in m.effects {
        assert HasEffect(m, PersistRepo);
      }
    }
  }

  lemma {:induction false} WrittenNodes(plan: Plan, events: seq<Event>)
    ensures NodesWritten(plan, Run(plan, events))
  {
    if events != [] {
      hide Next, NodesWritten, Inv;
      WrittenNodes(plan, Front(events));
      Always(plan, Front(events));
      WrittenStep(plan, Run(plan, Front(events)), Last(events));
    }
  }

  /** What an ended migration may still turn into: its last, unfinished child may have its effect,
      once. */
  ghost predicate Settles(m: Migration, m': Migration) {
    && !Live(m') && m'.begun == m.begun && m'.nodes == m.nodes
    && (|| (m'.effects == m.effects && m'.child == m.child)
        || (m.child.Some? && m'.child.None? && (m'.effects == m.effects || m'.effects == m.effects + [m.child.value])))
  }

  lemma EndedStep(plan: Plan, m: Migration, ev: Event)
    requires Inv(plan, m) && !Live(m)
    ensures Settles(m, Next(plan, m, ev))
  {}

  /** A migration that failed, was cancelled, succeeded or was cut off by a crash begins no body
      any more and leaves the node list alone; of the outside world at most the effect of its
      unfinished child still changes. */
  lemma {:induction false} EndedIsEnded(plan: Plan, before: seq<Event>, after: seq<Event>)
    requires !Live(Run(plan, before))
    ensures Settles(Run(plan, before), Run(plan, before + after))
  {
    hide Next, Inv, Live;
    if after == [] {
      assert before + after == before;
    } else {
      EndedIsEnded(plan, before, Front(after));
      Always(plan, before + Front(after));
      EndedStep(plan, Run(plan, before + Front(after)), Last(after));
      assert Front(before + after) == before + Front(after);
    }
  }

  /** ... and exactly when there is one: an effect after the end is still to come in some
      continuation iff the wait for the last body's child ended before the child did. */
  lemma LateEffectIffUnfinished(plan: Plan, before: seq<Event>)
    requires !Live(Run(plan, before))
    ensures (exists after :: Run(plan, before + after).effects != Run(plan, before).effects)
            <==> Run(plan, before).child.Some?
    ensures Run(plan, before).child.Some? ==>
              var m := Run(plan, before); var s := StepOf(m.child.value);
              m.begun != [] && Last(m.begun) == s && HasChild(s) && !Done(m, s) && !HasEffect(m, s)
  {
    Always(plan, before);
    var m := Run(plan, before);
    if m.child.Some? {
      var after := [ChildEnds(true)];
      assert Front(before + after) == before;
      assert Run(plan, before + after).effects != m.effects;
    }
    forall after | Run(plan, before + after).effects != m.effects
      ensures m.child.Some?
    {
      EndedIsEnded(plan, before, after);
    }
  }

  /** A step leaves an unfinished child exactly when its body waited for one and the wait ended
      first. */
  lemma LeavesChildIff(plan: Plan, events: seq<Event>, s: Step, o: Outcome, task: nat, backups: map<string, string>)
    requires var m := Run(plan, events); m.at == Some(Rank(s)) && !Done(m, s) && Applicable(plan, m, s) && Body(s)
    ensures Run(plan, events + [Advance(o, task, backups)]).child.Some? <==>
              o.BodyFails? && o.effect.Unfinished? && HasChild(s)
  {
    Always(plan, events);
    var m := Run(plan, events);
    assert Front(events + [Advance(o, task, backups)]) == events;
    hide Run, TakeStep, Inv, ChildAgrees;
    RankIsInjective(s, s);
    ApplicableIffNeeded(plan, m, s);
    LiveHasNone(plan, m);
    ChildTake(plan, m, s, o, task, backups);
  }

  /** So a migration on record as failed may still stop the service at its source. */
  lemma FailedMigrationStillStops(plan: Plan)
    ensures exists events ::
              && Run(plan, events).status.TaskFailed? && Run(plan, events).effects == []
              && Run(plan, events + [ChildEnds(true)]).effects == [StopSource]
              && Run(plan, events + [ChildEnds(true)]).status.TaskFailed?
  {
    var first := [Claim];
    var fails := Advance(BodyFails(Unfinished, true), 0, map[]);
    var events := first + [fails];
    assert Front(first) == [] && Front(events) == first && Front(events + [ChildEnds(true)]) == events;
    var m := Run(plan, first);
    assert Run(plan, []) == Init(plan);
    assert m == Next(plan, Init(plan), Claim) == Init(plan).(status := TaskRunning, at := Some(0));
    assert Run(plan, events) == Next(plan, m, fails);
    assert Next(plan, m, fails) == TakeStep(plan, m, ComposeDown, fails.o, 0, map[]);
    assert Run(plan, events).child == Some(StopSource);
  }

  /** While the executor is at a step, the confirmation handlers and children of old steps change
      nothing but the note that an approval passed: one execution may be looked at on its own. */
  lemma HandlersWaitForExecutor(plan: Plan, events: seq<Event>, ev: Event)
    requires Run(plan, events).at.Some?
    requires ev.ApproveStep? || ev.ApproveTask? || ev.RejectStep? || ev.RejectTask? || ev.ChildEnds?
    ensures var m := Run(plan, events);
            Next(plan, m, ev) == m.(approving := m.approving || (ev.ApproveStep? && m.offered))
  {
    Always(plan, events);
    var m := Run(plan, events);
    hide Run, StepsAgree, BodiesAgree, EffectsAgree, DataAgrees;
    LiveHasNone(plan, m);
    assert m.status.TaskRunning? by { RunningAtStep(plan, m); }
    if ev.ApproveStep? && m.offered {
      assert Upsert(m.steps, AwaitingConfirmation, Succeeded) == m.steps;
    }
  }

  lemma RunningAtStep(plan: Plan, m: Migration)
    requires Inv(plan, m) && m.at.Some?
    ensures m.status.TaskRunning?
  {}

  /** DNS is synchronised before the confirmation is offered: rejecting it leaves the DNS records
      at the target while the node list still names the source. */
  lemma DnsPrecedesConfirmation(plan: Plan, events: seq<Event>)
    requires Run(plan, events).offered && plan.hasDns
    ensures HasEffect(Run(plan, events), DnsUpdate)
    ensures Run(plan, events).rejecting ==> Run(plan, events).nodes == plan.nodes
  {
    Always(plan, events);
    var m := Run(plan, events);
    hide Run;
    assert Needed(plan, DnsUpdate) && Done(m, DnsUpdate);
    if m.rejecting && m.nodes != plan.nodes {
      NodesOnlyAfterConfirmation(plan, events);
    }
  }

  // ----- The node list -----

  /** Replacing the source keeps the length and every other entry; with the source present once
      and the target absent, the source is gone, the target is there once, and migrating back
      gives the old list. */
  lemma MigratedNodes(nodes: seq<string>, source: string, target: string)
    requires source in nodes && target !in nodes
    ensures var r := MigrateNodes(nodes, source, target);
            && |r| == |nodes| && target in r
            && MigrateNodes(r, target, source) == nodes
            && multiset(r) + multiset{source} == multiset(nodes) + multiset{target}
  {
    var i := FirstSource(nodes, source, target);
    hide MigrateNodes;
    var r := MigrateNodes(nodes, source, target);
    assert r[i] == target;
    FirstIs(r, target, source, i);
    assert r[i := source] == nodes;
    ReplaceOne(nodes, i, target);
  }

  lemma ReplaceOne(nodes: seq<string>, i: nat, target: string)
    requires i < |nodes|
    ensures multiset(nodes[i := target]) + multiset{nodes[i]} == multiset(nodes) + multiset{target}
  {}

  /** Migrating replaces the first occurrence. */
  lemma {:induction false} FirstIs(nodes: seq<string>, source: string, target: string, i: nat)
    requires i < |nodes| && nodes[i] == source && source !in nodes[..i]
    ensures MigrateNodes(nodes, source, target) == nodes[i := target]
  {
    if i == 0 {
      assert nodes[0 := target] == [target] + nodes[1..];
    } else {
      assert nodes[..i][0] == nodes[0] && nodes[1..][..i - 1] == nodes[..i][1..];
      FirstIs(nodes[1..], source, target, i - 1);
      assert nodes[i := target] == [nodes[0]] + nodes[1..][i - 1 := target];
    }
  }

  lemma FirstSource(nodes: seq<string>, source: string, target: string) returns (i: nat)
    requires source in nodes && target !in nodes
    ensures i < |nodes| && nodes[i] == source && source !in nodes[..i]
    ensures MigrateNodes(nodes, source, target) == nodes[i := target]
    ensures target !in nodes[i := target][..i]
  {
    i := 0;
    while nodes[i] != source
      invariant i < |nodes| && source !in nodes[..i] && source in nodes[i..]
      decreases |nodes| - i
    {
      assert nodes[i..] == [nodes[i]] + nodes[i + 1..];
      i := i + 1;
    }
    FirstIs(nodes, source, target, i);
    assert nodes[i := target][..i] == nodes[..i];
  }

  /** Without the source nothing changes. */
  lemma {:induction false} NothingToMigrate(nodes: seq<string>, source: string, target: string)
    requires source !in nodes
    ensures MigrateNodes(nodes, source, target) == nodes
  {
    if nodes != [] {
      NothingToMigrate(nodes[1..], source, target);
    }
  }
}
