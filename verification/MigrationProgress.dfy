/** How a migration goes on: undisturbed it succeeds, a failed step is put on record, and the answer
    to the confirmation decides. */
module MigrationProgress {
  import opened Common
  import opened MigrationProtocol
  import opened MigrationSafety

  function Repeat(ev: Event, n: nat): (r: seq<Event>)
    ensures |r| == n
  {
    if n == 0 then [] else Repeat(ev, n - 1) + [ev]
  }

  lemma RepeatMore(events: seq<Event>, ev: Event, n: nat)
    ensures events + Repeat(ev, n + 1) == events + Repeat(ev, n) + [ev]
  {}

  lemma RunMore(plan: Plan, events: seq<Event>, ev: Event)
    ensures Run(plan, events + [ev]) == Next(plan, Run(plan, events), ev)
  {
    assert Front(events + [ev]) == events;
    hide Next;
  }

  // ----- A migration that nothing disturbs -----

  /** The backup recorded an artifact for every data name of the plan. */
  predicate Complete(plan: Plan, backups: map<string, string>) {
    forall i :: 0 <= i < |plan.dataNames| ==> plan.dataNames[i] in backups && backups[plan.dataNames[i]] != ""
  }

  lemma {:induction false} CompleteIsCaptured(names: seq<string>, backups: map<string, string>, task: nat)
    requires forall i :: 0 <= i < |names| ==> names[i] in backups && backups[names[i]] != ""
    ensures Capture(names, backups, task).Some?
  {
    if names != [] {
      CompleteIsCaptured(Front(names), backups, task);
    }
  }

  /** The executor is at step `i` of a migration whose recorded steps all succeeded. */
  ghost predicate At(m: Migration, i: nat) {
    m.at == Some(i) && m.status.TaskRunning? && forall s :: s in m.steps ==> m.steps[s].Succeeded?
  }

  lemma TakeSucceeds(plan: Plan, m: Migration, s: Step, task: nat, backups: map<string, string>)
    requires s !in m.steps && Body(s) && Complete(plan, backups)
    ensures var m' := TakeStep(plan, m, s, Succeeds, task, backups);
            && m'.at == Some(Rank(s) + 1) && m'.status == m.status && m'.steps == m.steps[s := Succeeded]
            && m'.offered == m.offered && m'.approving == m.approving
  {
    CompleteIsCaptured(plan.dataNames, backups, task);
    hide Capture, MigrateNodes;
    assert m.steps[s := Running][s := Succeeded] == m.steps[s := Succeeded];
  }

  lemma AdvanceSucceeds(plan: Plan, m: Migration, i: nat, task: nat, backups: map<string, string>)
    requires At(m, i) && i < 7 && Complete(plan, backups) && (i == 5 ==> Done(m, AwaitingConfirmation))
    ensures var m' := Next(plan, m, Advance(Succeeds, task, backups));
            && At(m', i + 1) && m'.offered == m.offered && m'.approving == m.approving
            && (Done(m, AwaitingConfirmation) ==> Done(m', AwaitingConfirmation))
            && (i != 5 && AwaitingConfirmation !in m.steps ==> AwaitingConfirmation !in m'.steps)
  {
    var s := ORDER[i];
    assert Rank(s) == i;
    if s !in m.steps && Body(s) {
      TakeSucceeds(plan, m, s, task, backups);
    }
    hide TakeStep, Applicable, Complete, Pause, Close, Upsert, Upserts;
  }

  /** `m'` is `m` after `n` more steps. */
  ghost predicate Advanced(m: Migration, m': Migration, i: nat, n: nat) {
    && At(m', i + n) && m'.offered == m.offered && m'.approving == m.approving
    && (Done(m, AwaitingConfirmation) ==> Done(m', AwaitingConfirmation))
    && (i + n <= 5 && AwaitingConfirmation !in m.steps ==> AwaitingConfirmation !in m'.steps)
  }

  lemma AdvancedOnce(plan: Plan, m: Migration, m': Migration, i: nat, n: nat, task: nat, backups: map<string, string>)
    requires Advanced(m, m', i, n) && i + n < 7 && Complete(plan, backups)
    requires i <= 5 < i + n + 1 ==> Done(m, AwaitingConfirmation)
    ensures Advanced(m, Next(plan, m', Advance(Succeeds, task, backups)), i, n + 1)
  {
    AdvanceSucceeds(plan, m', i + n, task, backups);
    hide Next, Complete, At;
  }

  lemma {:induction false} Advances(plan: Plan, events: seq<Event>, i: nat, n: nat, task: nat, backups: map<string, string>)
    requires At(Run(plan, events), i) && i + n <= 7 && Complete(plan, backups)
    requires i <= 5 < i + n ==> Done(Run(plan, events), AwaitingConfirmation)
    ensures Advanced(Run(plan, events), Run(plan, events + Repeat(Advance(Succeeds, task, backups), n)), i, n)
  {
    var ev := Advance(Succeeds, task, backups);
    if n == 0 {
      assert events + Repeat(ev, 0) == events;
    } else {
      hide *;
      Advances(plan, events, i, n - 1, task, backups);
      var before := events + Repeat(ev, n - 1);
      RunMore(plan, before, ev);
      AdvancedOnce(plan, Run(plan, events), Run(plan, before), i, n - 1, task, backups);
      RepeatMore(events, ev, n - 1);
    }
  }

  /** From the claim to the open confirmation, if nothing fails ... */
  lemma ReachesConfirmation(plan: Plan, task: nat, backups: map<string, string>) returns (events: seq<Event>)
    requires Complete(plan, backups)
    ensures var m := Run(plan, events);
            && m.status.TaskAwaiting? && m.offered && m.at.None?
            && m.steps.Keys >= {AwaitingConfirmation} && m.steps[AwaitingConfirmation].Awaiting?
            && forall s :: s in m.steps && s != AwaitingConfirmation ==> m.steps[s].Succeeded?
  {
    var ev := Advance(Succeeds, task, backups);
    assert Run(plan, []) == Init(plan);
    RunMore(plan, [], Claim);
    assert [] + [Claim] == [Claim];
    Advances(plan, [Claim], 0, 5, task, backups);
    var before := [Claim] + Repeat(ev, 5);
    events := before + [ev];
    RunMore(plan, before, ev);
    hide Run, TakeStep, Repeat;
  }

  lemma ApprovalGoesOn(plan: Plan, events: seq<Event>)
    requires var m := Run(plan, events);
             && m.status.TaskAwaiting? && m.offered && AwaitingConfirmation in m.steps && m.steps[AwaitingConfirmation].Awaiting?
    ensures var m, m' := Run(plan, events), Run(plan, events + [ApproveStep] + [ApproveTask]);
            && m'.status.Pending? && m'.steps == m.steps[AwaitingConfirmation := Succeeded]
            && m'.effects == m.effects && m'.nodes == m.nodes
  {
    RunMore(plan, events, ApproveStep);
    RunMore(plan, events + [ApproveStep], ApproveTask);
    hide Run;
  }

  /** A migration of any plan whose backup records every artifact, in which nothing fails and whose
      confirmation is approved, succeeds. */
  lemma UndisturbedMigrationSucceeds(plan: Plan, task: nat, backups: map<string, string>) returns (events: seq<Event>)
    requires Complete(plan, backups)
    ensures Run(plan, events).status.TaskSucceeded?
  {
    var ev := Advance(Succeeds, task, backups);
    var first := ReachesConfirmation(plan, task, backups);
    ApprovalGoesOn(plan, first);
    hide Run, TakeStep, Repeat;
    var approved := first + [ApproveStep] + [ApproveTask];
    RunMore(plan, approved, Claim);
    var claimed := approved + [Claim];
    Advances(plan, claimed, 0, 7, task, backups);
    RunMore(plan, claimed + Repeat(ev, 7), ev);
    events := claimed + Repeat(ev, 7) + [ev];
  }

  // ----- Confirming -----

  lemma RejectionEnds(plan: Plan, events: seq<Event>)
    requires var m := Run(plan, events);
             && m.status.TaskAwaiting? && m.offered && AwaitingConfirmation in m.steps && m.steps[AwaitingConfirmation].Awaiting?
             && forall s :: s in m.steps ==> !m.steps[s].Running?
    ensures var m, m' := Run(plan, events), Run(plan, events + [RejectStep] + [RejectTask]);
            && m'.status.TaskCancelled? && m'.steps == m.steps[AwaitingConfirmation := Cancelled]
            && m'.effects == m.effects && m'.nodes == m.nodes
  {
    RunMore(plan, events, RejectStep);
    RunMore(plan, events + [RejectStep], RejectTask);
    hide Run;
    var steps := Run(plan, events).steps[AwaitingConfirmation := Cancelled];
    assert EndRunning(steps, Cancelled) == steps;
  }

  /** While the confirmation is open, approving it closes the step as succeeded and queues the task
      again, and rejecting it cancels both; neither does anything else. */
  lemma ConfirmationDecides(plan: Plan, events: seq<Event>)
    requires var m := Run(plan, events);
             m.status.TaskAwaiting? && AwaitingConfirmation in m.steps && m.steps[AwaitingConfirmation].Awaiting?
    ensures var m := Run(plan, events);
            var yes, no := Run(plan, events + [ApproveStep] + [ApproveTask]), Run(plan, events + [RejectStep] + [RejectTask]);
            && yes.status.Pending? && yes.steps == m.steps[AwaitingConfirmation := Succeeded]
            && no.status.TaskCancelled? && no.steps == m.steps[AwaitingConfirmation := Cancelled]
            && yes.effects == no.effects == m.effects && yes.nodes == no.nodes == m.nodes
  {
    Always(plan, events);
    hide Run;
    ApprovalGoesOn(plan, events);
    RejectionEnds(plan, events);
  }

  // ----- Failing -----

  /** A step that fails, a backup that did not record every artifact included, fails the whole
      migration when that can be put on record, and no step stays open; when it cannot, the migration
      stays where it is, for good. */
  lemma FailureEndsIt(plan: Plan, events: seq<Event>, s: Step, o: Outcome, task: nat, backups: map<string, string>)
    requires var m := Run(plan, events); m.at == Some(Rank(s)) && !Done(m, s) && Applicable(plan, m, s) && Body(s)
    requires o.Succeeds? ==> s.Backup? && Capture(plan.dataNames, backups, task).None?
    ensures var m := Run(plan, events); var m' := Next(plan, m, Advance(o, task, backups));
            && m'.at.None? && !Live(m') && !Done(m', s)
            && (o.Succeeds? || o.recorded ==>
                  && m'.status.TaskFailed? && s in m'.steps && m'.steps[s] == Failed
                  && forall t :: t in m'.steps ==> !m'.steps[t].Running?)
            && (!o.Succeeds? && !o.recorded ==> m'.status == m.status)
  {
    hide Run, Inv, Capture, TakeStep, Applicable, Pause, Close;
    Always(plan, events);
    var m := Run(plan, events);
    NotBegun(plan, m, s);
    TakeFails(plan, m, s, o, task, backups);
    assert ORDER[Rank(s)] == s;
    assert Next(plan, m, Advance(o, task, backups)) == TakeStep(plan, m, s, o, task, backups);
  }

  lemma NotBegun(plan: Plan, m: Migration, s: Step)
    requires Inv(plan, m) && m.at == Some(Rank(s)) && !Done(m, s) && Body(s)
    ensures s !in m.steps && m.status.TaskRunning?
  {}

  lemma TakeFails(plan: Plan, m: Migration, s: Step, o: Outcome, task: nat, backups: map<string, string>)
    requires s !in m.steps && m.status.TaskRunning? && Body(s)
    requires o.Succeeds? ==> s.Backup? && Capture(plan.dataNames, backups, task).None?
    ensures var m' := TakeStep(plan, m, s, o, task, backups);
            && m'.at.None? && !Done(m', s)
            && (o.Succeeds? || o.recorded ==>
                  && m'.status.TaskFailed? && s in m'.steps && m'.steps[s] == Failed
                  && forall t :: t in m'.steps ==> !m'.steps[t].Running?)
            && (!o.Succeeds? && !o.recorded ==> m'.status == m.status)
  {
    AfterBodyIsOpen(plan, m, s, o, task, Capture(plan.dataNames, backups, task));
    hide AfterBody, Capture, Fail;
    var after := AfterBody(plan, m, s, o, task, Capture(plan.dataNames, backups, task));
    FailFails(after, s, o.Succeeds? || o.recorded);
  }

  lemma AfterBodyIsOpen(plan: Plan, m: Migration, s: Step, o: Outcome, task: nat, captured: Option<seq<Item>>)
    requires s !in m.steps
    ensures var after := AfterBody(plan, m, s, o, task, captured);
            after.status == m.status && (s in after.steps ==> after.steps[s].Running?)
  {
    hide MigrateNodes;
  }

  lemma FailFails(m: Migration, s: Step, recorded: bool)
    requires m.status.TaskRunning? && (s in m.steps ==> m.steps[s].Running?)
    ensures var m' := Fail(m, s, recorded);
            && m'.at.None? && !Done(m', s)
            && (recorded ==>
                  && m'.status.TaskFailed? && s in m'.steps && m'.steps[s] == Failed
                  && forall t :: t in m'.steps ==> !m'.steps[t].Running?)
            && (!recorded ==> m'.status == m.status)
  {}
}
