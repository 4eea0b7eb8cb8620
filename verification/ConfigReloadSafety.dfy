/** What every run of edits and reloads keeps. */
module ConfigReloadSafety {
  import opened Common
  import opened ConfigReloadProtocol

  // ----- Frozen fields -----

  lemma FrozenTransitive(env: Env, a: Config, b: Config, c: Config)
    requires SameFrozen(env, a, b) && SameFrozen(env, b, c)
    ensures SameFrozen(env, a, c)
  {}

  ghost predicate FrozenKept(env: Env, first: Config, s: Controller) {
    && SameFrozen(env, first, s.cfg)
    && (s.loop.Loaded? || s.loop.Starting? ==> SameFrozen(env, s.cfg, s.loop.next))
  }

  lemma FrozenStep(env: Env, first: Config, s: Controller, ev: Event)
    requires FrozenKept(env, first, s)
    ensures FrozenKept(env, first, Next(env, s, ev))
  {
    if s.loop.Starting? {
      FrozenTransitive(env, first, s.cfg, s.loop.next);
    }
    hide SameFrozen;
  }

  lemma {:induction false} FrozenAlways(env: Env, raw: Raw, events: seq<Event>)
    requires Loads(env, raw)
    ensures FrozenKept(env, env.load(raw).value, Run(env, raw, events))
  {
    if events != [] {
      FrozenAlways(env, raw, Front(events));
      FrozenStep(env, env.load(raw).value, Run(env, raw, Front(events)), Last(events));
      hide Next;
    }
  }

  /** Whatever is edited, written from outside or reloaded, in any interleaving: the address and
      the cleaned directories of the running controller stay those it was started with. */
  lemma FrozenFieldsNeverChange(env: Env, raw: Raw, events: seq<Event>)
    requires Loads(env, raw)
    ensures var first, now := env.load(raw).value, Run(env, raw, events).cfg;
            && now.listenAddr == first.listenAddr
            && env.clean(now.repoDir) == env.clean(first.repoDir)
            && env.clean(now.stateDir) == env.clean(first.stateDir)
            && env.clean(now.logDir) == env.clean(first.logDir)
  {
    FrozenAlways(env, raw, events);
    hide Run;
  }

  /** A text that loads passes the check of an edit, if it is not the base, and that of the reload
      loop, if it is in the file, exactly when the address and the three cleaned directories are
      those of the running configuration. */
  lemma CandidatePassesIff(env: Env, s: Controller, id: nat, candidate: Raw, next: Config)
    requires env.load(candidate) == Some(next)
    ensures var same := && next.listenAddr == s.cfg.listenAddr
                        && env.clean(next.repoDir) == env.clean(s.cfg.repoDir)
                        && env.clean(next.stateDir) == env.clean(s.cfg.stateDir)
                        && env.clean(next.logDir) == env.clean(s.cfg.logDir);
            && (id in s.editors && s.editors[id].Locked? && candidate != s.editors[id].base ==>
                  Next(env, s, Validate(id, candidate)).editors[id] ==
                    if same then Validated(s.editors[id].base, candidate) else Finished(Declined))
            && (s.loop.ReadOnce? && s.file == candidate ==>
                  (Next(env, s, LoadNext).loop == Loaded(s.loop.req, s.loop.raw, candidate, next) <==> same))
  {}

  // ----- Compare and swap -----

  predicate HoldsLock(e: Editor) {
    e.Locked? || e.Validated? || e.Ready? || e.Written? || e.Undoing? || e.UndoChecked?
  }

  /** Who holds the lock, and what its holder knows about the file. */
  ghost predicate LockAgrees(s: Controller) {
    && (forall id :: id in s.editors && HoldsLock(s.editors[id]) ==> s.lock == EditorHolds(id))
    && (s.loop.RestoreLocked? || s.loop.RestoreChecked? ==> s.lock == LoopHolds)
    && (forall id :: id in s.editors ==> EditorKnows(s, s.editors[id]))
    && (s.loop.RestoreChecked? ==> s.file == s.loop.candidate)
  }

  ghost predicate EditorKnows(s: Controller, e: Editor) {
    && (e.Locked? || e.Validated? || e.Ready? ==> s.file == e.base)
    && (e.Written? || e.UndoChecked? ==> s.file == e.candidate)
    && (e.Validated? || e.Ready? || e.Written? || e.Refused? || e.Undoing? || e.UndoChecked? ==> e.candidate != e.base)
  }

  /** Every write found what its writer had checked, and the writes form a chain. */
  ghost predicate Chain(first: Raw, s: Controller) {
    && (forall i :: 0 <= i < |s.writes| ==> s.writes[i].was == s.writes[i].expected)
    && (forall i :: 0 <= i < |s.writes| ==> s.writes[i].was == Before(first, s.writes, i))
    && (forall i :: 0 <= i < |s.writes| && s.writes[i].kind.Install? ==> s.writes[i].to != s.writes[i].was)
    && s.file == Before(first, s.writes, |s.writes|)
  }

  /** The file's text before write `i`. */
  function Before(first: Raw, writes: seq<Write>, i: nat): Raw
    requires i <= |writes|
  {
    if i == 0 then first else writes[i - 1].to
  }

  lemma PutChains(first: Raw, s: Controller, kind: Kind, expected: Raw, to: Raw)
    requires Chain(first, s) && s.file == expected && (kind.Install? ==> to != expected)
    ensures Chain(first, Put(s, kind, expected, to))
  {
    var s' := Put(s, kind, expected, to);
    forall i | 0 <= i < |s'.writes| ensures s'.writes[i].was == Before(first, s'.writes, i) {
      assert i < |s.writes| ==> Before(first, s'.writes, i) == Before(first, s.writes, i);
    }
  }

  lemma LockEditorStep(env: Env, s: Controller, ev: Event)
    requires LockAgrees(s)
    ensures LockAgrees(NextEditor(env, s, ev))
  {
    hide Acceptable;
    var s' := NextEditor(env, s, ev);
    forall id | id in s'.editors
      ensures EditorKnows(s', s'.editors[id]) && (HoldsLock(s'.editors[id]) ==> s'.lock == EditorHolds(id))
    {
      if id in s.editors {
        assert EditorKnows(s, s.editors[id]);
      }
    }
  }

  lemma LockLoopStep(env: Env, s: Controller, ev: Event)
    requires LockAgrees(s)
    ensures LockAgrees(NextLoop(env, s, ev))
  {
    hide Acceptable;
    var s' := NextLoop(env, s, ev);
    assert s'.editors == s.editors;
    forall id | id in s'.editors
      ensures EditorKnows(s', s'.editors[id]) && (HoldsLock(s'.editors[id]) ==> s'.lock == EditorHolds(id))
    {
      assert EditorKnows(s, s.editors[id]);
    }
  }

  lemma ChainEditorStep(env: Env, first: Raw, s: Controller, ev: Event)
    requires LockAgrees(s) && Chain(first, s)
    ensures Chain(first, NextEditor(env, s, ev))
  {
    hide Acceptable, Chain;
    if ev.Replace? && ev.id in s.editors && s.editors[ev.id].Ready? && ev.installed {
      PutChains(first, s, Install, s.editors[ev.id].base, s.editors[ev.id].candidate);
      SameFile(first, Put(s, Install, s.editors[ev.id].base, s.editors[ev.id].candidate), NextEditor(env, s, ev));
    } else if ev.UndoWrite? && ev.id in s.editors && s.editors[ev.id].UndoChecked? && ev.installed {
      PutChains(first, s, Restore, s.editors[ev.id].candidate, s.editors[ev.id].base);
      SameFile(first, Put(s, Restore, s.editors[ev.id].candidate, s.editors[ev.id].base), NextEditor(env, s, ev));
    } else {
      SameFile(first, s, NextEditor(env, s, ev));
    }
  }

  lemma ChainLoopStep(env: Env, first: Raw, s: Controller, ev: Event)
    requires LockAgrees(s) && Chain(first, s)
    ensures Chain(first, NextLoop(env, s, ev))
  {
    hide Acceptable, Chain;
    if ev.RestoreWrite? && s.loop.RestoreChecked? && ev.installed {
      PutChains(first, s, Restore, s.loop.candidate, s.activeRaw);
      SameFile(first, Put(s, Restore, s.loop.candidate, s.activeRaw), NextLoop(env, s, ev));
    } else {
      SameFile(first, s, NextLoop(env, s, ev));
    }
  }

  lemma SameFile(first: Raw, s: Controller, s': Controller)
    requires Chain(first, s) && s'.file == s.file && s'.writes == s.writes
    ensures Chain(first, s')
  {}

  lemma CasStep(env: Env, first: Raw, s: Controller, ev: Event)
    requires LockAgrees(s) && Chain(first, s) && !ev.ExternalWrite?
    ensures LockAgrees(Next(env, s, ev)) && Chain(first, Next(env, s, ev))
  {
    LockEditorStep(env, s, ev);
    LockLoopStep(env, s, ev);
    ChainEditorStep(env, first, s, ev);
    ChainLoopStep(env, first, s, ev);
    if ev.Hangup? {
      SameFile(first, s, Next(env, s, ev));
      assert forall id :: id in s.editors ==> EditorKnows(s, s.editors[id]);
    }
    hide NextEditor, NextLoop, Chain;
  }

  /** As long as everyone takes the lock, every install replaced exactly the base revision it was
      made from, every restore overwrote exactly the candidate it undoes, and nothing else ever
      changed the file. */
  lemma {:induction false} WritesAreCompareAndSwap(env: Env, raw: Raw, events: seq<Event>)
    requires Loads(env, raw) && forall i :: 0 <= i < |events| ==> !events[i].ExternalWrite?
    ensures LockAgrees(Run(env, raw, events)) && Chain(raw, Run(env, raw, events))
  {
    if events != [] {
      WritesAreCompareAndSwap(env, raw, Front(events));
      CasStep(env, raw, Run(env, raw, Front(events)), Last(events));
      hide Next;
    }
  }

  /** Of two edits with the same base revision, the later one can only install a change after
      some other write has put the base back. */
  lemma SameBaseNeedsRestore(env: Env, raw: Raw, events: seq<Event>, i: nat, j: nat)
    requires Loads(env, raw) && forall k :: 0 <= k < |events| ==> !events[k].ExternalWrite?
    requires var w := Run(env, raw, events).writes;
             i < j < |w| && w[i].kind.Install? && w[j].kind.Install? && w[i].expected == w[j].expected
    ensures var w := Run(env, raw, events).writes;
            exists k :: i < k < j && w[k].to == w[i].expected
  {
    WritesAreCompareAndSwap(env, raw, events);
    ChainPutsBack(raw, Run(env, raw, events), i, j);
  }

  lemma ChainPutsBack(first: Raw, s: Controller, i: nat, j: nat)
    requires Chain(first, s) && i < j < |s.writes|
    requires s.writes[i].kind.Install? && s.writes[j].kind.Install? && s.writes[i].expected == s.writes[j].expected
    ensures exists k :: i < k < j && s.writes[k].to == s.writes[i].expected
  {
    hide Chain;
    ChainAt(first, s, i);
    ChainAt(first, s, j);
    var w, k := s.writes, j - 1;
    assert w[k].to == w[i].expected;
    assert k != i;
  }

  lemma ChainAt(first: Raw, s: Controller, i: nat)
    requires Chain(first, s) && i < |s.writes|
    ensures s.writes[i].was == s.writes[i].expected == Before(first, s.writes, i)
    ensures s.writes[i].kind.Install? ==> s.writes[i].to != s.writes[i].expected
  {}

  lemma RunOne(env: Env, raw: Raw, events: seq<Event>, ev: Event)
    requires Loads(env, raw)
    ensures Run(env, raw, events + [ev]) == Next(env, Run(env, raw, events), ev)
  {
    assert Front(events + [ev]) == events;
  }

  /** An edit that has installed its candidate. */
  lemma EditInstalls(env: Env, raw: Raw, candidate: Raw) returns (events: seq<Event>)
    requires Loads(env, raw) && Acceptable(env, env.load(raw).value, candidate) && candidate != raw
    ensures var s := Run(env, raw, events);
            s == Init(env, raw).(editors := map[0 := Written(raw, candidate)], file := candidate,
                                 lock := EditorHolds(0), writes := [Write(Install, raw, raw, candidate)])
  {
    hide Acceptable, Run;
    var first := [BeginEdit(0, raw)];
    var second := first + [Validate(0, candidate)];
    var third := second + [Recheck(0, true)];
    events := third + [Replace(0, true)];
    assert Run(env, raw, first) == Next(env, Init(env, raw), BeginEdit(0, raw)) by { RunFirst(env, raw, BeginEdit(0, raw)); }
    RunOne(env, raw, first, Validate(0, candidate));
    RunOne(env, raw, second, Recheck(0, true));
    RunOne(env, raw, third, Replace(0, true));
    assert Run(env, raw, third).editors == map[0 := Ready(raw, candidate)] && Run(env, raw, third).file == raw;
  }

  lemma RunFirst(env: Env, raw: Raw, ev: Event)
    requires Loads(env, raw)
    ensures Run(env, raw, [ev]) == Next(env, Init(env, raw), ev)
  {
    assert Front([ev]) == [];
  }

  /** An edit whose request could not be queued, about to undo its write. */
  lemma EditAboutToUndo(env: Env, raw: Raw, candidate: Raw) returns (events: seq<Event>)
    requires Loads(env, raw) && Acceptable(env, env.load(raw).value, candidate) && candidate != raw
    ensures var s := Run(env, raw, events); s.editors == map[0 := UndoChecked(raw, candidate)] && s.file == candidate
  {
    hide Run;
    var written := EditInstalls(env, raw, candidate);
    var refused := written + [Enqueue(0, true)];
    var undoing := refused + [UndoLock(0, true)];
    events := undoing + [UndoCheck(0, true)];
    RunOne(env, raw, written, Enqueue(0, true));
    RunOne(env, raw, refused, UndoLock(0, true));
    RunOne(env, raw, undoing, UndoCheck(0, true));
    assert Run(env, raw, refused).editors == map[0 := Refused(raw, candidate)];
  }

  /** A program that does not take the lock can still lose its change: a restore may overwrite
      it between its check and its write. */
  lemma ExternalWriteCanBeLost(env: Env, raw: Raw, candidate: Raw, other: Raw)
    requires Loads(env, raw) && Acceptable(env, env.load(raw).value, candidate)
    requires candidate != raw && other != candidate
    ensures exists events ::
              && Run(env, raw, events).file == other
              && Run(env, raw, events + [UndoWrite(0, true)]).file == raw
  {
    hide Acceptable;
    var before := EditAboutToUndo(env, raw, candidate);
    var events := before + [ExternalWrite(other)];
    RunOne(env, raw, before, ExternalWrite(other));
    RunOne(env, raw, events, UndoWrite(0, true));
  }

  // ----- A runtime is up -----

  /** Where the loop stands says whether a runtime is up; only while it switches there may be none. */
  predicate RuntimeAgrees(s: Controller) {
    match s.loop
    case Starting(_, _, _, _) => true
    case Exited => true
    case Restoring(_, restart) => s.up == !restart
    case RestoreLocked(_, restart) => s.up == !restart
    case RestoreChecked(_, restart) => s.up == !restart
    case Restarting => !s.up
    case _ => s.up
  }

  lemma RuntimeAgreesStep(env: Env, s: Controller, ev: Event)
    requires RuntimeAgrees(s)
    ensures RuntimeAgrees(Next(env, s, ev))
  {
    hide Acceptable;
  }

  /** Whatever goes wrong with a reload, the loop never serves without a runtime: when the new one
      does not come up, the old one is started again or the process ends. */
  lemma {:induction false} ServesOnlyWhileUp(env: Env, raw: Raw, events: seq<Event>)
    requires Loads(env, raw)
    ensures var s := Run(env, raw, events); RuntimeAgrees(s) && (s.loop.Serving? ==> s.up)
  {
    if events != [] {
      hide Next;
      ServesOnlyWhileUp(env, raw, Front(events));
      RuntimeAgreesStep(env, Run(env, raw, Front(events)), Last(events));
    }
  }
}
