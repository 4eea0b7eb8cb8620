/** The edit call, the restore and one turn of the reload loop as the code writes them, proved to
    be runs of ConfigReloadProtocol's machine when they are not disturbed. */
module ConfigReload {
  import opened Common
  import opened ConfigReloadProtocol

  class ControllerProcess {
    const env: Env
    ghost const first: Raw
    var file: Raw
    var cfg: Config
    var activeRaw: Raw
    var queue: Option<Request>
    var alive: bool
    var edits: nat
    ghost var history: seq<Event>
    ghost var world: Controller

    /** The fields are the machine's, the lock is free, and the loop is serving or has exited. */
    ghost predicate Valid()
      reads this
    {
      && Mirrors() && world.lock.NoOne?
      && world.loop == (if alive then Serving else Exited)
    }

    ghost predicate Mirrors()
      reads this
    {
      && Loads(env, first) && world == Run(env, first, history)
      && world.file == file && world.cfg == cfg && world.activeRaw == activeRaw && world.queue == queue
      && forall id :: id in world.editors ==> id < edits
    }

    constructor (env: Env, raw: Raw)
      requires Loads(env, raw)
      ensures this.env == env && first == raw && Valid() && alive && queue.None? && file == activeRaw == raw
    {
      this.env, first, file, activeRaw, queue, alive, edits := env, raw, raw, raw, None, true, 0;
      cfg := env.load(raw).value;
      history, world := [], Init(env, raw);
    }

    ghost method Note(ev: Event)
      requires Loads(env, first) && world == Run(env, first, history)
      modifies this`history, this`world
      ensures world == Run(env, first, history) && world == Next(env, old(world), ev)
      ensures history == old(history) + [ev]
    {
      hide Next;
      history := history + [ev];
      assert Front(history) == old(history);
      world := Next(env, world, ev);
    }

    // ----- UpdateEditableConfig -----

    /** The edit `id` stands at `e`; nothing else of it is on its way. */
    ghost predicate Stands(id: nat, e: Editor)
      reads this
    {
      && Mirrors() && alive && world.loop.Serving?
      && id in world.editors && world.editors[id] == e
      && world.lock == if e.Finished? || e.Refused? then NoOne else EditorHolds(id)
    }

    /** validateControllerReload: the fields that a reload may not change are compared one after the
        other, directories as cleaned paths. */
    method ValidateReload(next: Config) returns (ok: bool)
      ensures ok == SameFrozen(env, cfg, next)
      ensures ok <==>
                && next.listenAddr == cfg.listenAddr
                && env.clean(next.repoDir) == env.clean(cfg.repoDir)
                && env.clean(next.stateDir) == env.clean(cfg.stateDir)
                && env.clean(next.logDir) == env.clean(cfg.logDir)
    {
      var fields := [
        (cfg.listenAddr, next.listenAddr, false), (cfg.repoDir, next.repoDir, true),
        (cfg.stateDir, next.stateDir, true), (cfg.logDir, next.logDir, true)];
      for i := 0 to |fields|
        invariant forall j :: 0 <= j < i ==>
                    if fields[j].2 then env.clean(fields[j].0) == env.clean(fields[j].1) else fields[j].0 == fields[j].1
      {
        var left, right := fields[i].0, fields[i].1;
        if fields[i].2 {
          left, right := env.clean(left), env.clean(right);
        }
        if left != right {
          return false;
        }
      }
      assert fields[0].0 == fields[0].1 && env.clean(fields[1].0) == env.clean(fields[1].1);
      assert env.clean(fields[2].0) == env.clean(fields[2].1) && env.clean(fields[3].0) == env.clean(fields[3].1);
      return true;
    }

    /** The checks under the lock, up to the last one before the write; `readable` says whether that
        last one can read the file. */
    method CheckCandidate(id: nat, base: Raw, candidate: Raw, readable: bool) returns (ok: bool)
      requires Valid() && alive && id == edits
      modifies this`edits, this`history, this`world
      ensures old(history) < history && edits == id + 1
      ensures Stands(id, if ok then Ready(base, candidate) else Finished(Declined))
      ensures ok <==>
                && file == base != candidate && readable && env.load(candidate).Some?
                && env.load(candidate).value.listenAddr == cfg.listenAddr
                && env.clean(env.load(candidate).value.repoDir) == env.clean(cfg.repoDir)
                && env.clean(env.load(candidate).value.stateDir) == env.clean(cfg.stateDir)
                && env.clean(env.load(candidate).value.logDir) == env.clean(cfg.logDir)
    {
      hide Run, NextLoop, Acceptable;
      edits := id + 1;
      Note(BeginEdit(id, base));
      if file != base {
        return false;
      }
      ok := ValidateCandidate(id, base, candidate);
      if ok {
        ReadAgain(id, base, candidate, readable);
        ok := readable;
      }
    }

    /** The candidate loads, may follow the running configuration, and is not the base again. */
    method ValidateCandidate(id: nat, base: Raw, candidate: Raw) returns (ok: bool)
      requires Stands(id, Locked(base))
      modifies this`history, this`world
      ensures old(history) < history
      ensures Stands(id, if ok then Validated(base, candidate) else Finished(Declined))
      ensures ok <==>
                && candidate != base && env.load(candidate).Some?
                && env.load(candidate).value.listenAddr == cfg.listenAddr
                && env.clean(env.load(candidate).value.repoDir) == env.clean(cfg.repoDir)
                && env.clean(env.load(candidate).value.stateDir) == env.clean(cfg.stateDir)
                && env.clean(env.load(candidate).value.logDir) == env.clean(cfg.logDir)
    {
      hide Run, NextLoop, SameFrozen;
      var next := env.load(candidate);
      ok := next.Some? && candidate != base;
      if ok {
        ok := ValidateReload(next.value);
      }
      Note(Validate(id, candidate));
    }

    method ReadAgain(id: nat, base: Raw, candidate: Raw, readable: bool)
      requires Stands(id, Validated(base, candidate)) && file == base
      modifies this`history, this`world
      ensures old(history) < history
      ensures Stands(id, if readable then Ready(base, candidate) else Finished(Declined))
    {
      hide Run, Acceptable, NextLoop;
      Note(Recheck(id, readable));
    }

    /** Replaces the file, and queues the tagged reload while the lock is still held. */
    method InstallAndQueue(id: nat, base: Raw, candidate: Raw) returns (installed: bool, queued: bool)
      requires Stands(id, Ready(base, candidate)) && file == base != candidate
      modifies this
      ensures old(history) < history && edits == old(edits)
      ensures activeRaw == old(activeRaw) && cfg == old(cfg)
      ensures queued ==> installed && old(queue).None?
      ensures Stands(id, if queued then Finished(Queued) else if installed then Refused(base, candidate) else Finished(Declined))
      ensures file == if installed then candidate else base
      ensures queue == if queued then Some(Request(Some(candidate))) else old(queue)
    {
      hide Run, Acceptable, NextLoop;
      var contextEnds: bool := *;
      installed, queued := *, false;
      if installed {
        file := candidate;
      }
      Note(Replace(id, installed));
      if installed {
        queued := queue.None? && !contextEnds;
        if queued {
          queue := Some(Request(Some(candidate)));
        }
        Note(Enqueue(id, contextEnds));
      }
    }

    /** restoreControllerConfigIfCurrent for an edit whose reload could not be queued. */
    method UndoEdit(id: nat, base: Raw, candidate: Raw) returns (ok: bool)
      requires Stands(id, Refused(base, candidate)) && file == candidate
      modifies this
      ensures old(history) < history && edits == old(edits)
      ensures activeRaw == old(activeRaw) && cfg == old(cfg) && queue == old(queue)
      ensures Stands(id, Finished(if ok then Undone else NotUndone))
      ensures file == if ok then base else candidate
    {
      hide Run, Acceptable, NextLoop;
      var locked: bool, readable: bool, installed: bool := *, *, *;
      Note(UndoLock(id, locked));
      if !locked {
        return false;
      }
      Note(UndoCheck(id, readable));
      if !readable {
        return false;
      }
      if installed {
        file := base;
      }
      Note(UndoWrite(id, installed));
      return installed;
    }

    /** UpdateEditableConfig. Success means the candidate is in the file with its reload queued,
        or was there already; a refusal leaves the file alone unless the write could not be
        undone. */
    method UpdateEditableConfig(base: Raw, candidate: Raw) returns (ok: bool)
      requires Valid() && alive
      modifies this
      ensures Valid() && alive && old(history) < history && activeRaw == old(activeRaw) && cfg == old(cfg)
      ensures ok ==> old(file) == base && file == candidate && env.load(candidate).Some?
      ensures ok ==> env.load(candidate).value.listenAddr == cfg.listenAddr
      ensures ok && candidate != base ==> queue == Some(Request(Some(candidate))) && old(queue).None?
      ensures old(edits) in world.editors && world.editors[old(edits)].Finished?
      ensures var end := world.editors[old(edits)].end;
              && (ok && candidate != base <==> end.Queued?)
              && (!ok ==> queue == old(queue) && file == if end.NotUndone? then candidate else old(file))
    {
      hide Run, Acceptable, Next;
      var id := edits;
      var readable: bool := *;
      var same := file == base == candidate && env.load(candidate).Some? && SameFrozen(env, cfg, env.load(candidate).value);
      var checked := CheckCandidate(id, base, candidate, readable);
      if !checked {
        return same;
      }
      var installed, queued := InstallAndQueue(id, base, candidate);
      ok := queued;
      if installed && !queued {
        var _ := UndoEdit(id, base, candidate);
      }
    }

    // ----- One turn of the reload loop -----

    /** restoreControllerConfigIfCurrent from the loop; when it fails the process ends. */
    method RestoreActive(candidate: Raw, restart: bool)
      requires Mirrors() && alive && world.loop == Restoring(candidate, restart) && world.lock.NoOne? && file == candidate
      modifies this
      ensures Mirrors() && old(history) < history && world.lock.NoOne? && queue == old(queue) && activeRaw == old(activeRaw)
      ensures edits == old(edits) && cfg == old(cfg)
      ensures world.loop == (if !alive then Exited else if restart then Restarting else Serving)
      ensures alive ==> file == activeRaw
    {
      hide Run, Acceptable, NextEditor;
      var locked: bool, readable: bool, installed: bool := *, *, *;
      Note(RestoreLock(locked));
      if !locked {
        alive := false;
        return;
      }
      Note(RestoreCheck(readable));
      if !readable {
        alive := false;
        return;
      }
      WriteActive(candidate, restart, installed);
    }

    method WriteActive(candidate: Raw, restart: bool, installed: bool)
      requires Mirrors() && alive && world.loop == RestoreChecked(candidate, restart) && file == candidate
      modifies this`file, this`alive, this`history, this`world
      ensures Mirrors() && old(history) < history && world.lock.NoOne? && alive == installed
      ensures world.loop == (if !alive then Exited else if restart then Restarting else Serving)
      ensures alive ==> file == activeRaw
    {
      hide Run, Acceptable, NextEditor;
      if installed {
        file := activeRaw;
      }
      alive := installed;
      Note(RestoreWrite(installed));
    }

    /** rollbackQueuedControllerConfig: only a tagged request is undone. */
    method RollbackQueued(req: Request, raw: Raw)
      requires Mirrors() && alive && world.lock.NoOne? && file == raw
      requires world.loop == if req.expected.None? then Serving else Restoring(raw, false)
      modifies this
      ensures Valid() && old(history) <= history && queue == old(queue) && activeRaw == old(activeRaw)
      ensures alive && req.expected.Some? ==> file == activeRaw
      ensures alive && req.expected.None? ==> file == raw
    {
      if req.expected.Some? {
        RestoreActive(raw, false);
      }
    }

    /** Stops the old runtime and starts the new one; when that fails, the file goes back to the
        running text and the old runtime is started again. */
    method Switch(req: Request, raw: Raw, next: Config)
      requires Mirrors() && alive && world.lock.NoOne? && file == raw && world.loop == Starting(req, raw, raw, next)
      modifies this
      ensures Valid() && old(history) < history && queue == old(queue)
      ensures alive ==> file == activeRaw && activeRaw in {raw, old(activeRaw)}
    {
      hide Run, Acceptable, NextEditor;
      var stopped: bool, ready: bool, again: bool := *, *, *;
      Note(StopAndStart(stopped));
      if !stopped {
        alive := false;
        return;
      }
      if ready {
        cfg, activeRaw := next, raw;
      }
      Note(NextReady(ready));
      if !ready {
        FallBack(raw, again);
      }
    }

    /** The new runtime did not come up: restore the file and start the old one again. */
    method FallBack(raw: Raw, again: bool)
      requires Mirrors() && alive && world.lock.NoOne? && file == raw && world.loop == Restoring(raw, true)
      modifies this
      ensures Valid() && old(history) < history && queue == old(queue) && activeRaw == old(activeRaw)
      ensures alive ==> file == activeRaw
    {
      hide Run, Acceptable, NextEditor;
      RestoreActive(raw, true);
      if alive {
        alive := again;
        Note(Restart(again));
      }
    }

    /** Loads what was read, looks again, and switches. */
    method Reload(req: Request, raw: Raw)
      requires Mirrors() && alive && world.lock.NoOne? && file == raw && world.loop == ReadOnce(req, raw)
      modifies this
      ensures Valid() && old(history) < history && queue == old(queue)
      ensures alive && req.expected.Some? ==> file == activeRaw && activeRaw in {raw, old(activeRaw)}
    {
      hide Run, NextEditor;
      var readable: bool := *;
      var next := env.load(file);
      var acceptable := next.Some? && SameFrozen(env, cfg, next.value);
      Note(LoadNext);
      if !acceptable {
        RollbackQueued(req, raw);
        return;
      }
      Note(ReadLatest(readable));
      if !readable {
        RollbackQueued(req, raw);
        return;
      }
      Switch(req, raw, next.value);
    }

    /** The loop's case for a reload request. A request tagged with the text in the file ends with
        the file and the running configuration together, at that text or at the previous one. */
    method HandleReload()
      requires Valid() && alive && queue.Some?
      modifies this
      ensures Valid() && old(history) < history && queue.None?
      ensures alive && old(queue).value.expected == Some(old(file)) ==>
                file == activeRaw && activeRaw in {old(file), old(activeRaw)}
    {
      hide Run, Acceptable, NextEditor;
      var req, readable: bool := queue.value, *;
      queue := None;
      Note(Take);
      if !readable && req.expected.Some? {
        alive := false;
      }
      Note(ReadCurrent(readable));
      if readable && (req.expected.Some? ==> file == req.expected.value) {
        Reload(req, file);
      }
    }
  }
}
