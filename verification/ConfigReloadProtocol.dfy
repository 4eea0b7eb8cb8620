/** Editing and reloading the controller's configuration as one state machine: the file, the
    running configuration, the queue of one reload request, edits that hold the file lock, and
    the reload loop. Source: internal/app/controller/bootstrap.go, controller_config.go and
    reload.go. A revision is a digest of the file's text and is taken to identify it. */
module ConfigReloadProtocol {
  import opened Common

  type Raw = string

  /** The fields a reload may not change, and the rest. */
  datatype Config = Config(listenAddr: string, repoDir: string, stateDir: string, logDir: string, rest: string)

  /** What lies outside this code: how a text loads, and how a path is cleaned. */
  datatype Env = Env(load: Raw -> Option<Config>, clean: string -> string)

  /** validateControllerReload. */
  predicate SameFrozen(env: Env, current: Config, next: Config) {
    && current.listenAddr == next.listenAddr
    && env.clean(current.repoDir) == env.clean(next.repoDir)
    && env.clean(current.stateDir) == env.clean(next.stateDir)
    && env.clean(current.logDir) == env.clean(next.logDir)
  }

  /** The text loads and may follow the running configuration. */
  predicate Acceptable(env: Env, current: Config, raw: Raw) {
    env.load(raw).Some? && SameFrozen(env, current, env.load(raw).value)
  }

  // ----- The state -----

  /** A reload request; a tagged one names the revision it is about. */
  datatype Request = Request(expected: Option<Raw>)

  /** How an UpdateEditableConfig call ended: nothing was written, its reload is queued, or its
      reload could not be queued and the write was undone or was not. */
  datatype End = Declined | Queued | Undone | NotUndone

  /** Where an UpdateEditableConfig call stands. From Locked to Written it holds the lock. */
  datatype Editor =
    | Locked(base: Raw)
    | Validated(base: Raw, candidate: Raw)
    | Ready(base: Raw, candidate: Raw)
    | Written(base: Raw, candidate: Raw)
    | Refused(base: Raw, candidate: Raw)
    | Undoing(base: Raw, candidate: Raw)
    | UndoChecked(base: Raw, candidate: Raw)
    | Finished(end: End)

  datatype Loop =
    | Serving
    | Got(req: Request)
    | ReadOnce(req: Request, raw: Raw)
    | Loaded(req: Request, raw: Raw, source: Raw, next: Config)
    | Starting(req: Request, raw: Raw, source: Raw, next: Config)
    | Restoring(candidate: Raw, restart: bool)
    | RestoreLocked(candidate: Raw, restart: bool)
    | RestoreChecked(candidate: Raw, restart: bool)
    | Restarting
    | Exited

  datatype Holder = NoOne | EditorHolds(id: nat) | LoopHolds

  datatype Kind = Install | Restore

  /** A write to the file: what its writer had checked to be there, what was there, what it put. */
  datatype Write = Write(kind: Kind, expected: Raw, was: Raw, to: Raw)

  /** `source` is the text the running configuration was loaded from, `ups` those of all that ever
      came up after the first, and `writes` the writes to the file; all three are history. `up`
      says that a runtime, the new one or the old, is serving. */
  datatype Controller = Controller(
    file: Raw,
    cfg: Config,
    activeRaw: Raw,
    queue: Option<Request>,
    editors: map<nat, Editor>,
    lock: Holder,
    loop: Loop,
    source: Raw,
    ups: seq<Raw>,
    writes: seq<Write>,
    up: bool)

  predicate Loads(env: Env, raw: Raw) { env.load(raw).Some? }

  function Init(env: Env, raw: Raw): Controller
    requires Loads(env, raw)
  {
    Controller(raw, env.load(raw).value, raw, None, map[], NoOne, Serving, raw, [], [], true)
  }

  datatype Event =
    | BeginEdit(id: nat, base: Raw)
    | Validate(id: nat, candidate: Raw)
    | Recheck(id: nat, readable: bool)
    | Replace(id: nat, installed: bool)
    | Enqueue(id: nat, contextEnds: bool)
    | UndoLock(id: nat, ok: bool)
    | UndoCheck(id: nat, readable: bool)
    | UndoWrite(id: nat, installed: bool)
    | Hangup
    | Take
    | ReadCurrent(readable: bool)
    | LoadNext
    | ReadLatest(readable: bool)
    | StopAndStart(stopped: bool)
    | NextReady(ready: bool)
    | RestoreLock(ok: bool)
    | RestoreCheck(readable: bool)
    | RestoreWrite(installed: bool)
    | Restart(ready: bool)
    | ExternalWrite(raw: Raw)

  function Put(s: Controller, kind: Kind, expected: Raw, to: Raw): Controller {
    s.(file := to, writes := s.writes + [Write(kind, expected, s.file, to)])
  }

  function SetEditor(s: Controller, id: nat, e: Editor): Controller {
    s.(editors := s.editors[id := e])
  }

  /** The call returns, and gives the lock back. */
  function Finish(s: Controller, id: nat, end: End): Controller {
    s.(editors := s.editors[id := Finished(end)], lock := NoOne)
  }

  function NextEditor(env: Env, s: Controller, ev: Event): Controller {
    match ev
    case BeginEdit(id, base) =>
      if id in s.editors || !s.lock.NoOne? then s
      else if s.file != base then SetEditor(s, id, Finished(Declined))
      else SetEditor(s, id, Locked(base)).(lock := EditorHolds(id))
    case Validate(id, candidate) =>
      if id !in s.editors || !s.editors[id].Locked? then s
      else if !Acceptable(env, s.cfg, candidate) || candidate == s.editors[id].base then Finish(s, id, Declined)
      else SetEditor(s, id, Validated(s.editors[id].base, candidate))
    case Recheck(id, readable) =>
      if id !in s.editors || !s.editors[id].Validated? then s
      else if !readable || s.file != s.editors[id].base then Finish(s, id, Declined)
      else SetEditor(s, id, Ready(s.editors[id].base, s.editors[id].candidate))
    case Replace(id, installed) =>
      if id !in s.editors || !s.editors[id].Ready? then s
      else if !installed then Finish(s, id, Declined)
      else
        var e := s.editors[id];
        SetEditor(Put(s, Install, e.base, e.candidate), id, Written(e.base, e.candidate))
    case Enqueue(id, contextEnds) =>
      if id !in s.editors || !s.editors[id].Written? then s
      else
        var e := s.editors[id];
        if s.queue.None? && !contextEnds then Finish(s, id, Queued).(queue := Some(Request(Some(e.candidate))))
        else SetEditor(s, id, Refused(e.base, e.candidate)).(lock := NoOne)
    case UndoLock(id, ok) =>
      if id !in s.editors || !s.editors[id].Refused? || !s.lock.NoOne? then s
      else if !ok then SetEditor(s, id, Finished(NotUndone))
      else SetEditor(s, id, Undoing(s.editors[id].base, s.editors[id].candidate)).(lock := EditorHolds(id))
    case UndoCheck(id, readable) =>
      if id !in s.editors || !s.editors[id].Undoing? then s
      else if !readable || s.file != s.editors[id].candidate then Finish(s, id, NotUndone)
      else SetEditor(s, id, UndoChecked(s.editors[id].base, s.editors[id].candidate))
    case UndoWrite(id, installed) =>
      if id !in s.editors || !s.editors[id].UndoChecked? then s
      else if !installed then Finish(s, id, NotUndone)
      else Finish(Put(s, Restore, s.editors[id].candidate, s.editors[id].base), id, Undone)
    case _ => s
  }

  /** What happens to a request whose configuration is rejected: a tagged one is undone. */
  function Reject(s: Controller, req: Request, raw: Raw): Controller {
    s.(loop := if req.expected.None? then Serving else Restoring(raw, false))
  }

  function NextLoop(env: Env, s: Controller, ev: Event): Controller {
    match (ev, s.loop)
    case (Take, Serving) =>
      if s.queue.None? then s else s.(loop := Got(s.queue.value), queue := None)
    case (ReadCurrent(readable), Got(req)) =>
      if !readable then s.(loop := if req.expected.Some? then Exited else Serving)
      else if req.expected.Some? && s.file != req.expected.value then s.(loop := Serving)
      else s.(loop := ReadOnce(req, s.file))
    case (LoadNext, ReadOnce(req, raw)) =>
      // Loading reads the file once more.
      if Acceptable(env, s.cfg, s.file) then s.(loop := Loaded(req, raw, s.file, env.load(s.file).value))
      else Reject(s, req, raw)
    case (ReadLatest(readable), Loaded(req, raw, source, next)) =>
      if !readable then Reject(s, req, raw)
      else if s.file != raw then s.(loop := Serving)
      else s.(loop := Starting(req, raw, source, next))
    case (StopAndStart(stopped), Starting(_, _, _, _)) =>
      if stopped then s.(up := false) else s.(loop := Exited, up := false)
    case (NextReady(ready), Starting(req, raw, source, next)) =>
      if s.up then s
      else if ready then
        s.(cfg := next, activeRaw := raw, source := source, ups := s.ups + [source], loop := Serving, up := true)
      else s.(loop := Restoring(raw, true))
    case (RestoreLock(ok), Restoring(candidate, restart)) =>
      if !s.lock.NoOne? then s
      else if !ok then s.(loop := Exited)
      else s.(loop := RestoreLocked(candidate, restart), lock := LoopHolds)
    case (RestoreCheck(readable), RestoreLocked(candidate, restart)) =>
      if !readable || s.file != candidate then s.(loop := Exited, lock := NoOne)
      else s.(loop := RestoreChecked(candidate, restart))
    case (RestoreWrite(installed), RestoreChecked(candidate, restart)) =>
      if !installed then s.(loop := Exited, lock := NoOne)
      else Put(s, Restore, candidate, s.activeRaw).(loop := if restart then Restarting else Serving, lock := NoOne)
    case (Restart(ready), Restarting) =>
      if ready then s.(loop := Serving, up := true) else s.(loop := Exited)
    case _ => s
  }

  /** One step; an event that is not enabled changes nothing. Hangup is the signal's untagged
      request, ExternalWrite a program that does not take the lock. */
  function Next(env: Env, s: Controller, ev: Event): Controller {
    match ev
    case BeginEdit(_, _) => NextEditor(env, s, ev)
    case Validate(_, _) => NextEditor(env, s, ev)
    case Recheck(_, _) => NextEditor(env, s, ev)
    case Replace(_, _) => NextEditor(env, s, ev)
    case Enqueue(_, _) => NextEditor(env, s, ev)
    case UndoLock(_, _) => NextEditor(env, s, ev)
    case UndoCheck(_, _) => NextEditor(env, s, ev)
    case UndoWrite(_, _) => NextEditor(env, s, ev)
    case Hangup => if s.queue.None? then s.(queue := Some(Request(None))) else s
    case ExternalWrite(raw) => s.(file := raw)
    case _ => NextLoop(env, s, ev)
  }

  function Run(env: Env, raw: Raw, events: seq<Event>): Controller
    requires Loads(env, raw)
  {
    if events == [] then Init(env, raw) else Next(env, Run(env, raw, Front(events)), Last(events))
  }
}
