/** One edit at a time, with reloads asked for by signal or by call at any moment: when the file
    and the running configuration end at the same text, and when they do not. */
module ConfigReloadSettled {
  import opened Common
  import opened ConfigReloadProtocol
  import opened ConfigReloadSafety

  ghost predicate AllFinished(s: Controller) {
    forall id :: id in s.editors ==> s.editors[id].Finished?
  }

  /** Nothing is asked for, under way or being restored. */
  ghost predicate Settled(s: Controller) {
    s.queue.None? && s.loop.Serving? && AllFinished(s)
  }

  /** The file is what the running configuration was loaded from. */
  predicate InSync(s: Controller) { s.file == s.activeRaw == s.source }

  /** The call that an editor's event is about. */
  function EditorOf(ev: Event): Option<nat> {
    match ev
    case BeginEdit(id, _) => Some(id)
    case Validate(id, _) => Some(id)
    case Recheck(id, _) => Some(id)
    case Replace(id, _) => Some(id)
    case Enqueue(id, _) => Some(id)
    case UndoLock(id, _) => Some(id)
    case UndoCheck(id, _) => Some(id)
    case UndoWrite(id, _) => Some(id)
    case _ => None
  }

  /** One call, `id`, that edits to `c`, among reloads of any kind; everyone takes the lock. */
  ghost predicate OneEdit(events: seq<Event>, id: nat, c: Raw) {
    forall i :: 0 <= i < |events| ==> EditStep(events[i], id, c)
  }

  predicate EditStep(ev: Event, id: nat, c: Raw) {
    !ev.ExternalWrite? && (EditorOf(ev).Some? ==> EditorOf(ev).value == id) && (ev.Validate? ==> ev.candidate == c)
  }

  // ----- The texts in play -----

  /** What the loop read: the base `p` only while it is the running text, `c` only while it is
      in the file. */
  predicate Read(s: Controller, p: Raw, c: Raw, raw: Raw) {
    raw in {p, c} && (s.file == p ==> raw == p) && (raw == p ==> s.activeRaw == p)
  }

  /** From the base `p`, at most the candidate `c` was put into the file and not taken back by the
      edit. With `p == c` there is only one text anywhere. */
  predicate InPlay(s: Controller, p: Raw, c: Raw) {
    && s.file in {p, c} && s.activeRaw in {p, c} && s.source == s.activeRaw
    && (s.file == p ==> s.activeRaw == p)
    && match s.loop
       case ReadOnce(_, raw) => Read(s, p, c, raw)
       case Loaded(_, raw, source, _) =>
         Read(s, p, c, raw) && source in {p, c} && (raw == c ==> source == c) && (s.file == p ==> source == p)
       case Starting(_, raw, source, _) => Read(s, p, c, raw) && source == raw
       case Restoring(t, _) => t == c || (t == p && s.activeRaw == p)
       case RestoreLocked(t, _) => t == c || (t == p && s.activeRaw == p)
       case _ => true
  }

  predicate LoopTagged(l: Loop) {
    match l
    case Got(req) => req.expected.Some?
    case ReadOnce(req, _) => req.expected.Some?
    case Loaded(req, _, _, _) => req.expected.Some?
    case Starting(req, _, _, _) => req.expected.Some?
    case _ => false
  }

  predicate NoTags(s: Controller) {
    (s.queue.Some? ==> s.queue.value.expected.None?) && !LoopTagged(s.loop)
  }

  /** Every tagged request is about `c`, and reads nothing else. */
  predicate Tags(s: Controller, c: Raw) {
    && (s.queue.Some? && s.queue.value.expected.Some? ==> s.queue.value.expected.value == c)
    && match s.loop
       case Got(req) => req.expected.Some? ==> req.expected.value == c
       case ReadOnce(req, raw) => req.expected.Some? ==> raw == c
       case Loaded(req, raw, _, _) => req.expected.Some? ==> raw == c
       case Starting(req, raw, _, _) => req.expected.Some? ==> raw == c
       case _ => true
  }

  predicate Restores(l: Loop) { l.Restoring? || l.RestoreLocked? || l.RestoreChecked? }

  /** A file that is ahead of the running configuration is still to be loaded or restored, or the
      process has ended. */
  predicate Owed(s: Controller) {
    || s.file == s.activeRaw
    || (s.queue.Some? && s.queue.value.expected.Some?) || LoopTagged(s.loop) || Restores(s.loop) || s.loop.Exited?
  }

  // ----- After an undo -----

  /** The base is back in the file and was never replaced as the running text; a runtime that is
      just starting may have been loaded from the candidate. */
  predicate Untaken(s: Controller, p: Raw, c: Raw) {
    && s.file == s.activeRaw == s.source == p && NoTags(s)
    && match s.loop
       case Loaded(_, _, source, _) => source in {p, c}
       case Starting(_, raw, source, _) => source in {p, c} && raw in {p, c} && (source == p ==> raw == p)
       case _ => true
  }

  /** The base is back in the file while the candidate runs; a reload under way read the base whole
      or, before the undo, the candidate. */
  predicate Stranded(s: Controller, p: Raw, c: Raw) {
    && s.file == p && s.source == c && s.activeRaw in {p, c} && NoTags(s)
    && match s.loop
       case ReadOnce(_, raw) => raw in {p, c}
       case Loaded(_, raw, source, _) => raw == c || (raw == p && source == p)
       case Starting(_, raw, source, _) => raw == source && raw in {p, c}
       case Restoring(t, _) => t == c || (t == p && s.activeRaw == p)
       case RestoreLocked(t, _) => t == c || (t == p && s.activeRaw == p)
       case RestoreChecked(t, _) => t == p && s.activeRaw == p
       case _ => true
  }

  /** A reload of the base answers, and it is up or the candidate's text is to be restored. */
  predicate Mends(s: Controller, ev: Event, p: Raw, c: Raw) {
    ev.NextReady? && s.loop.Starting? && !s.up && s.loop.source == p && (ev.ready || s.activeRaw == c)
  }

  /** After that one text is everywhere, or the restore that brings this about is under way. */
  predicate Mended(s: Controller, p: Raw, c: Raw) {
    || Calm(s, p) || Calm(s, c)
    || (&& s.file == p && s.activeRaw == s.source == c && NoTags(s)
        && match s.loop
           case Restoring(t, _) => t == p
           case RestoreLocked(t, _) => t == p
           case RestoreChecked(t, _) => t == p
           case Exited => true
           case _ => false)
  }

  // ----- The invariant of one edit -----

  /** Among the runtimes that came up since the first `n`, one was loaded from `c`. */
  predicate CameUp(s: Controller, c: Raw, n: nat) {
    n <= |s.ups| && c in s.ups[n..]
  }

  ghost predicate OthersFinished(s: Controller, id: nat) {
    forall k :: k in s.editors && k != id ==> s.editors[k].Finished?
  }

  predicate Calm(s: Controller, p: Raw) {
    InPlay(s, p, p) && NoTags(s)
  }

  /** Where the edit of `p` to `c` and the reloads around it stand. */
  predicate Stage(s: Controller, p: Raw, c: Raw, id: nat, n: nat) {
    if id !in s.editors then Calm(s, p)
    else match s.editors[id]
      case Locked(base) => Calm(s, p) && base == p
      case Validated(base, candidate) => Calm(s, p) && base == p && candidate == c && c != p
      case Ready(base, candidate) => Calm(s, p) && base == p && candidate == c && c != p
      case Finished(Declined) => Calm(s, p)
      case Finished(Queued) => InPlay(s, p, c) && Tags(s, c) && Owed(s)
      case Finished(Undone) => c != p && (CameUp(s, c, n) || Untaken(s, p, c))
      case Finished(NotUndone) => true
      case _ =>
        InPlay(s, p, c) && NoTags(s) && s.editors[id].base == p && s.editors[id].candidate == c && c != p
  }

  /** The candidate runs exactly when it came up, until the edit takes it out of the file. */
  predicate UpAgrees(s: Controller, p: Raw, c: Raw, id: nat, n: nat) {
    && n <= |s.ups|
    && (c != p && !(id in s.editors && s.editors[id].Finished? && !s.editors[id].end.Declined?) ==>
          (CameUp(s, c, n) <==> s.activeRaw == c))
  }

  ghost predicate Inv(s: Controller, p: Raw, c: Raw, id: nat, n: nat) {
    OthersFinished(s, id) && Stage(s, p, c, id, n) && UpAgrees(s, p, c, id, n)
  }

  // ----- Steps of the reload loop -----

  predicate IsLoopEvent(ev: Event) { EditorOf(ev).None? && !ev.ExternalWrite? }

  lemma LoopKeepsEditors(env: Env, s: Controller, ev: Event)
    requires IsLoopEvent(ev)
    ensures Next(env, s, ev).editors == s.editors
    ensures s.ups <= Next(env, s, ev).ups
  {
    hide Acceptable;
  }

  lemma InPlayStep(env: Env, s: Controller, ev: Event, p: Raw, c: Raw)
    requires InPlay(s, p, c) && IsLoopEvent(ev)
    ensures InPlay(Next(env, s, ev), p, c)
  {
    hide Acceptable;
  }

  lemma TagsStep(env: Env, s: Controller, ev: Event, p: Raw, c: Raw)
    requires Tags(s, c) && IsLoopEvent(ev)
    ensures Tags(Next(env, s, ev), c)
  {
    hide Acceptable;
  }

  lemma NoTagsStep(env: Env, s: Controller, ev: Event)
    requires NoTags(s) && IsLoopEvent(ev)
    ensures NoTags(Next(env, s, ev))
  {
    hide Acceptable;
  }

  /** The loop is still reading: nothing was stopped, and no restore is under way. */
  predicate Reading(l: Loop) { l.Serving? || l.Got? || l.ReadOnce? || l.Loaded? }

  lemma OwedStep(env: Env, s: Controller, ev: Event, p: Raw, c: Raw)
    requires InPlay(s, p, c) && Tags(s, c) && Owed(s) && IsLoopEvent(ev)
    ensures Owed(Next(env, s, ev))
  {
    hide *;
    if Reading(s.loop) {
      OwedReads(env, s, ev, p, c);
    } else {
      OwedSwitches(env, s, ev, p, c);
    }
  }

  lemma OwedReads(env: Env, s: Controller, ev: Event, p: Raw, c: Raw)
    requires InPlay(s, p, c) && Tags(s, c) && Owed(s) && IsLoopEvent(ev) && Reading(s.loop)
    ensures Owed(Next(env, s, ev))
  {
    hide Acceptable, NextEditor;
  }

  lemma OwedSwitches(env: Env, s: Controller, ev: Event, p: Raw, c: Raw)
    requires InPlay(s, p, c) && Tags(s, c) && Owed(s) && IsLoopEvent(ev) && !Reading(s.loop)
    ensures Owed(Next(env, s, ev))
  {
    hide Acceptable, NextEditor, Reject;
  }

  /** After the undo a runtime from the candidate may still come up; nothing else changes. */
  lemma UntakenStep(env: Env, s: Controller, ev: Event, p: Raw, c: Raw)
    requires Untaken(s, p, c) && IsLoopEvent(ev)
    ensures var s' := Next(env, s, ev);
            if s'.ups == s.ups + [c] then c == p || Stranded(s', p, c) else Untaken(s', p, c)
  {
    hide Acceptable;
    UpsStep(env, s, ev);
    assert |s.ups + [c]| == |s.ups| + 1;
    if s.loop.Starting? {
      assert s.loop.source != c ==> (s.ups + [s.loop.source])[|s.ups|] != (s.ups + [c])[|s.ups|];
    }
  }

  lemma StrandedStep(env: Env, s: Controller, ev: Event, p: Raw, c: Raw)
    requires Stranded(s, p, c) && c != p && IsLoopEvent(ev)
    ensures var s' := Next(env, s, ev);
            if Mends(s, ev, p, c) then Mended(s', p, c) else Stranded(s', p, c)
  {
    hide *;
    if Mends(s, ev, p, c) {
      ReloadMends(env, s, ev, p, c);
    } else {
      StrandedStays(env, s, ev, p, c);
    }
  }

  lemma StrandedStays(env: Env, s: Controller, ev: Event, p: Raw, c: Raw)
    requires Stranded(s, p, c) && c != p && IsLoopEvent(ev) && !Mends(s, ev, p, c)
    ensures Stranded(Next(env, s, ev), p, c)
  {
    hide *;
    if Reading(s.loop) {
      StrandedReads(env, s, ev, p, c);
    } else if s.loop.Starting? {
      StrandedStarts(env, s, ev, p, c);
    } else {
      StrandedRestores(env, s, ev, p, c);
    }
  }

  lemma StrandedReads(env: Env, s: Controller, ev: Event, p: Raw, c: Raw)
    requires Stranded(s, p, c) && c != p && IsLoopEvent(ev) && Reading(s.loop)
    ensures Stranded(Next(env, s, ev), p, c)
  {
    NoTagsStep(env, s, ev);
    hide Acceptable, NextEditor;
  }

  lemma StrandedStarts(env: Env, s: Controller, ev: Event, p: Raw, c: Raw)
    requires Stranded(s, p, c) && c != p && IsLoopEvent(ev) && !Mends(s, ev, p, c) && s.loop.Starting?
    ensures Stranded(Next(env, s, ev), p, c)
  {
    NoTagsStep(env, s, ev);
    hide Acceptable, NextEditor, NoTags, Reject;
  }

  lemma StrandedRestores(env: Env, s: Controller, ev: Event, p: Raw, c: Raw)
    requires Stranded(s, p, c) && c != p && IsLoopEvent(ev) && !Reading(s.loop) && !s.loop.Starting?
    ensures Stranded(Next(env, s, ev), p, c)
  {
    NoTagsStep(env, s, ev);
    hide Acceptable, NextEditor, NoTags, Reject;
  }

  lemma ReloadMends(env: Env, s: Controller, ev: Event, p: Raw, c: Raw)
    requires Stranded(s, p, c) && c != p && Mends(s, ev, p, c)
    ensures Mended(Next(env, s, ev), p, c)
  {}

  lemma MendedStep(env: Env, s: Controller, ev: Event, p: Raw, c: Raw)
    requires Mended(s, p, c) && IsLoopEvent(ev)
    ensures Mended(Next(env, s, ev), p, c)
  {
    if Calm(s, p) {
      InPlayStep(env, s, ev, p, p);
      NoTagsStep(env, s, ev);
    } else if Calm(s, c) {
      InPlayStep(env, s, ev, c, c);
      NoTagsStep(env, s, ev);
    }
    hide Acceptable;
  }

  /** Which runtimes came up. */
  lemma UpsStep(env: Env, s: Controller, ev: Event)
    requires IsLoopEvent(ev)
    ensures var s' := Next(env, s, ev);
            if ev == NextReady(true) && s.loop.Starting? && !s.up then
              s'.ups == s.ups + [s.loop.source] && s'.source == s.loop.source && s'.activeRaw == s.loop.raw
            else s'.ups == s.ups && s'.source == s.source && s'.activeRaw == s.activeRaw
  {
    hide Acceptable;
  }

  lemma CameUpStep(s: Controller, s': Controller, c: Raw, n: nat)
    requires n <= |s.ups| && (s'.ups == s.ups || exists t :: s'.ups == s.ups + [t])
    ensures n <= |s'.ups|
    ensures CameUp(s', c, n) <==> CameUp(s, c, n) || s'.ups == s.ups + [c]
  {
    assert |s.ups + [c]| == |s.ups| + 1;
    if s'.ups != s.ups {
      var t :| s'.ups == s.ups + [t];
      assert s'.ups[n..] == s.ups[n..] + [t];
      assert t != c ==> (s.ups + [t])[|s.ups|] != (s.ups + [c])[|s.ups|];
    }
  }

  lemma UpAgreesStep(env: Env, s: Controller, ev: Event, p: Raw, c: Raw, n: nat)
    requires InPlay(s, p, c) && c != p && IsLoopEvent(ev) && n <= |s.ups| && (CameUp(s, c, n) <==> s.activeRaw == c)
    ensures CameUp(Next(env, s, ev), c, n) <==> Next(env, s, ev).activeRaw == c
  {
    UpsStep(env, s, ev);
    CameUpStep(s, Next(env, s, ev), c, n);
    hide Next, CameUp;
  }

  lemma CalmIsInPlay(s: Controller, p: Raw, c: Raw)
    requires InPlay(s, p, p)
    ensures InPlay(s, p, c)
  {}

  lemma LoopStep(env: Env, s: Controller, ev: Event, p: Raw, c: Raw, id: nat, n: nat)
    requires Inv(s, p, c, id, n) && IsLoopEvent(ev)
    ensures Inv(Next(env, s, ev), p, c, id, n)
  {
    var s' := Next(env, s, ev);
    LoopKeepsEditors(env, s, ev);
    UpsStep(env, s, ev);
    CameUpStep(s, s', c, n);
    hide Next, CameUp;
    LoopStage(env, s, ev, p, c, id, n);
    if c != p && !(id in s.editors && s.editors[id].Finished? && !s.editors[id].end.Declined?) {
      if InPlay(s, p, p) { CalmIsInPlay(s, p, c); }
      UpAgreesStep(env, s, ev, p, c, n);
    }
  }

  lemma LoopStage(env: Env, s: Controller, ev: Event, p: Raw, c: Raw, id: nat, n: nat)
    requires Stage(s, p, c, id, n) && IsLoopEvent(ev) && n <= |s.ups|
    ensures Stage(Next(env, s, ev), p, c, id, n)
  {
    hide Next, InPlay, Tags, NoTags, Owed, Untaken, Stranded, CameUp;
    var s' := Next(env, s, ev);
    LoopKeepsEditors(env, s, ev);
    UpsStep(env, s, ev);
    CameUpStep(s, s', c, n);
    if InPlay(s, p, p) { InPlayStep(env, s, ev, p, p); }
    if InPlay(s, p, c) {
      InPlayStep(env, s, ev, p, c);
      if Tags(s, c) {
        TagsStep(env, s, ev, p, c);
        if Owed(s) { OwedStep(env, s, ev, p, c); }
      }
    }
    if NoTags(s) { NoTagsStep(env, s, ev); }
    if Untaken(s, p, c) { UntakenStep(env, s, ev, p, c); }
  }

  // ----- Steps of the edit -----

  /** A step of the edit leaves the loop, and what came up, alone. */
  lemma EditorKeepsLoop(env: Env, s: Controller, ev: Event, id: nat)
    requires EditorOf(ev) == Some(id)
    ensures var s' := Next(env, s, ev);
            && s'.loop == s.loop && s'.ups == s.ups && s'.activeRaw == s.activeRaw && s'.source == s.source && s'.cfg == s.cfg
            && (s' == s || (id in s'.editors && s'.editors == s.editors[id := s'.editors[id]]))
  {
    hide Acceptable;
  }

  lemma SameCameUp(s: Controller, s': Controller, c: Raw, n: nat)
    requires s'.ups == s.ups
    ensures CameUp(s', c, n) == CameUp(s, c, n)
  {}

  lemma EditorStep(env: Env, s: Controller, ev: Event, p: Raw, c: Raw, id: nat, n: nat)
    requires Inv(s, p, c, id, n) && EditorOf(ev).Some? && EditStep(ev, id, c)
    ensures Inv(Next(env, s, ev), p, c, id, n)
  {
    var s' := Next(env, s, ev);
    EditorKeepsLoop(env, s, ev, id);
    SameCameUp(s, s', c, n);
    hide Next, CameUp;
    EditorStage(env, s, ev, p, c, id, n);
    if id in s.editors && s.editors[id].Finished? {
      FinishedStays(env, s, ev, id);
    }
    hide Stage;
  }

  lemma FinishedStays(env: Env, s: Controller, ev: Event, id: nat)
    requires EditorOf(ev) == Some(id) && id in s.editors && s.editors[id].Finished?
    ensures Next(env, s, ev) == s
  {}

  lemma SameTexts(s: Controller, s': Controller, p: Raw, c: Raw)
    requires s'.file == s.file && s'.activeRaw == s.activeRaw && s'.source == s.source && s'.loop == s.loop
    ensures InPlay(s', p, c) == InPlay(s, p, c)
    ensures s'.queue == s.queue ==> NoTags(s') == NoTags(s)
  {}

  lemma EditorStage(env: Env, s: Controller, ev: Event, p: Raw, c: Raw, id: nat, n: nat)
    requires Stage(s, p, c, id, n) && UpAgrees(s, p, c, id, n) && EditorOf(ev).Some? && EditStep(ev, id, c)
    ensures Stage(Next(env, s, ev), p, c, id, n)
  {
    if id in s.editors && s.editors[id].Finished? {
      FinishedStays(env, s, ev, id);
    } else if id in s.editors && s.editors[id].UndoChecked? && ev.UndoWrite? {
      UndoStage(env, s, ev, p, c, id, n);
    } else if id in s.editors && s.editors[id].Ready? && ev.Replace? {
      ReplaceStage(env, s, ev, p, c, id, n);
    } else {
      QuietStage(env, s, ev, p, c, id, n);
    }
  }

  /** The steps that do not write the file. */
  lemma QuietStage(env: Env, s: Controller, ev: Event, p: Raw, c: Raw, id: nat, n: nat)
    requires Stage(s, p, c, id, n) && EditorOf(ev).Some? && EditStep(ev, id, c)
    requires id in s.editors ==> !s.editors[id].Finished?
    requires id in s.editors ==> !(s.editors[id].UndoChecked? && ev.UndoWrite?) && !(s.editors[id].Ready? && ev.Replace?)
    ensures Stage(Next(env, s, ev), p, c, id, n)
  {
    hide *;
    if ev.BeginEdit? || ev.Validate? || ev.Recheck? || ev.Replace? {
      QuietBefore(env, s, ev, p, c, id, n);
    } else if ev.Enqueue? {
      QuietEnqueue(env, s, ev, p, c, id, n);
    } else {
      assert ev.UndoLock? || ev.UndoCheck? || ev.UndoWrite? by { EditorEvents(ev); }
      QuietUndo(env, s, ev, p, c, id, n);
    }
  }

  lemma EditorEvents(ev: Event)
    requires EditorOf(ev).Some?
    ensures ev.BeginEdit? || ev.Validate? || ev.Recheck? || ev.Replace? || ev.Enqueue?
            || ev.UndoLock? || ev.UndoCheck? || ev.UndoWrite?
  {}

  lemma QuietBefore(env: Env, s: Controller, ev: Event, p: Raw, c: Raw, id: nat, n: nat)
    requires Stage(s, p, c, id, n) && EditorOf(ev).Some? && EditStep(ev, id, c)
    requires id in s.editors ==> !s.editors[id].Finished?
    requires id in s.editors ==> !(s.editors[id].UndoChecked? && ev.UndoWrite?) && !(s.editors[id].Ready? && ev.Replace?)
    requires ev.BeginEdit? || ev.Validate? || ev.Recheck? || ev.Replace?
    ensures Stage(Next(env, s, ev), p, c, id, n)
  {
    var s' := Next(env, s, ev);
    hide Acceptable, CameUp, Untaken;
    SameTexts(s, s', p, p);
    SameTexts(s, s', p, c);
    assert Calm(s, p) ==> s.file == p;
    hide InPlay, Tags, Owed, NextLoop;
  }

  lemma QuietEnqueue(env: Env, s: Controller, ev: Event, p: Raw, c: Raw, id: nat, n: nat)
    requires Stage(s, p, c, id, n) && EditorOf(ev).Some? && EditStep(ev, id, c)
    requires id in s.editors ==> !s.editors[id].Finished?
    requires id in s.editors ==> !(s.editors[id].UndoChecked? && ev.UndoWrite?) && !(s.editors[id].Ready? && ev.Replace?)
    requires ev.Enqueue?
    ensures Stage(Next(env, s, ev), p, c, id, n)
  {
    var s' := Next(env, s, ev);
    hide Acceptable, CameUp, Untaken;
    SameTexts(s, s', p, p);
    SameTexts(s, s', p, c);
    assert Calm(s, p) ==> s.file == p;
    hide InPlay, Tags, Owed, NextLoop;
  }

  lemma QuietUndo(env: Env, s: Controller, ev: Event, p: Raw, c: Raw, id: nat, n: nat)
    requires Stage(s, p, c, id, n) && EditorOf(ev).Some? && EditStep(ev, id, c)
    requires id in s.editors ==> !s.editors[id].Finished?
    requires id in s.editors ==> !(s.editors[id].UndoChecked? && ev.UndoWrite?) && !(s.editors[id].Ready? && ev.Replace?)
    requires ev.UndoLock? || ev.UndoCheck? || ev.UndoWrite?
    ensures Stage(Next(env, s, ev), p, c, id, n)
  {
    var s' := Next(env, s, ev);
    hide Acceptable, CameUp, Untaken;
    SameTexts(s, s', p, p);
    SameTexts(s, s', p, c);
    assert Calm(s, p) ==> s.file == p;
    hide InPlay, Tags, Owed, NextLoop;
  }

  lemma ReplaceStage(env: Env, s: Controller, ev: Event, p: Raw, c: Raw, id: nat, n: nat)
    requires Stage(s, p, c, id, n) && ev.Replace? && ev.id == id && id in s.editors && s.editors[id].Ready?
    ensures Stage(Next(env, s, ev), p, c, id, n)
  {
    hide CameUp, Untaken;
  }

  lemma UndoStage(env: Env, s: Controller, ev: Event, p: Raw, c: Raw, id: nat, n: nat)
    requires Stage(s, p, c, id, n) && UpAgrees(s, p, c, id, n) && ev.UndoWrite? && ev.id == id
    requires id in s.editors && s.editors[id].UndoChecked?
    ensures Stage(Next(env, s, ev), p, c, id, n)
  {
    hide CameUp;
    SameCameUp(s, Next(env, s, ev), c, n);
  }

  // ----- Every run of one edit -----

  lemma Step(env: Env, s: Controller, ev: Event, p: Raw, c: Raw, id: nat, n: nat)
    requires Inv(s, p, c, id, n) && EditStep(ev, id, c)
    ensures Inv(Next(env, s, ev), p, c, id, n)
  {
    hide Next, Inv;
    if EditorOf(ev).Some? {
      EditorStep(env, s, ev, p, c, id, n);
    } else {
      LoopStep(env, s, ev, p, c, id, n);
    }
  }

  lemma StartsCalm(s: Controller, c: Raw, id: nat)
    requires Settled(s) && InSync(s) && id !in s.editors
    ensures Inv(s, s.file, c, id, |s.ups|)
  {}

  lemma {:induction false} Always(env: Env, raw: Raw, before: seq<Event>, after: seq<Event>, id: nat, c: Raw)
    requires Loads(env, raw) && OneEdit(after, id, c)
    requires var s := Run(env, raw, before); Settled(s) && InSync(s) && id !in s.editors
    ensures var s := Run(env, raw, before);
            Inv(Run(env, raw, before + after), s.file, c, id, |s.ups|)
  {
    hide Next, Inv, Settled, InSync;
    var s := Run(env, raw, before);
    if after == [] {
      assert before + after == before;
      StartsCalm(s, c, id);
    } else {
      Always(env, raw, before, Front(after), id, c);
      var m := Run(env, raw, before + Front(after));
      assert Run(env, raw, before + after) == Next(env, m, Last(after)) by { RunLast(env, raw, before, after); }
      hide Run;
      Step(env, m, Last(after), s.file, c, id, |s.ups|);
    }
  }

  lemma RunLast(env: Env, raw: Raw, before: seq<Event>, after: seq<Event>)
    requires Loads(env, raw) && after != []
    ensures Run(env, raw, before + after) == Next(env, Run(env, raw, before + Front(after)), Last(after))
  {
    assert Front(before + after) == before + Front(after);
  }

  // ----- How an edit ends -----

  /** From a settled state, one edit to `c` and reloads of any kind around it end, once settled
      again: an edit that was queued with the file and the running configuration both at `c` or
      both at the previous text, one that wrote nothing with both as before, and one that was
      undone with both as before unless a runtime loaded from its candidate came up. */
  lemma EditEndsOneWayOrTheOther(env: Env, raw: Raw, before: seq<Event>, after: seq<Event>, id: nat, c: Raw)
    requires Loads(env, raw) && OneEdit(after, id, c)
    requires var s := Run(env, raw, before); Settled(s) && InSync(s) && id !in s.editors
    requires Settled(Run(env, raw, before + after))
    ensures var s, t := Run(env, raw, before), Run(env, raw, before + after);
            if id !in t.editors || t.editors[id].end.Declined? then InSync(t) && t.file == s.file
            else match t.editors[id].end
              case Queued => InSync(t) && t.file in {s.file, c}
              case Undone => !CameUp(t, c, |s.ups|) ==> InSync(t) && t.file == s.file
              case _ => true
  {
    Always(env, raw, before, after, id, c);
    hide Run;
  }

  /** The edit gets as far as its undo, and `rest` is what comes after that. */
  ghost predicate UndoneAt(env: Env, raw: Raw, before: seq<Event>, mid: seq<Event>, rest: seq<Event>, id: nat, c: Raw)
    requires Loads(env, raw)
  {
    && OneEdit(mid, id, c) && OneEdit(rest, id, c)
    && id in Run(env, raw, before + mid).editors && Run(env, raw, before + mid).editors[id].UndoChecked?
  }

  /** At some point of `rest`, after a runtime from the candidate had come up, a reload of the base
      came up too, or failed and fell back on the candidate. */
  ghost predicate MendedIn(env: Env, raw: Raw, undone: seq<Event>, rest: seq<Event>, p: Raw, c: Raw, n: nat)
    requires Loads(env, raw)
  {
    exists k :: 0 <= k < |rest| && MendsAt(env, Run(env, raw, undone + rest[..k]), rest[k], p, c, n)
  }

  ghost predicate MendsAt(env: Env, s: Controller, ev: Event, p: Raw, c: Raw, n: nat) {
    CameUp(s, c, n) && Mends(s, ev, p, c)
  }

  lemma MendedInFront(env: Env, raw: Raw, undone: seq<Event>, rest: seq<Event>, p: Raw, c: Raw, n: nat)
    requires Loads(env, raw) && rest != []
    ensures MendedIn(env, raw, undone, rest, p, c, n) <==>
              MendedIn(env, raw, undone, Front(rest), p, c, n) ||
              MendsAt(env, Run(env, raw, undone + Front(rest)), Last(rest), p, c, n)
  {
    hide Run, MendsAt;
    var front := Front(rest);
    assert forall k :: 0 <= k < |front| ==> rest[..k] == front[..k] && rest[k] == front[k];
    assert rest[..|front|] == front && rest[|front|] == Last(rest);
    if MendedIn(env, raw, undone, front, p, c, n) {
      var k :| 0 <= k < |front| && MendsAt(env, Run(env, raw, undone + front[..k]), front[k], p, c, n);
      assert MendsAt(env, Run(env, raw, undone + rest[..k]), rest[k], p, c, n);
    }
    if MendsAt(env, Run(env, raw, undone + front), Last(rest), p, c, n) {
      assert MendsAt(env, Run(env, raw, undone + rest[..|front|]), rest[|front|], p, c, n);
    }
  }

  /** What holds after the undo, whatever is reloaded then. */
  ghost predicate AfterUndo(t: Controller, p: Raw, c: Raw, id: nat, n: nat, mended: bool) {
    && c != p && AllFinished(t) && id in t.editors && n <= |t.ups|
    && if !CameUp(t, c, n) then !mended && Untaken(t, p, c) else if mended then Mended(t, p, c) else Stranded(t, p, c)
  }

  lemma {:induction false} AfterUndoAlways(env: Env, raw: Raw, before: seq<Event>, mid: seq<Event>, rest: seq<Event>, id: nat, c: Raw)
    requires Loads(env, raw) && UndoneAt(env, raw, before, mid, rest, id, c)
    requires forall i :: 0 <= i < |before| ==> !before[i].ExternalWrite?
    requires var s := Run(env, raw, before); Settled(s) && InSync(s) && id !in s.editors
    ensures var s, undone := Run(env, raw, before), before + mid + [UndoWrite(id, true)];
            AfterUndo(Run(env, raw, undone + rest), s.file, c, id, |s.ups|, MendedIn(env, raw, undone, rest, s.file, c, |s.ups|))
  {
    hide Settled, InSync, AfterUndo;
    var s := Run(env, raw, before);
    var undone := before + mid + [UndoWrite(id, true)];
    if rest == [] {
      assert undone + rest == undone && Front(undone) == before + mid;
      UndoIsReached(env, raw, before, mid, id, c);
    } else {
      AfterUndoAlways(env, raw, before, mid, Front(rest), id, c);
      RunLast(env, raw, undone, rest);
      MendedInFront(env, raw, undone, rest, s.file, c, |s.ups|);
      assert EditStep(Last(rest), id, c);
      hide Run, MendedIn, MendsAt;
      UndoneStep(env, Run(env, raw, undone + Front(rest)), Last(rest), s.file, c, id, |s.ups|,
        MendedIn(env, raw, undone, Front(rest), s.file, c, |s.ups|));
    }
  }

  lemma UndoIsReached(env: Env, raw: Raw, before: seq<Event>, mid: seq<Event>, id: nat, c: Raw)
    requires Loads(env, raw) && UndoneAt(env, raw, before, mid, [], id, c)
    requires forall i :: 0 <= i < |before| ==> !before[i].ExternalWrite?
    requires var s := Run(env, raw, before); Settled(s) && InSync(s) && id !in s.editors
    ensures var s := Run(env, raw, before);
            AfterUndo(Next(env, Run(env, raw, before + mid), UndoWrite(id, true)), s.file, c, id, |s.ups|, false)
  {
    hide Run, AfterUndo, Settled, InSync, Inv, Chain;
    var s, m := Run(env, raw, before), Run(env, raw, before + mid);
    Always(env, raw, before, mid, id, c);
    WritesAreCompareAndSwap(env, raw, before + mid);
    UndoWritten(env, m, s.file, c, id, |s.ups|);
  }

  /** The undo itself. The loop holds no lock then, so it is in no middle of a restore. */
  lemma UndoWritten(env: Env, m: Controller, p: Raw, c: Raw, id: nat, n: nat)
    requires Inv(m, p, c, id, n) && LockAgrees(m) && id in m.editors && m.editors[id].UndoChecked?
    ensures AfterUndo(Next(env, m, UndoWrite(id, true)), p, c, id, n, false)
  {
    var t := Next(env, m, UndoWrite(id, true));
    SameCameUp(m, t, c, n);
    assert HoldsLock(m.editors[id]);
    hide CameUp;
  }

  lemma UndoneStep(env: Env, u: Controller, ev: Event, p: Raw, c: Raw, id: nat, n: nat, mended: bool)
    requires AfterUndo(u, p, c, id, n, mended) && EditStep(ev, id, c)
    ensures AfterUndo(Next(env, u, ev), p, c, id, n, mended || MendsAt(env, u, ev, p, c, n))
  {
    if EditorOf(ev).Some? {
      FinishedStays(env, u, ev, id);
    } else {
      var t := Next(env, u, ev);
      LoopKeepsEditors(env, u, ev);
      UpsStep(env, u, ev);
      CameUpStep(u, t, c, n);
      hide Next, CameUp, Mended, Stranded, Untaken, Mends;
      if !CameUp(u, c, n) {
        UntakenStep(env, u, ev, p, c);
      } else if mended {
        MendedStep(env, u, ev, p, c);
      } else {
        StrandedStep(env, u, ev, p, c);
      }
    }
  }

  /** An undone edit, among reloads of any kind before and after the undo: the file and the running
      configuration end together if and only if no runtime loaded from the candidate came up, or
      a later reload of the base did too or fell back on the candidate's text. */
  lemma UndoneEditIff(env: Env, raw: Raw, before: seq<Event>, mid: seq<Event>, rest: seq<Event>, id: nat, c: Raw)
    requires Loads(env, raw) && UndoneAt(env, raw, before, mid, rest, id, c)
    requires forall i :: 0 <= i < |before| ==> !before[i].ExternalWrite?
    requires var s := Run(env, raw, before); Settled(s) && InSync(s) && id !in s.editors
    requires Settled(Run(env, raw, before + mid + [UndoWrite(id, true)] + rest))
    ensures var s, undone := Run(env, raw, before), before + mid + [UndoWrite(id, true)];
            var t := Run(env, raw, undone + rest);
            InSync(t) <==> !CameUp(t, c, |s.ups|) || MendedIn(env, raw, undone, rest, s.file, c, |s.ups|)
  {
    AfterUndoAlways(env, raw, before, mid, rest, id, c);
    hide Run, UndoneAt, CameUp, MendedIn;
  }

  /** The exception is real: a reload that was asked for by signal takes up the candidate while the
      edit that put it there is refused and undone. */
  lemma RefusedCandidateRuns(env: Env, raw: Raw, c: Raw)
    requires Loads(env, raw) && Acceptable(env, env.load(raw).value, c) && c != raw
    ensures exists events :: var t := Run(env, raw, events);
              Settled(t) && t.editors == map[0 := Finished(Undone)] && t.file == raw && t.activeRaw == t.source == c
  {
    var e0 := EditInstalls(env, raw, c);
    hide Run, Acceptable, Settled, Next;
    var taken := ReloadTakesUp(env, raw, e0, c);
    var e1 := taken + [StopAndStart(true)];
    RunOne(env, raw, taken, StopAndStart(true));
    OldOneStops(env, Run(env, raw, taken));
    var e2 := EditIsUndone(env, raw, e1, c);
    var t := Next(env, Run(env, raw, e2), NextReady(true));
    RunOne(env, raw, e2, NextReady(true));
    assert t == Run(env, raw, e2).(cfg := env.load(c).value, activeRaw := c, source := c, ups := t.ups, loop := Serving, up := true)
      by { UpAfterStart(env, Run(env, raw, e2)); }
    assert Settled(t) by { OnlyOneSettled(t); }
  }

  lemma OldOneStops(env: Env, s: Controller)
    requires s.loop.Starting?
    ensures Next(env, s, StopAndStart(true)) == s.(up := false)
  {}

  lemma UpAfterStart(env: Env, s: Controller)
    requires s.loop.Starting? && !s.up
    ensures Next(env, s, NextReady(true)) ==
              s.(cfg := s.loop.next, activeRaw := s.loop.raw, source := s.loop.source, ups := s.ups + [s.loop.source],
                 loop := Serving, up := true)
  {}

  lemma OnlyOneSettled(t: Controller)
    requires t.queue.None? && t.loop.Serving? && t.editors == map[0 := Finished(Undone)]
    ensures Settled(t)
  {}

  lemma EditIsUndone(env: Env, raw: Raw, e1: seq<Event>, c: Raw) returns (events: seq<Event>)
    requires Loads(env, raw)
    requires var s := Run(env, raw, e1); s.editors == map[0 := Written(raw, c)] && s.file == c && s.lock == EditorHolds(0)
    ensures var s := Run(env, raw, e1);
            Run(env, raw, events) == s.(file := raw, editors := map[0 := Finished(Undone)], lock := NoOne,
                                        writes := s.writes + [Write(Restore, c, c, raw)])
  {
    hide Run, Acceptable;
    var s := Run(env, raw, e1);
    var e2 := e1 + [Enqueue(0, true)];
    RunOne(env, raw, e1, Enqueue(0, true));
    assert Run(env, raw, e2) == s.(editors := map[0 := Refused(raw, c)], lock := NoOne);
    var e3 := e2 + [UndoLock(0, true)];
    RunOne(env, raw, e2, UndoLock(0, true));
    var e4 := e3 + [UndoCheck(0, true)];
    RunOne(env, raw, e3, UndoCheck(0, true));
    assert Run(env, raw, e4) == s.(editors := map[0 := UndoChecked(raw, c)]);
    events := e4 + [UndoWrite(0, true)];
    RunOne(env, raw, e4, UndoWrite(0, true));
  }

  lemma ReloadTakesUp(env: Env, raw: Raw, e0: seq<Event>, c: Raw) returns (events: seq<Event>)
    requires Loads(env, raw) && Acceptable(env, env.load(raw).value, c)
    requires var s := Run(env, raw, e0); s.file == c && s.queue.None? && s.loop.Serving? && s.cfg == env.load(raw).value
    ensures var s := Run(env, raw, e0);
            Run(env, raw, events) == s.(loop := Starting(Request(None), c, c, env.load(c).value))
  {
    hide Run;
    var e1 := e0 + [Hangup];
    RunOne(env, raw, e0, Hangup);
    var e2 := e1 + [Take];
    RunOne(env, raw, e1, Take);
    var e3 := e2 + [ReadCurrent(true)];
    RunOne(env, raw, e2, ReadCurrent(true));
    var e4 := e3 + [LoadNext];
    RunOne(env, raw, e3, LoadNext);
    events := e4 + [ReadLatest(true)];
    RunOne(env, raw, e4, ReadLatest(true));
  }

  // ----- One edit after the other -----

  /** No call is on its way, and the loop, which is running, has nothing to do that one asked for. */
  ghost predicate Quiet(s: Controller) {
    AllFinished(s) && NoTags(s) && !Restores(s.loop) && !s.loop.Exited?
  }

  /** Edits begin one after the other, each when those before it are finished and their reloads
      done with; reloads are asked for at any time; everyone takes the lock. */
  ghost predicate Sequential(env: Env, raw: Raw, events: seq<Event>)
    requires Loads(env, raw)
  {
    events == [] ||
    (&& Sequential(env, raw, Front(events))
     && !Last(events).ExternalWrite?
     && (Last(events).BeginEdit? ==> Quiet(Run(env, raw, Front(events)))))
  }

  /** No edit had to be undone. */
  ghost predicate NoUndo(s: Controller) {
    forall id :: id in s.editors && s.editors[id].Finished? ==> s.editors[id].end.Declined? || s.editors[id].end.Queued?
  }

  lemma NoUndoBefore(env: Env, s: Controller, ev: Event)
    requires NoUndo(Next(env, s, ev))
    ensures NoUndo(s)
  {
    forall id | id in s.editors && s.editors[id].Finished?
      ensures s.editors[id].end.Declined? || s.editors[id].end.Queued?
    {
      if EditorOf(ev).Some? {
        EditorKeepsLoop(env, s, ev, EditorOf(ev).value);
        if EditorOf(ev).value == id { FinishedStays(env, s, ev, id); }
      } else if !ev.ExternalWrite? {
        LoopKeepsEditors(env, s, ev);
      }
      assert id in Next(env, s, ev).editors && Next(env, s, ev).editors[id] == s.editors[id];
    }
  }

  /** When an edit's reload is done with, its text is the only one in play. */
  lemma NextEditBegins(s: Controller, p: Raw, c: Raw, id: nat, n: nat, next: nat)
    requires Inv(s, p, c, id, n) && Quiet(s) && NoUndo(s) && next !in s.editors
    ensures Inv(s, s.file, c, next, |s.ups|)
  {}

  /** Until the candidate is known nothing depends on it. */
  lemma CandidateIsFree(s: Controller, p: Raw, c: Raw, id: nat, n: nat, c': Raw)
    requires Inv(s, p, c, id, n) && id in s.editors && s.editors[id].Locked?
    ensures Inv(s, p, c', id, |s.ups|)
  {}

  lemma NotItsTurn(env: Env, s: Controller, ev: Event, id: nat)
    requires EditorOf(ev) == Some(id) && (id in s.editors ==> s.editors[id].Finished?) && (ev.BeginEdit? ==> id in s.editors)
    ensures Next(env, s, ev) == s
  {}

  lemma NotValidating(env: Env, s: Controller, ev: Event)
    requires ev.Validate? && (ev.id in s.editors ==> !s.editors[ev.id].Locked?)
    ensures Next(env, s, ev) == s
  {}

  /** Whatever edit is on its way, or was last, the invariant of one edit holds for it. */
  lemma {:induction false} SequentialInv(env: Env, raw: Raw, events: seq<Event>)
    returns (p: Raw, c: Raw, id: nat, n: nat)
    requires Loads(env, raw) && Sequential(env, raw, events) && NoUndo(Run(env, raw, events))
    ensures Inv(Run(env, raw, events), p, c, id, n)
  {
    if events == [] {
      p, c, id, n := raw, raw, 0, 0;
    } else {
      var s, ev := Run(env, raw, Front(events)), Last(events);
      NoUndoBefore(env, s, ev);
      p, c, id, n := SequentialInv(env, raw, Front(events));
      hide Run, Sequential, Inv, NoUndo, Next;
      p, c, id, n := SequentialStep(env, s, ev, p, c, id, n);
    }
  }

  lemma SequentialStep(env: Env, s: Controller, ev: Event, p0: Raw, c0: Raw, id0: nat, n0: nat)
    returns (p: Raw, c: Raw, id: nat, n: nat)
    requires Inv(s, p0, c0, id0, n0) && NoUndo(s) && !ev.ExternalWrite? && (ev.BeginEdit? ==> Quiet(s))
    ensures Inv(Next(env, s, ev), p, c, id, n)
  {
    p, c, id, n := p0, c0, id0, n0;
    assert OthersFinished(s, id);
    assert AllFinished(s) == (OthersFinished(s, id) && (id in s.editors ==> s.editors[id].Finished?));
    hide Next, Stage, UpAgrees;
    if EditorOf(ev).None? {
      LoopStep(env, s, ev, p, c, id, n);
    } else if ev.BeginEdit? && ev.id !in s.editors {
      NextEditBegins(s, p, c, id, n, ev.id);
      p, id, n := s.file, ev.id, |s.ups|;
      EditorStep(env, s, ev, p, c, id, n);
    } else if EditorOf(ev).value != id || ev.BeginEdit? {
      NotItsTurn(env, s, ev, EditorOf(ev).value);
    } else if !ev.Validate? {
      EditorStep(env, s, ev, p, c, id, n);
    } else if id in s.editors && s.editors[id].Locked? {
      CandidateIsFree(s, p, c, id, n, ev.candidate);
      c, n := ev.candidate, |s.ups|;
      EditorStep(env, s, ev, p, c, id, n);
    } else {
      NotValidating(env, s, ev);
    }
  }

  /** Whenever everything has settled, and no edit had to be undone, the file is the text the
      running configuration was loaded from. */
  lemma SettledTogether(env: Env, raw: Raw, events: seq<Event>)
    requires Loads(env, raw) && Sequential(env, raw, events)
    requires Settled(Run(env, raw, events)) && NoUndo(Run(env, raw, events))
    ensures InSync(Run(env, raw, events))
  {
    var p, c, id, n := SequentialInv(env, raw, events);
    hide Run, Sequential;
  }
}
