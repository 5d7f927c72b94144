/** What the notification pipeline promises, for every run, on a backend that has one
    notification of each chat. `Desktops` has the same for the freedesktop backend. */
module PipelinePromises {
  import opened Wrappers
  import opened Commands
  import opened Notify
  import opened Workers
  import opened Pipelines

  /** Once everything that waits has run: what the screen shows. */
  lemma EndShows(p: Pipeline, k: NotifyKey)
    requires PipeOk(p) && !p.worker.off && k in RunAll(p.screen, Backlog(p))
    ensures k in p.core.pending || k in p.gaveUp
    ensures k in p.core.pending && k !in p.stale ==> RunAll(p.screen, Backlog(p))[k] == p.core.pending[k].shown
  {
    assert ChatOk(p, k);
    NewestIsLast(p, k);
    ScreenAfter(p.screen, Backlog(p), k);
  }

  /** In every run with the backend on, where a show replaces the notification of its chat:
      once the running command, the inbox and the core queue have run, only pending chats are
      on the screen, with their pending text.
      The exceptions are a dismiss that was given up after its tries, and text that a
      limit dropped or the OS refused. */
  lemma OnlyPendingChatsStay(steps: seq<Step>)
    ensures var p := Exec(START, steps);
            var end := RunAll(p.screen, Backlog(p));
            !p.worker.off ==>
              && (forall k :: k in end ==> k in p.core.pending || k in p.gaveUp)
              && (forall k :: k in end && k in p.core.pending && k !in p.stale ==> end[k] == p.core.pending[k].shown)
  {
    StartOk();
    ExecOk(START, steps);
    var p := Exec(START, steps);
    if !p.worker.off {
      forall k | k in RunAll(p.screen, Backlog(p))
        ensures k in p.core.pending || k in p.gaveUp
        ensures k in p.core.pending && k !in p.stale ==> RunAll(p.screen, Backlog(p))[k] == p.core.pending[k].shown
      {
        EndShows(p, k);
      }
    }
  }

  /** Once the app closed and everything drained, the screen is empty but for dismisses
      that were given up. */
  lemma ClosedAndDrainedIsEmpty(steps: seq<Step>)
    ensures var p := Exec(START, steps);
            p.core.closing && !p.worker.off && Backlog(p) == [] ==> p.screen.Keys <= p.gaveUp
  {
    StartOk();
    ExecOk(START, steps);
    OnlyPendingChatsStay(steps);
  }

  /** A dismiss is never lost: a chat that is on the screen but no longer pending has a
      dismiss as its newest command, or its dismiss was given up. */
  lemma NoDismissIsLost(steps: seq<Step>, k: NotifyKey)
    ensures var p := Exec(START, steps);
            !p.worker.off && k in p.screen && k !in p.core.pending
            ==> LastOf(Backlog(p), k) == Some(Dismiss(k)) || k in p.gaveUp
  {
    StartOk();
    ExecOk(START, steps);
    var p := Exec(START, steps);
    NewestIsLast(p, k);
    LastOfIsThere(Backlog(p), k);
    if !p.worker.off { assert ChatOk(p, k); }
  }

  /** The core of the pipeline is that of the calls: each step does to it what the call does. */
  lemma StepIsCall(p: Pipeline, step: Step)
    requires PipeOk(p)
    ensures var core, after := p.core, Apply(p, step).core;
            match step
            case Message(message, chat, ctx) => after == OnMessage(core, message, chat, ctx)
            case Focus(focused) => after == core.(windowFocused := focused)
            case DismissChats(keys) => after == DismissAll(core, keys)
            case HidePreviews(keys) => Lists(keys, core) ==> after == HideAll(core, keys)
            case SyncState(now, keys) => Lists(keys, core) ==> after == Sync(core, now, keys)
            case CloseApp(keys) => Lists(keys, core) ==> after == Close(core, keys)
            case Deliver => after == core.(queue := [])
            case _ => after == core
  {
    match step {
      case DismissChats(keys) => DismissesAllOk(p, keys);
      case HidePreviews(keys) => HidesAllOk(p, keys);
      case SyncState(now, keys) =>
        MarkedPipe(p, now);
        DismissesAllOk(p.(core := Marked(p.core, now)), SyncGone(p.core, now, keys));
      case CloseApp(keys) => DismissesAllOk(p, keys);
      case Deliver => DeliversOk(p);
      case _ =>
    }
  }

  lemma {:induction false} ClosingStays(p: Pipeline, steps: seq<Step>)
    requires PipeOk(p) && p.core.closing
    ensures PipeOk(Exec(p, steps)) && Exec(p, steps).core.closing
  {
    if steps != [] {
      var n := |steps| - 1;
      ClosingStays(p, steps[..n]);
      ApplyOk(Exec(p, steps[..n]), steps[n]);
      StepKeepsClosing(Exec(p, steps[..n]), steps[n]);
    }
  }

  lemma StepKeepsClosing(p: Pipeline, step: Step)
    requires PipeOk(p) && p.core.closing
    ensures Apply(p, step).core.closing
  {
    match step {
      case DismissChats(keys) =>
        DismissesAllOk(p, keys);
        DismissAllOk(p.core, keys);
      case HidePreviews(keys) =>
        HidesAllOk(p, keys);
        HideKeepsClosing(p.core, keys);
      case SyncState(now, keys) =>
        MarkedPipe(p, now);
        DismissesAllOk(p.(core := Marked(p.core, now)), SyncGone(p.core, now, keys));
        DismissAllOk(Marked(p.core, now), SyncGone(p.core, now, keys));
      case Deliver => DeliversOk(p);
      case _ =>
    }
  }

  lemma {:induction false} HideKeepsClosing(core: Core, keys: seq<NotifyKey>)
    ensures HideAll(core, keys).closing == core.closing
  {
    if keys != [] { HideKeepsClosing(core, keys[..|keys| - 1]); }
  }

  /** After close nothing notifies any more, whatever comes: no chat is pending and the core
      queues dismisses only. */
  lemma CloseIsFinal(before: seq<Step>, keys: seq<NotifyKey>, later: seq<Step>)
    requires Lists(keys, Exec(START, before).core)
    ensures var p := Exec(Exec(START, before + [CloseApp(keys)]), later);
            p.core.pending == map[] && forall c :: c in p.core.queue ==> c.Dismiss?
  {
    var p := Exec(START, before + [CloseApp(keys)]);
    assert (before + [CloseApp(keys)])[..|before|] == before;
    StartOk();
    ExecOk(START, before);
    ExecOk(START, before + [CloseApp(keys)]);
    StepIsCall(Exec(START, before), CloseApp(keys));
    ClosingStays(p, later);
    ClosingIsEmpty(Exec(p, later).core);
  }

  lemma ClosingIsEmpty(core: Core)
    requires CoreOk(core) && core.closing
    ensures core.pending == map[] && forall c :: c in core.queue ==> c.Dismiss?
  {
  }

  // ----- "Hide message text", end to end

  /** No step after "Hide message text" brings text back, but a message whose preview is on. */
  ghost predicate NoNewText(steps: seq<Step>) {
    forall s :: s in steps && s.Message? ==> !s.ctx.preview
  }

  lemma ApplyKeepsHidden(p: Pipeline, step: Step)
    requires PipeOk(p) && AllHidden(p.core) && (step.Message? ==> !step.ctx.preview)
    ensures AllHidden(Apply(p, step).core)
  {
    ApplyOk(p, step);
    match step {
      case Message(message, chat, ctx) => MessageKeepsHidden(p.core, message, chat, ctx);
      case DismissChats(keys) => DismissesAllOk(p, keys); DismissAllOk(p.core, keys);
      case HidePreviews(keys) =>
        if Lists(keys, p.core) { HidesAllOk(p, keys); HidePreviewsHides(p.core, keys); }
      case SyncState(now, keys) =>
        if Lists(keys, p.core) {
          SyncKeepsHidden(p, now, keys);
        }
      case CloseApp(keys) =>
        if Lists(keys, p.core) { DismissesAllOk(p, keys); DismissAllOk(p.core, keys); }
      case Deliver => DeliversOk(p);
      case _ =>
    }
  }

  lemma SyncKeepsHidden(p: Pipeline, now: StateNow, keys: seq<NotifyKey>)
    requires PipeOk(p) && AllHidden(p.core) && Lists(keys, p.core)
    ensures AllHidden(Apply(p, SyncState(now, keys)).core)
  {
    var marked := p.(core := Marked(p.core, now));
    MarkedPipe(p, now);
    DismissesAllOk(marked, SyncGone(p.core, now, keys));
    DismissAllOk(marked.core, SyncGone(p.core, now, keys));
  }

  lemma {:induction false} ExecKeepsHidden(p: Pipeline, steps: seq<Step>)
    requires PipeOk(p) && AllHidden(p.core) && NoNewText(steps)
    ensures AllHidden(Exec(p, steps).core)
  {
    if steps != [] {
      var n := |steps| - 1;
      assert steps[n] in steps && forall s :: s in steps[..n] ==> s in steps;
      ExecOk(p, steps[..n]);
      ExecKeepsHidden(p, steps[..n]);
      ApplyKeepsHidden(Exec(p, steps[..n]), steps[n]);
    }
  }

  /** After "Hide message text" every pending chat ends with hidden text on the screen,
      now and later, while new messages come with the preview off, where a show replaces the
      notification of its chat. The exceptions are the chats of `stale` and `gaveUp`. */
  lemma HiddenTextReachesTheScreen(before: seq<Step>, keys: seq<NotifyKey>, later: seq<Step>, k: NotifyKey)
    requires Lists(keys, Exec(START, before).core) && NoNewText(later)
    ensures var p := Exec(Exec(START, before + [HidePreviews(keys)]), later);
            var end := RunAll(p.screen, Backlog(p));
            !p.worker.off && k in end && k !in p.stale && k !in p.gaveUp ==> IsHidden(end[k])
  {
    var p := Exec(START, before);
    assert (before + [HidePreviews(keys)])[..|before|] == before;
    var hidden := Exec(START, before + [HidePreviews(keys)]);
    StartOk();
    ExecOk(START, before);
    HidesAllOk(p, keys);
    HidePreviewsHides(p.core, keys);
    ExecKeepsHidden(hidden, later);
    ExecConcat(START, before + [HidePreviews(keys)], later);
    OnlyPendingChatsStay(before + [HidePreviews(keys)] + later);
  }

  lemma {:induction false} ExecConcat(p: Pipeline, a: seq<Step>, b: seq<Step>)
    ensures Exec(p, a + b) == Exec(Exec(p, a), b)
  {
    if b == [] {
      assert a + b == a;
    } else {
      assert (a + b)[..|a + b| - 1] == a + b[..|b| - 1];
      ExecConcat(p, a, b[..|b| - 1]);
    }
  }
}
