/** When a sync takes a notification away, over every run of the core
    (crates/thinwire-core/src/notify.rs, `sync`). */
module SyncRuns {
  import opened Wrappers
  import opened Accounts
  import opened Commands
  import opened Notify
  import opened MessageRules
  import opened Pipelines

  /** Step `i` is a message that notifies for the chat. */
  ghost predicate Tells(steps: seq<Step>, i: nat, k: NotifyKey)
    requires i < |steps|
  {
    && steps[i].Message? && !Exec(START, steps[..i]).core.closing
    && BreaksNone(steps[i].message, steps[i].chat, steps[i].ctx)
    && k == NotifyKey(steps[i].message.protocol, steps[i].message.conversationId, steps[i].message.topic)
  }

  /** Step `i` is a sync that lists the chat with unread messages. */
  ghost predicate ListsUnread(steps: seq<Step>, i: nat, k: NotifyKey)
    requires i < |steps|
  {
    && steps[i].SyncState? && Lists(steps[i].keys, Exec(START, steps[..i]).core)
    && k in steps[i].now.unread && steps[i].now.unread[k] != 0
  }

  /** Since the last message that notified for the chat, a sync listed it with unread messages. */
  ghost predicate UnreadSince(steps: seq<Step>, k: NotifyKey) {
    exists i :: 0 <= i < |steps| && ListsUnread(steps, i, k) && NoneTells(steps, i, k)
  }

  ghost predicate NoneTells(steps: seq<Step>, i: nat, k: NotifyKey) {
    forall j :: i < j < |steps| ==> !Tells(steps, j, k)
  }

  lemma SameStep(steps: seq<Step>, step: Step, i: nat, k: NotifyKey)
    requires i < |steps|
    ensures Tells(steps + [step], i, k) == Tells(steps, i, k)
    ensures ListsUnread(steps + [step], i, k) == ListsUnread(steps, i, k)
  {
    assert (steps + [step])[..i] == steps[..i];
  }

  lemma UnreadNext(steps: seq<Step>, step: Step, k: NotifyKey)
    ensures var all, n := steps + [step], |steps|;
            UnreadSince(all, k) <==> ListsUnread(all, n, k) || (UnreadSince(steps, k) && !Tells(all, n, k))
  {
    var all, n := steps + [step], |steps|;
    forall i | 0 <= i < n
      ensures Tells(all, i, k) == Tells(steps, i, k) && ListsUnread(all, i, k) == ListsUnread(steps, i, k)
    {
      SameStep(steps, step, i, k);
    }
    if UnreadSince(steps, k) && !Tells(all, n, k) {
      var i :| 0 <= i < n && ListsUnread(steps, i, k) && NoneTells(steps, i, k);
      assert ListsUnread(all, i, k) && NoneTells(all, i, k);
    }
    if ListsUnread(all, n, k) { assert NoneTells(all, n, k); }
    if UnreadSince(all, k) {
      var i :| 0 <= i < |all| && ListsUnread(all, i, k) && NoneTells(all, i, k);
      if i < n { assert ListsUnread(steps, i, k) && NoneTells(steps, i, k); }
    }
  }

  // ----- what the core noted

  ghost predicate Noted(core: Core, k: NotifyKey, unread: bool) {
    k in core.pending ==> core.pending[k].sawUnread == unread
  }

  lemma DismissKeepsNotes(p: Pipeline, keys: seq<NotifyKey>, k: NotifyKey, unread: bool)
    requires PipeOk(p) && Noted(p.core, k, unread)
    ensures Noted(DismissesAll(p, keys).core, k, unread)
  {
    DismissesAllOk(p, keys);
    DismissAllOk(p.core, keys);
  }

  lemma MessageNotes(steps: seq<Step>, step: Step, k: NotifyKey, unread: bool)
    requires var p := Exec(START, steps); PipeOk(p) && Noted(p.core, k, unread)
    requires step.Message?
    ensures Noted(Apply(Exec(START, steps), step).core, k, unread && !Tells(steps + [step], |steps|, k))
  {
    var p := Exec(START, steps);
    assert (steps + [step])[..|steps|] == steps;
    NotifiesIs(p, step.message, step.chat, step.ctx);
    OnMessageNotes(p.core, step.message, step.chat, step.ctx, k, unread);
  }

  lemma NotifiesIs(p: Pipeline, message: ChatMessage, chat: Option<Conversation>, ctx: Context)
    ensures Notifies(p, message, chat, ctx).core == OnMessage(p.core, message, chat, ctx)
  {
  }

  lemma OnMessageNotes(core: Core, message: ChatMessage, chat: Option<Conversation>, ctx: Context, k: NotifyKey,
                       unread: bool)
    requires CoreOk(core) && Noted(core, k, unread)
    ensures var key := NotifyKey(message.protocol, message.conversationId, message.topic);
            Noted(OnMessage(core, message, chat, ctx), k,
                  unread && !(!core.closing && BreaksNone(message, chat, ctx) && k == key))
  {
    NotifiesExactly(core, message, chat, ctx);
    var after := OnMessage(core, message, chat, ctx);
    var key := NotifyKey(message.protocol, message.conversationId, message.topic);
    if k != key && after != core {
      assert k in after.pending <==> k in after.pending - {key};
      assert k in core.pending <==> k in core.pending - {key};
      assert k in after.pending ==> after.pending[k] == (after.pending - {key})[k] == (core.pending - {key})[k];
    }
  }

  lemma SyncNotes(steps: seq<Step>, step: Step, k: NotifyKey, unread: bool)
    requires var p := Exec(START, steps); PipeOk(p) && Noted(p.core, k, unread)
    requires step.SyncState?
    ensures Noted(Apply(Exec(START, steps), step).core, k, unread || ListsUnread(steps + [step], |steps|, k))
  {
    var p := Exec(START, steps);
    assert (steps + [step])[..|steps|] == steps;
    if Lists(step.keys, p.core) { SyncStepNotes(p, step.now, step.keys, k, unread); }
  }

  lemma SyncStepNotes(p: Pipeline, now: StateNow, keys: seq<NotifyKey>, k: NotifyKey, unread: bool)
    requires PipeOk(p) && Noted(p.core, k, unread) && Lists(keys, p.core)
    ensures Noted(Apply(p, SyncState(now, keys)).core, k, unread || (k in now.unread && now.unread[k] != 0))
  {
    MarkedPipe(p, now);
    MarkNotes(p.core, now, k, unread);
    DismissKeepsNotes(p.(core := Marked(p.core, now)), SyncGone(p.core, now, keys), k,
                      unread || (k in now.unread && now.unread[k] != 0));
  }

  lemma MarkNotes(core: Core, now: StateNow, k: NotifyKey, unread: bool)
    requires Noted(core, k, unread)
    ensures Noted(Marked(core, now), k, unread || (k in now.unread && now.unread[k] != 0))
  {
  }

  lemma StepNotes(steps: seq<Step>, step: Step, k: NotifyKey)
    requires PipeOk(Exec(START, steps)) && Noted(Exec(START, steps).core, k, UnreadSince(steps, k))
    ensures Noted(Apply(Exec(START, steps), step).core, k, UnreadSince(steps + [step], k))
  {
    var p, unread := Exec(START, steps), UnreadSince(steps, k);
    UnreadNext(steps, step, k);
    match step {
      case Message(_, _, _) => MessageNotes(steps, step, k, unread);
      case DismissChats(keys) => DismissKeepsNotes(p, keys, k, unread);
      case HidePreviews(keys) =>
        HidesAllOk(p, keys);
        HideKeepsRest(p.core, keys, k);
      case SyncState(_, _) => SyncNotes(steps, step, k, unread);
      case CloseApp(keys) => DismissKeepsNotes(p, keys, k, unread);
      case Deliver => DeliversOk(p);
      case _ =>
    }
  }

  lemma {:induction false} RunNotes(steps: seq<Step>, k: NotifyKey)
    ensures Noted(Exec(START, steps).core, k, UnreadSince(steps, k))
  {
    if steps != [] {
      var n := |steps| - 1;
      assert steps == steps[..n] + [steps[n]];
      RunNotes(steps[..n], k);
      StartOk();
      ExecOk(START, steps[..n]);
      StepNotes(steps[..n], steps[n], k);
    }
  }

  /** In every run, at every sync: a pending chat stays exactly when the sync lists it, its
      account is linked, the user does not look at it, and it has unread messages or no sync
      since its last message listed it with any. */
  lemma SyncTakesExactly(steps: seq<Step>, now: StateNow, keys: seq<NotifyKey>, k: NotifyKey)
    requires Lists(keys, Exec(START, steps).core) && k in Exec(START, steps).core.pending
    ensures k in Exec(START, steps + [SyncState(now, keys)]).core.pending <==>
              && k in now.unread && k.protocol in now.sessions
              && !(Exec(START, steps).core.windowFocused && now.viewed == Some(k))
              && (now.unread[k] > 0 || !UnreadSince(steps, k))
  {
    var p := Exec(START, steps);
    assert (steps + [SyncState(now, keys)])[..|steps|] == steps;
    StartOk();
    ExecOk(START, steps);
    RunNotes(steps, k);
    MarkedPipe(p, now);
    SyncExact(p.core, now, keys);
    DismissesAllOk(p.(core := Marked(p.core, now)), SyncGone(p.core, now, keys));
  }

  /** So a chat that was read on another device goes: listed with unread messages after its
      last message, and later with none. */
  lemma ReadElsewhereGoes(steps: seq<Step>, now: StateNow, keys: seq<NotifyKey>, k: NotifyKey, i: nat)
    requires i < |steps| && ListsUnread(steps, i, k) && NoneTells(steps, i, k)
    requires Lists(keys, Exec(START, steps).core) && k in now.unread && now.unread[k] == 0
    ensures k !in Exec(START, steps + [SyncState(now, keys)]).core.pending
  {
    if k in Exec(START, steps).core.pending {
      SyncTakesExactly(steps, now, keys, k);
    } else {
      SyncAddsNone(steps, now, keys);
    }
  }

  lemma SyncAddsNone(steps: seq<Step>, now: StateNow, keys: seq<NotifyKey>)
    requires Lists(keys, Exec(START, steps).core)
    ensures Exec(START, steps + [SyncState(now, keys)]).core.pending.Keys <= Exec(START, steps).core.pending.Keys
  {
    var p := Exec(START, steps);
    assert (steps + [SyncState(now, keys)])[..|steps|] == steps;
    StartOk();
    ExecOk(START, steps);
    MarkedPipe(p, now);
    SyncExact(p.core, now, keys);
    DismissesAllOk(p.(core := Marked(p.core, now)), SyncGone(p.core, now, keys));
  }
}
