/** The whole notification pipeline as one state machine: the core queue, the inbox,
    the running OS call, and an OS screen with one notification of each chat. A step is one call of the UI thread, one
    locked section of the worker, or one act of the OS. */
module Pipelines {
  import opened Wrappers
  import opened Commands
  import opened Notify
  import Inboxes
  import opened Workers

  /** `screen` is what the OS shows. `stale` are the chats whose newest text did not
      reach the OS: a limit dropped it, or the OS call failed. `gaveUp` are the chats
      whose last dismiss failed in its last try. */
  datatype Pipeline = Pipeline(
    core: Core, worker: Worker, screen: Screen, stale: set<NotifyKey>, gaveUp: set<NotifyKey>)

  ghost const START := Pipeline(INIT, IDLE, map[], {}, {})

  /** Every command that did not end yet, in the order it runs. */
  ghost function Backlog(p: Pipeline): Commands {
    (if p.worker.running.Some? then [p.worker.running.value] else []) + p.worker.inbox + p.core.queue
  }

  // ----- the steps

  ghost function Notifies(p: Pipeline, message: ChatMessage, chat: Option<Conversation>, ctx: Context): Pipeline {
    if p.core.closing || Decide(message, chat, ctx).Some? then p
    else Notifies1(p, NotificationFor(message, chat.value, ctx, CountOf(p.core, KeyOf(message)) + 1))
  }

  ghost function Notifies1(p: Pipeline, n: Notification): Pipeline {
    p.(core := Notified(p.core, n),
       stale := p.stale - {n.key} + Notify.LostByPush(WithoutContent(p.core.queue, n.key), Show(n)))
  }

  ghost function Dismisses1(p: Pipeline, key: NotifyKey): Pipeline {
    if key !in p.core.pending then p
    else
      p.(core := DismissOne(p.core, key),
         stale := p.stale - {key} + Notify.LostByPush(WithoutContent(p.core.queue, key), Dismiss(key)))
  }

  ghost function Hides1(p: Pipeline, key: NotifyKey): Pipeline {
    if key !in p.core.pending || IsHidden(p.core.pending[key].shown) then p
    else if FirstShow(p.core.queue, key).Some? then p.(core := HideOne(p.core, key))
    else
      p.(core := HideOne(p.core, key),
         stale := p.stale + Notify.LostByPush(WithoutUpdates(p.core.queue, key),
                                              Update(Hidden(p.core.pending[key].shown))))
  }

  ghost function DismissesAll(p: Pipeline, keys: seq<NotifyKey>): Pipeline {
    if keys == [] then p else Dismisses1(DismissesAll(p, keys[..|keys| - 1]), keys[|keys| - 1])
  }

  ghost function HidesAll(p: Pipeline, keys: seq<NotifyKey>): Pipeline {
    if keys == [] then p else Hides1(HidesAll(p, keys[..|keys| - 1]), keys[|keys| - 1])
  }

  /** The oldest command of the core queue goes to the inbox. */
  ghost function Delivers1(p: Pipeline): Pipeline
    requires p.core.queue != []
  {
    var rest := p.core.queue[1..];
    if p.worker.off then p.(core := p.core.(queue := rest))
    else
      var lost := Inboxes.LostByPush(p.worker.inbox, p.core.queue[0]);
      p.(core := p.core.(queue := rest),
         worker := p.worker.(inbox := Inboxes.Push(p.worker.inbox, p.core.queue[0])),
         stale := p.stale + set k | k in lost && LastOf(rest, k).None?)
  }

  /** The frontend takes the core's commands and sends them all. */
  ghost function Delivers(p: Pipeline): Pipeline
    decreases |p.core.queue|
  {
    if p.core.queue == [] then p else Delivers(Delivers1(p))
  }

  /** The OS call of the running command ends. A call that failed can still have
      done its work (`landed`). */
  ghost function CallEnds(p: Pipeline, ok: bool, landed: bool): Pipeline {
    if p.worker.running.None? then p
    else
      var c := p.worker.running.value;
      var worker := Finish(p.worker, ok);
      var waits := HasCommandOf(worker.inbox, c.Key()) || HasCommandOf(p.core.queue, c.Key());
      p.(worker := worker,
         screen := if ok || landed then RunOne(p.screen, c) else p.screen,
         stale := if c.IsContent() && !ok && !waits then p.stale + {c.Key()} else p.stale,
         gaveUp := if c.IsContent() then p.gaveUp
                   else if ok then p.gaveUp - {c.Key()}
                   else if Record(p.worker.policy, c, ok).retry.None? then p.gaveUp + {c.Key()}
                   else p.gaveUp)
  }

  datatype Step =
    | Message(message: ChatMessage, chat: Option<Conversation>, ctx: Context)
    | Focus(focused: bool)
    | DismissChats(keys: seq<NotifyKey>)
    | HidePreviews(keys: seq<NotifyKey>)
    | SyncState(now: StateNow, keys: seq<NotifyKey>)
    | CloseApp(keys: seq<NotifyKey>)
    | Deliver
    | TakeCommand
    | CallEnd(ok: bool, landed: bool)
    | Expire(key: NotifyKey)

  ghost function Apply(p: Pipeline, step: Step): Pipeline {
    match step
    case Message(message, chat, ctx) => Notifies(p, message, chat, ctx)
    case Focus(focused) => p.(core := p.core.(windowFocused := focused))
    case DismissChats(keys) => DismissesAll(p, keys)
    case HidePreviews(keys) => if Lists(keys, p.core) then HidesAll(p, keys) else p
    case SyncState(now, keys) =>
      if Lists(keys, p.core)
      then DismissesAll(p.(core := Marked(p.core, now)), SyncGone(p.core, now, keys)) else p
    case CloseApp(keys) =>
      if Lists(keys, p.core)
      then var q := DismissesAll(p, keys); q.(core := q.core.(closing := true)) else p
    case Deliver => Delivers(p)
    case TakeCommand => p.(worker := Take(p.worker))
    case CallEnd(ok, landed) => CallEnds(p, ok, landed)
    case Expire(key) => p.(screen := p.screen - {key})
  }

  ghost function Exec(p: Pipeline, steps: seq<Step>): Pipeline {
    if steps == [] then p else Apply(Exec(p, steps[..|steps| - 1]), steps[|steps| - 1])
  }

  // ----- the invariant

  ghost function Newest(p: Pipeline, k: NotifyKey): Option<NotifyCommand> {
    if LastOf(p.core.queue, k).Some? then LastOf(p.core.queue, k)
    else if LastOf(p.worker.inbox, k).Some? then LastOf(p.worker.inbox, k)
    else if p.worker.running.Some? && p.worker.running.value.Key() == k then p.worker.running
    else None
  }

  lemma NewestIsLast(p: Pipeline, k: NotifyKey)
    ensures LastOf(Backlog(p), k) == Newest(p, k)
  {
    var running := if p.worker.running.Some? then [p.worker.running.value] else [];
    LastOfConcat(running + p.worker.inbox, p.core.queue, k);
    LastOfConcat(running, p.worker.inbox, k);
  }

  /** A chat that is not pending is off the screen or has a dismiss as its newest
      command. A pending chat shows what `pending` says, now or after its newest
      command. */
  ghost predicate ChatOk(p: Pipeline, k: NotifyKey) {
    match Newest(p, k)
    case None =>
      if k in p.core.pending
      then k in p.stale || (k in p.screen ==> p.screen[k] == p.core.pending[k].shown)
      else k in p.screen ==> k in p.gaveUp
    case Some(Dismiss(_)) => k in p.core.pending ==> k in p.stale
    case Some(c) => k in p.core.pending && (k in p.stale || c.notification == p.core.pending[k].shown)
  }

  ghost predicate PipeOk(p: Pipeline) {
    && CoreOk(p.core)
    && WorkerOk(p.worker)
    && (!p.worker.off ==> forall k :: ChatOk(p, k))
  }

  // ----- what a push does to the newest command of a chat

  lemma CorePushLast(queue: Commands, c: NotifyCommand, k: NotifyKey)
    ensures k !in Notify.LostByPush(queue, c) || (c == Dismiss(k))
            || (k != c.Key() && LastOf(queue, k) == Some(Dismiss(k)))
            ==> LastOf(Notify.Push(queue, c), k) == if c.Key() == k then Some(c) else LastOf(queue, k)
    ensures k in Notify.LostByPush(queue, c) ==> exists q :: q in queue + [c] && q.IsContent() && q.Key() == k
  {
    LastOfConcat(queue, [c], k);
    TrimLastOf(queue + [c], QUEUE_LIMIT, k);
    TrimFacts(queue + [c], QUEUE_LIMIT);
  }

  lemma ReplaceLast(commands: Commands, at: nat, c: NotifyCommand, k: NotifyKey)
    requires ContentLast(commands) && at < |commands| && commands[at].IsContent() && c.Key() == commands[at].Key()
    ensures LastOf(commands[at := c], k) == if k == c.Key() then Some(c) else LastOf(commands, k)
  {
    var head, tail := commands[..at], commands[at + 1..];
    assert commands == head + ([commands[at]] + tail) && commands[at := c] == head + ([c] + tail);
    LastOfConcat(head, [c] + tail, k);
    LastOfConcat([c], tail, k);
    LastOfConcat(head, [commands[at]] + tail, k);
    LastOfConcat([commands[at]], tail, k);
    LastOfIsThere(tail, c.Key());
  }

  /** The newest command of a chat after its command joined the inbox. */
  ghost predicate SameOrder(a: Option<NotifyCommand>, c: NotifyCommand) {
    a.Some? && (if c.Dismiss? then a.value == c else a.value.IsContent() && a.value.notification == c.notification)
  }

  lemma MergedLast(inbox: Commands, c: NotifyCommand, k: NotifyKey)
    requires Inboxes.InboxOk(inbox)
    ensures k != c.Key() ==> LastOf(Inboxes.Merged(inbox, c), k) == LastOf(inbox, k)
    ensures SameOrder(LastOf(Inboxes.Merged(inbox, c), c.Key()), c)
  {
    var key := c.Key();
    WithoutContentLastOf(inbox, key, k);
    WithoutUpdatesLastOf(inbox, key, k);
    WithoutContentFacts(inbox, key);
    WithoutUpdatesFacts(inbox, key);
    var kept := if c.Show? then WithoutUpdates(inbox, key) else if c.Update? then inbox else WithoutContent(inbox, key);
    LastOfConcat(kept, [c], k);
    LastOfConcat(kept, [c], key);
    match c {
      case Show(_) =>
        if FirstShow(kept, key).Some? {
          ReplaceLast(kept, FirstShow(kept, key).value, c, k);
          ReplaceLast(kept, FirstShow(kept, key).value, c, key);
        }
      case Update(n) =>
        var slot := Inboxes.FirstContentOf(inbox, key);
        if slot.Some? {
          var put := if inbox[slot.value].Show? then Show(n) else c;
          ReplaceLast(inbox, slot.value, put, k);
          ReplaceLast(inbox, slot.value, put, key);
        }
      case Dismiss(_) => LastOfIsThere(kept, key);
    }
  }

  lemma InboxPushLast(inbox: Commands, c: NotifyCommand, k: NotifyKey)
    requires Inboxes.InboxOk(inbox)
    ensures k !in Inboxes.LostByPush(inbox, c) || LastOf(inbox, k) == Some(Dismiss(k))
            ==> k != c.Key() ==> LastOf(Inboxes.Push(inbox, c), k) == LastOf(inbox, k)
    ensures k == c.Key() && (k !in Inboxes.LostByPush(inbox, c) || c.Dismiss?)
            ==> SameOrder(LastOf(Inboxes.Push(inbox, c), k), c)
    ensures k in Inboxes.LostByPush(inbox, c) && k != c.Key() ==> LastOf(inbox, k).Some?
  {
    MergedLast(inbox, c, k);
    TrimLastOf(Inboxes.Merged(inbox, c), Inboxes.INBOX_LIMIT, k);
  }

  // ----- each step keeps the invariant

  lemma Notifies1Own(p: Pipeline, n: Notification)
    ensures ChatOk(Notifies1(p, n), n.key)
  {
    CorePushLast(WithoutContent(p.core.queue, n.key), Show(n), n.key);
  }

  /** A chat keeps its promise while the core changes another one: its newest queued
      command is the same, or a limit dropped it and it is stale. */
  lemma KeptChat(p: Pipeline, after: Pipeline, k: NotifyKey)
    requires ChatOk(p, k) && after.worker == p.worker && after.screen == p.screen && after.gaveUp == p.gaveUp
    requires k in p.core.pending <==> k in after.core.pending
    requires k in p.core.pending ==> after.core.pending[k] == p.core.pending[k]
    requires (k in p.core.pending && k in after.stale)
             || (LastOf(after.core.queue, k) == LastOf(p.core.queue, k) && k !in p.stale)
             || (LastOf(after.core.queue, k) == LastOf(p.core.queue, k) && k in after.stale)
    ensures ChatOk(after, k)
  {
  }

  /** What a push can drop is content of a pending chat. */
  lemma LostIsPending(core: Core, kept: Commands, c: NotifyCommand, k: NotifyKey)
    requires Agrees(core) && k != c.Key() && k in Notify.LostByPush(kept, c)
    requires forall q :: q in kept ==> q in core.queue
    ensures k in core.pending
  {
    CorePushLast(kept, c, k);
    var q :| q in kept + [c] && q.IsContent() && q.Key() == k;
    assert q in kept;
  }

  lemma Notifies1Other(p: Pipeline, n: Notification, k: NotifyKey)
    requires CoreOk(p.core) && ChatOk(p, k) && k != n.key
    ensures ChatOk(Notifies1(p, n), k)
  {
    var kept := WithoutContent(p.core.queue, n.key);
    WithoutContentFacts(p.core.queue, n.key);
    WithoutContentLastOf(p.core.queue, n.key, k);
    CorePushLast(kept, Show(n), k);
    if k in Notify.LostByPush(kept, Show(n)) { LostIsPending(p.core, kept, Show(n), k); }
    KeptChat(p, Notifies1(p, n), k);
  }

  lemma NotifiesChat(p: Pipeline, message: ChatMessage, chat: Option<Conversation>, ctx: Context, k: NotifyKey)
    requires CoreOk(p.core) && ChatOk(p, k)
    ensures ChatOk(Notifies(p, message, chat, ctx), k)
  {
    if !p.core.closing && Decide(message, chat, ctx).None? {
      var n := NotificationFor(message, chat.value, ctx, CountOf(p.core, KeyOf(message)) + 1);
      if k == n.key { Notifies1Own(p, n); } else { Notifies1Other(p, n, k); }
    }
  }

  lemma DismissesChat(p: Pipeline, key: NotifyKey, k: NotifyKey)
    requires CoreOk(p.core) && ChatOk(p, k)
    ensures ChatOk(Dismisses1(p, key), k)
  {
    if key in p.core.pending {
      WithoutContentFacts(p.core.queue, key);
      WithoutContentLastOf(p.core.queue, key, k);
      CorePushLast(WithoutContent(p.core.queue, key), Dismiss(key), k);
    }
  }

  lemma HidesUpdate(queue: Commands, n: Notification, k: NotifyKey)
    ensures k == n.key && k !in Notify.LostByPush(WithoutUpdates(queue, k), Update(n))
            ==> LastOf(Notify.Push(WithoutUpdates(queue, k), Update(n)), k) == Some(Update(n))
    ensures k != n.key
            && (k !in Notify.LostByPush(WithoutUpdates(queue, n.key), Update(n))
                || LastOf(queue, k) == Some(Dismiss(k)))
            ==> LastOf(Notify.Push(WithoutUpdates(queue, n.key), Update(n)), k) == LastOf(queue, k)
    ensures k in Notify.LostByPush(WithoutUpdates(queue, n.key), Update(n))
            ==> k == n.key || exists q :: q in queue && q.IsContent() && q.Key() == k
  {
    var kept := WithoutUpdates(queue, n.key);
    WithoutUpdatesLastOf(queue, n.key, k);
    CorePushLast(kept, Update(n), k);
    if k != n.key && k in Notify.LostByPush(kept, Update(n)) {
      WithoutUpdatesFacts(queue, n.key);
      var q :| q in kept + [Update(n)] && q.IsContent() && q.Key() == k;
      assert q in queue;
    }
  }

  lemma HidesChat(p: Pipeline, key: NotifyKey, k: NotifyKey)
    requires CoreOk(p.core) && ChatOk(p, k)
    ensures ChatOk(Hides1(p, key), k)
  {
    if key in p.core.pending && !IsHidden(p.core.pending[key].shown) {
      match FirstShow(p.core.queue, key) {
        case Some(at) => HidesShow(p, key, at, k);
        case None => HidesLate(p, key, k);
      }
    }
  }

  lemma HidesShow(p: Pipeline, key: NotifyKey, at: nat, k: NotifyKey)
    requires CoreOk(p.core) && ChatOk(p, k)
    requires key in p.core.pending && !IsHidden(p.core.pending[key].shown) && FirstShow(p.core.queue, key) == Some(at)
    ensures ChatOk(Hides1(p, key), k)
  {
    ReplaceLast(p.core.queue, at, Show(Hidden(p.core.pending[key].shown)), k);
  }

  lemma HidesLate(p: Pipeline, key: NotifyKey, k: NotifyKey)
    requires CoreOk(p.core) && ChatOk(p, k)
    requires key in p.core.pending && !IsHidden(p.core.pending[key].shown) && FirstShow(p.core.queue, key).None?
    ensures ChatOk(Hides1(p, key), k)
  {
    if k == key { HidesLateOwn(p, key); } else { HidesLateOther(p, key, k); }
  }

  lemma HidesLateOwn(p: Pipeline, key: NotifyKey)
    requires key in p.core.pending && p.core.pending[key].shown.key == key
    requires !IsHidden(p.core.pending[key].shown) && FirstShow(p.core.queue, key).None?
    ensures ChatOk(Hides1(p, key), key)
  {
    HidesUpdate(p.core.queue, Hidden(p.core.pending[key].shown), key);
    assert key !in Hides1(p, key).stale
           ==> LastOf(Hides1(p, key).core.queue, key) == Some(Update(Hidden(p.core.pending[key].shown)));
  }

  lemma HidesLateOther(p: Pipeline, key: NotifyKey, k: NotifyKey)
    requires CoreOk(p.core) && ChatOk(p, k) && k != key
    requires key in p.core.pending && !IsHidden(p.core.pending[key].shown) && FirstShow(p.core.queue, key).None?
    ensures ChatOk(Hides1(p, key), k)
  {
    var hidden := Hidden(p.core.pending[key].shown);
    var kept := WithoutUpdates(p.core.queue, key);
    HidesUpdate(p.core.queue, hidden, k);
    WithoutUpdatesFacts(p.core.queue, key);
    if k in Notify.LostByPush(kept, Update(hidden)) { LostIsPending(p.core, kept, Update(hidden), k); }
    KeptChat(p, Hides1(p, key), k);
  }

  lemma DeliversOther(p: Pipeline, k: NotifyKey)
    requires ChatOk(p, k) && CoreOk(p.core) && Inboxes.InboxOk(p.worker.inbox)
    requires !p.worker.off && p.core.queue != [] && p.core.queue[0].Key() != k
    ensures ChatOk(Delivers1(p), k)
  {
    var c, rest := p.core.queue[0], p.core.queue[1..];
    assert p.core.queue == [c] + rest;
    LastOfConcat([c], rest, k);
    LastOfIsThere(p.worker.inbox, k);
    InboxPushLast(p.worker.inbox, c, k);
  }

  lemma DeliversOwn(p: Pipeline)
    requires p.core.queue != [] && ChatOk(p, p.core.queue[0].Key())
    requires CoreOk(p.core) && Inboxes.InboxOk(p.worker.inbox) && !p.worker.off
    ensures ChatOk(Delivers1(p), p.core.queue[0].Key())
  {
    var c, rest := p.core.queue[0], p.core.queue[1..];
    assert p.core.queue == [c] + rest;
    LastOfConcat([c], rest, c.Key());
    assert c in p.core.queue;
    InboxPushLast(p.worker.inbox, c, c.Key());
  }

  lemma TakeChat(p: Pipeline, k: NotifyKey)
    requires ChatOk(p, k)
    ensures ChatOk(p.(worker := Take(p.worker)), k)
  {
    if p.worker.running.None? && p.worker.inbox != [] {
      var c, rest := p.worker.inbox[0], p.worker.inbox[1..];
      assert p.worker.inbox == [c] + rest;
      LastOfConcat([c], rest, k);
    }
  }

  /** A failed dismiss that goes back to the inbox stays the newest command of its
      chat, unless a newer one waits in the core. */
  lemma CallEndsRetried(p: Pipeline, landed: bool)
    requires PipeOk(p) && !p.worker.off && p.worker.running.Some?
    requires Record(p.worker.policy, p.worker.running.value, false).retry.Some?
    requires !CallEnds(p, false, landed).worker.off
    ensures ChatOk(CallEnds(p, false, landed), p.worker.running.value.Key())
  {
    var k := p.worker.running.value.Key();
    assert ChatOk(p, k);
    LastOfIsThere(p.worker.inbox, k);
    LastOfConcat(p.worker.inbox, [Dismiss(k)], k);
  }

  lemma CallEndsOwn(p: Pipeline, ok: bool, landed: bool)
    requires PipeOk(p) && !p.worker.off && p.worker.running.Some?
    requires Record(p.worker.policy, p.worker.running.value, ok).retry.None?
    requires !CallEnds(p, ok, landed).worker.off
    ensures ChatOk(CallEnds(p, ok, landed), p.worker.running.value.Key())
  {
    var k := p.worker.running.value.Key();
    assert ChatOk(p, k);
    assert Finish(p.worker, ok).inbox == p.worker.inbox;
    LastOfIsThere(p.worker.inbox, k);
    LastOfIsThere(p.core.queue, k);
  }

  lemma CallEndsChat(p: Pipeline, ok: bool, landed: bool, k: NotifyKey)
    requires PipeOk(p) && !p.worker.off && p.worker.running.Some?
    requires !CallEnds(p, ok, landed).worker.off
    ensures ChatOk(CallEnds(p, ok, landed), k)
  {
    assert ChatOk(p, k);
    if k == p.worker.running.value.Key() {
      if Record(p.worker.policy, p.worker.running.value, ok).retry.Some? {
        CallEndsRetried(p, landed);
      } else {
        CallEndsOwn(p, ok, landed);
      }
    }
  }

  lemma {:induction false} DismissesAllOk(p: Pipeline, keys: seq<NotifyKey>)
    requires PipeOk(p)
    ensures PipeOk(DismissesAll(p, keys))
    ensures DismissesAll(p, keys).core == DismissAll(p.core, keys)
    ensures DismissesAll(p, keys).worker == p.worker
  {
    if keys != [] {
      var n := |keys| - 1;
      var before := DismissesAll(p, keys[..n]);
      DismissesAllOk(p, keys[..n]);
      DismissOneOk(before.core, keys[n]);
      if !p.worker.off {
        forall k ensures ChatOk(DismissesAll(p, keys), k) {
          assert ChatOk(before, k);
          DismissesChat(before, keys[n], k);
        }
      }
    }
  }

  lemma {:induction false} HidesAllOk(p: Pipeline, keys: seq<NotifyKey>)
    requires PipeOk(p)
    ensures PipeOk(HidesAll(p, keys))
    ensures HidesAll(p, keys).core == HideAll(p.core, keys)
    ensures HidesAll(p, keys).worker == p.worker && HidesAll(p, keys).screen == p.screen
  {
    if keys != [] {
      var n := |keys| - 1;
      var before := HidesAll(p, keys[..n]);
      HidesAllOk(p, keys[..n]);
      HideOneOk(before.core, keys[n]);
      if !p.worker.off {
        forall k ensures ChatOk(HidesAll(p, keys), k) { assert ChatOk(before, k); HidesChat(before, keys[n], k); }
      }
    }
  }

  lemma TailOk(core: Core)
    requires CoreOk(core) && core.queue != []
    ensures CoreOk(core.(queue := core.queue[1..]))
  {
  }

  lemma Delivers1Worker(p: Pipeline)
    requires p.core.queue != []
    ensures Delivers1(p).worker == Send(p.worker, [p.core.queue[0]])
    ensures Delivers1(p).core == p.core.(queue := p.core.queue[1..])
  {
    assert [p.core.queue[0]][..0] == [];
    assert Inboxes.PushAll(p.worker.inbox, []) == p.worker.inbox;
  }

  lemma Delivers1Ok(p: Pipeline)
    requires PipeOk(p) && p.core.queue != []
    ensures PipeOk(Delivers1(p))
  {
    Delivers1Worker(p);
    TailOk(p.core);
    SendOk(p.worker, [p.core.queue[0]]);
    if !p.worker.off {
      forall k ensures ChatOk(Delivers1(p), k) {
        assert ChatOk(p, k);
        if k == p.core.queue[0].Key() { DeliversOwn(p); } else { DeliversOther(p, k); }
      }
    }
  }

  lemma {:induction false} DeliversOk(p: Pipeline)
    requires PipeOk(p)
    ensures PipeOk(Delivers(p))
    ensures Delivers(p).core == p.core.(queue := [])
    ensures Delivers(p).worker == Send(p.worker, p.core.queue)
    decreases |p.core.queue|
  {
    if p.core.queue != [] {
      Delivers1Ok(p);
      Delivers1Worker(p);
      PushAllStep(p.worker.inbox, p.core.queue);
      DeliversOk(Delivers1(p));
    }
  }

  lemma {:induction false} PushAllStep(inbox: Commands, commands: Commands)
    requires commands != []
    ensures Inboxes.PushAll(inbox, commands) == Inboxes.PushAll(Inboxes.Push(inbox, commands[0]), commands[1..])
  {
    var n := |commands| - 1;
    if n == 0 {
      assert commands[..0] == [];
    } else {
      PushAllStep(inbox, commands[..n]);
      assert commands[..n][1..] == commands[1..][..n - 1];
    }
  }

  lemma CallEndsOk(p: Pipeline, ok: bool, landed: bool)
    requires PipeOk(p)
    ensures PipeOk(CallEnds(p, ok, landed))
  {
    if p.worker.running.Some? {
      FinishOk(p.worker, ok);
      if !CallEnds(p, ok, landed).worker.off {
        forall k ensures ChatOk(CallEnds(p, ok, landed), k) { CallEndsChat(p, ok, landed, k); }
      }
    }
  }

  lemma MarkedPipe(p: Pipeline, now: StateNow)
    requires PipeOk(p)
    ensures PipeOk(p.(core := Marked(p.core, now)))
  {
    MarkedOk(p.core, now);
    if !p.worker.off {
      forall k ensures ChatOk(p.(core := Marked(p.core, now)), k) { assert ChatOk(p, k); }
    }
  }

  lemma SyncOk(p: Pipeline, now: StateNow, keys: seq<NotifyKey>)
    requires PipeOk(p)
    ensures PipeOk(Apply(p, SyncState(now, keys)))
  {
    MarkedPipe(p, now);
    DismissesAllOk(p.(core := Marked(p.core, now)), SyncGone(p.core, now, keys));
  }

  lemma CloseAppOk(p: Pipeline, keys: seq<NotifyKey>)
    requires PipeOk(p)
    ensures PipeOk(Apply(p, CloseApp(keys)))
  {
    if Lists(keys, p.core) {
      DismissesAllOk(p, keys);
      CloseOk(p.core, keys);
      if !p.worker.off {
        forall k ensures ChatOk(Apply(p, CloseApp(keys)), k) { assert ChatOk(DismissesAll(p, keys), k); }
      }
    }
  }

  lemma MessageOk(p: Pipeline, message: ChatMessage, chat: Option<Conversation>, ctx: Context)
    requires PipeOk(p)
    ensures PipeOk(Notifies(p, message, chat, ctx))
  {
    OnMessageOk(p.core, message, chat, ctx);
    if !p.worker.off {
      forall k ensures ChatOk(Notifies(p, message, chat, ctx), k) {
        assert ChatOk(p, k);
        NotifiesChat(p, message, chat, ctx, k);
      }
    }
  }

  lemma TakeCommandOk(p: Pipeline)
    requires PipeOk(p)
    ensures PipeOk(Apply(p, TakeCommand))
  {
    TakeOk(p.worker);
    if !p.worker.off {
      forall k ensures ChatOk(Apply(p, TakeCommand), k) { assert ChatOk(p, k); TakeChat(p, k); }
    }
  }

  /** Focus and expiry touch neither a queue nor a pending chat. */
  lemma QuietOk(p: Pipeline, step: Step)
    requires PipeOk(p) && (step.Focus? || step.Expire?)
    ensures PipeOk(Apply(p, step))
  {
    if !p.worker.off {
      forall k ensures ChatOk(Apply(p, step), k) { assert ChatOk(p, k); }
    }
  }

  lemma ApplyOk(p: Pipeline, step: Step)
    requires PipeOk(p)
    ensures PipeOk(Apply(p, step))
  {
    match step {
      case Message(message, chat, ctx) => MessageOk(p, message, chat, ctx);
      case Focus(_) => QuietOk(p, step);
      case DismissChats(keys) => DismissesAllOk(p, keys);
      case HidePreviews(keys) => HidesAllOk(p, keys);
      case SyncState(now, keys) => SyncOk(p, now, keys);
      case CloseApp(keys) => CloseAppOk(p, keys);
      case Deliver => DeliversOk(p);
      case TakeCommand => TakeCommandOk(p);
      case CallEnd(ok, landed) => CallEndsOk(p, ok, landed);
      case Expire(_) => QuietOk(p, step);
    }
  }

  lemma {:induction false} ExecOk(p: Pipeline, steps: seq<Step>)
    requires PipeOk(p)
    ensures PipeOk(Exec(p, steps))
  {
    if steps != [] {
      ExecOk(p, steps[..|steps| - 1]);
      ApplyOk(Exec(p, steps[..|steps| - 1]), steps[|steps| - 1]);
    }
  }

  lemma StartOk()
    ensures PipeOk(START)
  {
  }
}
