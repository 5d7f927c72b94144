/** Where the bounded core queue of notify.rs does not keep its promises: runs that reach
    such states, and the exact condition under which the queue stays within its limit. */
module QueueLimits {
  import opened Wrappers
  import opened Accounts
  import opened Commands
  import opened QueueCounts
  import opened Notify
  import Inboxes
  import opened InboxLimits
  import opened Workers
  import opened Pipelines
  import opened PipelinePromises
  import opened HideLimits

  // ----- when the queue stays within its limit

  /** The core queue is within its limit exactly when its dismisses are. */
  lemma QueueWithinLimitExactly(core: Core)
    requires CoreOk(core)
    ensures |core.queue| <= QUEUE_LIMIT <==> Dismisses(core.queue) <= QUEUE_LIMIT
  {
    DismissesBound(core.queue);
    if |core.queue| > QUEUE_LIMIT { DismissesOnly(core.queue); }
  }

  /** The same for one push, onto any queue. */
  lemma PushWithinLimitExactly(queue: Commands, c: NotifyCommand)
    ensures Dismisses(Push(queue, c)) == Dismisses(queue) + (if c.Dismiss? then 1 else 0)
    ensures |Push(queue, c)| <= QUEUE_LIMIT <==> Dismisses(queue) + (if c.Dismiss? then 1 else 0) <= QUEUE_LIMIT
  {
    KeysAppend(queue, c);
    Inboxes.TrimDismisses(queue + [c], QUEUE_LIMIT);
    TrimFacts(queue + [c], QUEUE_LIMIT);
    DismissesBound(Push(queue, c));
    if |Push(queue, c)| > QUEUE_LIMIT { DismissesOnly(Push(queue, c)); }
  }

  lemma {:induction false} DismissAllCounts(core: Core, keys: seq<NotifyKey>)
    ensures DismissAll(core, keys).pending.Keys <= core.pending.Keys
    ensures Dismisses(DismissAll(core, keys).queue)
            == Dismisses(core.queue) + |core.pending.Keys - DismissAll(core, keys).pending.Keys|
  {
    if keys != [] {
      var n := |keys| - 1;
      var before, key := DismissAll(core, keys[..n]), keys[n];
      DismissAllCounts(core, keys[..n]);
      if key in before.pending {
        Inboxes.DismissesWithout(before.queue, key);
        PushWithinLimitExactly(WithoutContent(before.queue, key), Dismiss(key));
        OneLess(core.pending.Keys, before.pending.Keys, key);
      }
    }
  }

  lemma OneLess(all: set<NotifyKey>, left: set<NotifyKey>, key: NotifyKey)
    requires key in left && left <= all
    ensures |all - (left - {key})| == |all - left| + 1
  {
    assert all - (left - {key}) == all - left + {key};
  }

  /** From `before` to `after` each chat that left got one dismiss. */
  ghost predicate Counted(before: Core, after: Core) {
    Dismisses(after.queue) == Dismisses(before.queue) + |before.pending.Keys - after.pending.Keys|
  }

  lemma MessageCounts(p: Pipeline, message: ChatMessage, chat: Option<Conversation>, ctx: Context)
    ensures Counted(p.core, Notifies(p, message, chat, ctx).core)
  {
    var after := Notifies(p, message, chat, ctx);
    if !p.core.closing && Decide(message, chat, ctx).None? {
      var n := NotificationFor(message, chat.value, ctx, CountOf(p.core, KeyOf(message)) + 1);
      Inboxes.DismissesWithout(p.core.queue, n.key);
      PushWithinLimitExactly(WithoutContent(p.core.queue, n.key), Show(n));
    }
    assert p.core.pending.Keys - after.core.pending.Keys == {};
  }

  lemma HideCounts(p: Pipeline, keys: seq<NotifyKey>)
    requires PipeOk(p) && Lists(keys, p.core)
    ensures Counted(p.core, HidesAll(p, keys).core)
  {
    HidesAllOk(p, keys);
    ListedKeys(p.core, keys);
    HidAll(p.core, keys);
    assert p.core.pending.Keys - HideAll(p.core, keys).pending.Keys == {};
  }

  lemma {:induction false} DismissesPipe(p: Pipeline, keys: seq<NotifyKey>)
    ensures DismissesAll(p, keys).core == DismissAll(p.core, keys)
    ensures Counted(p.core, DismissesAll(p, keys).core)
  {
    DismissAllCounts(p.core, keys);
    if keys != [] { DismissesPipe(p, keys[..|keys| - 1]); }
  }

  lemma SyncCounts(p: Pipeline, now: StateNow, keys: seq<NotifyKey>)
    ensures Counted(p.core, Apply(p, SyncState(now, keys)).core)
  {
    var marked := p.(core := Marked(p.core, now));
    DismissesPipe(marked, SyncGone(p.core, now, keys));
    assert marked.core.pending.Keys == p.core.pending.Keys;
    SameCore(p.core);
  }

  lemma SameCore(core: Core)
    ensures Counted(core, core)
  {
    assert core.pending.Keys - core.pending.Keys == {};
  }

  lemma StepCounts(p: Pipeline, step: Step)
    requires PipeOk(p) && !step.Deliver?
    ensures Counted(p.core, Apply(p, step).core)
  {
    SameCore(p.core);
    match step {
      case Message(message, chat, ctx) => MessageCounts(p, message, chat, ctx);
      case DismissChats(keys) => DismissesPipe(p, keys);
      case HidePreviews(keys) => if Lists(keys, p.core) { HideCounts(p, keys); }
      case SyncState(now, keys) => SyncCounts(p, now, keys);
      case CloseApp(keys) => DismissesPipe(p, keys);
      case _ =>
    }
  }

  /** The chats that stop being pending in one step: each is dismissed once. */
  ghost function Leaving(p: Pipeline, step: Step): set<NotifyKey> {
    p.core.pending.Keys - Apply(p, step).core.pending.Keys
  }

  /** How many times a chat stopped being pending since the frontend last took the commands. */
  ghost function LeftSinceTake(p: Pipeline, steps: seq<Step>): nat {
    if steps == [] then 0
    else
      var n := |steps| - 1;
      if steps[n].Deliver? then 0 else LeftSinceTake(p, steps[..n]) + |Leaving(Exec(p, steps[..n]), steps[n])|
  }

  lemma {:induction false} QueueDismisses(steps: seq<Step>)
    ensures Dismisses(Exec(START, steps).core.queue) == LeftSinceTake(START, steps)
  {
    if steps != [] {
      var n := |steps| - 1;
      StartOk();
      ExecOk(START, steps[..n]);
      QueueDismisses(steps[..n]);
      if steps[n].Deliver? {
        DeliversOk(Exec(START, steps[..n]));
      } else {
        StepCounts(Exec(START, steps[..n]), steps[n]);
      }
    }
  }

  /** Every run: the core queue is within its limit exactly when at most that many chats
      left since the frontend last took the commands. */
  lemma QueueBoundExactly(steps: seq<Step>)
    ensures |Exec(START, steps).core.queue| <= QUEUE_LIMIT <==> LeftSinceTake(START, steps) <= QUEUE_LIMIT
  {
    StartOk();
    ExecOk(START, steps);
    QueueDismisses(steps);
    QueueWithinLimitExactly(Exec(START, steps).core);
  }

  // ----- one iteration of "Hide message text"

  /** A queue that already holds as many dismisses as the limit keeps no content. */
  lemma FullOfDismisses(queue: Commands, c: NotifyCommand)
    requires c.IsContent() && Dismisses(queue) >= QUEUE_LIMIT
    ensures forall q :: q in Push(queue, c) ==> q.Dismiss?
  {
    var pushed := Push(queue, c);
    TrimFacts(queue + [c], QUEUE_LIMIT);
    if |pushed| <= QUEUE_LIMIT {
      Inboxes.TrimDismisses(queue + [c], QUEUE_LIMIT);
      DismissesConcat(queue, [c]);
      assert Dismisses([c]) == 0 by { assert [c][..0] == []; }
      AllDismisses(pushed);
    }
  }

  lemma {:induction false} AllDismisses(commands: Commands)
    requires Dismisses(commands) >= |commands|
    ensures forall q :: q in commands ==> q.Dismiss?
  {
    if commands != [] {
      var n := |commands| - 1;
      assert commands == commands[..n] + [commands[n]];
      DismissesBound(commands[..n]);
      AllDismisses(commands[..n]);
    }
  }

  lemma NoContentOf(queue: Commands, key: NotifyKey)
    requires LastOf(queue, key).None?
    ensures WithoutUpdates(queue, key) == queue
    ensures forall c :: c in queue ==> c.Key() != key
  {
    LastOfIsThere(queue, key);
    NoUpdates(queue, key);
  }

  /** What runs before the core queue leaves the pending text of the chat on the screen. */
  lemma ShownBeforeQueue(p: Pipeline, key: NotifyKey)
    requires PipeOk(p) && !p.worker.off
    requires key in p.core.pending && key !in p.stale
    requires LastOf(p.core.queue, key).None? && key in RunAll(p.screen, Backlog(p))
    ensures key in RunAll(p.screen, Early(p)) && RunAll(p.screen, Early(p))[key] == p.core.pending[key].shown
  {
    RunAllConcat(p.screen, Early(p), p.core.queue);
    ScreenAfter(RunAll(p.screen, Early(p)), p.core.queue, key);
    assert ChatOk(p, key);
    NewestIsLast(p, key);
    ScreenAfter(p.screen, Backlog(p), key);
  }

  ghost function Early(p: Pipeline): Commands {
    (if p.worker.running.Some? then [p.worker.running.value] else []) + p.worker.inbox
  }

  lemma UpdateReaches(screen: Screen, queue: Commands, key: NotifyKey, n: Notification)
    requires key in screen && n.key == key && LastOf(queue, key).None?
    ensures var end := RunAll(screen, Push(queue, Update(n)));
            key in end && end[key] == if Dismisses(queue) < QUEUE_LIMIT then n else screen[key]
  {
    var pushed := Push(queue, Update(n));
    NoContentOf(queue, key);
    TrimFacts(queue + [Update(n)], QUEUE_LIMIT);
    assert forall c :: c in pushed && c.Key() == key ==> c == Update(n);
    StaysShown(screen, pushed, key);
    ScreenAfter(screen, pushed, key);
    LastOfIsThere(pushed, key);
    PushKeepsNewest(queue, Update(n));
    if Dismisses(queue) >= QUEUE_LIMIT { FullOfDismisses(queue, Update(n)); }
  }

  /** One iteration of "Hide message text", whatever waits before the core queue, for a chat
      that will show text and has no command in the core queue: its text goes off the screen
      exactly when fewer dismisses than the limit wait in that queue. */
  lemma HideOneReachesExactly(p: Pipeline, key: NotifyKey)
    requires PipeOk(p) && !p.worker.off
    requires key in p.core.pending && key !in p.stale && !IsHidden(p.core.pending[key].shown)
    requires LastOf(p.core.queue, key).None? && key in RunAll(p.screen, Backlog(p))
    ensures var after := Hides1(p, key);
            var end := RunAll(after.screen, Backlog(after));
            key in end && (IsHidden(end[key]) <==> Dismisses(p.core.queue) < QUEUE_LIMIT)
  {
    var hidden := Hidden(p.core.pending[key].shown);
    var after := Hides1(p, key);
    NoContentOf(p.core.queue, key);
    assert hidden.key == key;
    assert after.core.queue == Push(p.core.queue, Update(hidden));
    assert after.screen == p.screen && Early(after) == Early(p);
    ShownBeforeQueue(p, key);
    RunAllConcat(p.screen, Early(p), after.core.queue);
    UpdateReaches(RunAll(p.screen, Early(p)), p.core.queue, key, hidden);
  }

  // ----- a run that reaches it

  const TELEGRAM := ProtocolId(Telegram, 0)
  const CTX := Context(true, true, false, None, None, true, false, false, None, 0)
  const ROW := Conversation("Ada", false, false)
  const ADA := NotifyKey(TELEGRAM, "ada", None)
  const BOB := NotifyKey(TELEGRAM, "bob", None)

  function MessageIn(chat: string): ChatMessage {
    ChatMessage(TELEGRAM, chat, None, "Ada", "hi", false, None, false, 0, Live)
  }

  /** A message of Bob that is dismissed at once, `n` times, with no frontend that
      takes the commands. */
  ghost function Churn(n: nat): seq<Step> {
    if n == 0 then []
    else Churn(n - 1) + [Message(MessageIn("bob"), Some(ROW), CTX), DismissChats([BOB])]
  }

  lemma {:induction false} KeepsDismisses(queue: Commands, key: NotifyKey)
    requires forall c :: c in queue ==> c.Dismiss?
    ensures WithoutContent(queue, key) == queue
    ensures WithoutContent(queue + [Show(Notification(key, "", None, "", 0))], key) == queue
  {
    assert (queue + [Show(Notification(key, "", None, "", 0))])[..|queue|] == queue;
    if queue != [] {
      var n := |queue| - 1;
      assert queue == queue[..n] + [queue[n]];
      KeepsDismisses(queue[..n], key);
    }
  }

  /** The queue holds `n` dismisses and nothing else, and Bob is not pending. */
  ghost predicate Churned(p: Pipeline, start: Pipeline, n: nat) {
    && |p.core.queue| == n
    && (forall c :: c in p.core.queue ==> c == Dismiss(BOB))
    && p.core.pending == start.core.pending && BOB !in p.core.pending && !p.core.closing
    && p.worker == start.worker && p.screen == start.screen
    && (forall k :: k != BOB && k in p.stale ==> k in start.stale)
  }

  lemma ShowThenDismiss(queue: Commands, n: Notification)
    requires (forall c :: c in queue ==> c == Dismiss(n.key))
    ensures var shown := Push(queue, Show(n));
            var dismissed := Push(WithoutContent(shown, n.key), Dismiss(n.key));
            |dismissed| == |queue| + 1 && (forall c :: c in dismissed ==> c == Dismiss(n.key))
    ensures LostByPush(queue, Show(n)) <= {n.key}
    ensures LostByPush(WithoutContent(Push(queue, Show(n)), n.key), Dismiss(n.key)) == {}
  {
    var longer := queue + [Show(n)];
    assert longer[..|queue|] == queue;
    KeepsDismisses(queue, n.key);
    TrimFacts(longer, QUEUE_LIMIT);
    assert WithoutContent(longer, n.key) == queue;
    FirstContentFacts(queue);
    FirstContentAppend(queue, Show(n));
    assert RemoveAt(longer, |queue|) == queue;
    FirstContentFacts(queue + [Dismiss(n.key)]);
  }

  lemma ExecOne(p: Pipeline, a: Step)
    ensures Exec(p, [a]) == Apply(p, a)
  {
    assert [a][..0] == [];
  }

  lemma ExecTwo(p: Pipeline, a: Step, b: Step)
    ensures Exec(p, [a, b]) == Apply(Apply(p, a), b)
  {
    ExecOne(p, a);
    assert [a, b][..1] == [a];
  }

  lemma OneChat(p: Pipeline, key: NotifyKey)
    ensures DismissesAll(p, [key]) == Dismisses1(p, key) && HidesAll(p, [key]) == Hides1(p, key)
  {
    assert [key][..0] == [];
    assert DismissesAll(p, []) == p && HidesAll(p, []) == p;
  }

  lemma BobArrives(p: Pipeline)
    requires BOB !in p.core.pending && !p.core.closing && (forall c :: c in p.core.queue ==> c == Dismiss(BOB))
    ensures var note := NotificationFor(MessageIn("bob"), ROW, CTX, 1);
            note.key == BOB
            && Apply(p, Message(MessageIn("bob"), Some(ROW), CTX))
               == p.(core := p.core.(pending := p.core.pending[BOB := Pending(note, false)],
                                     queue := Push(p.core.queue, Show(note))),
                     stale := p.stale - {BOB} + LostByPush(p.core.queue, Show(note)))
  {
    KeepsDismisses(p.core.queue, BOB);
  }

  lemma ChurnStep(p: Pipeline, start: Pipeline, n: nat)
    requires Churned(p, start, n)
    ensures Churned(Exec(p, [Message(MessageIn("bob"), Some(ROW), CTX), DismissChats([BOB])]), start, n + 1)
  {
    var note := NotificationFor(MessageIn("bob"), ROW, CTX, 1);
    var shown := Apply(p, Message(MessageIn("bob"), Some(ROW), CTX));
    ExecTwo(p, Message(MessageIn("bob"), Some(ROW), CTX), DismissChats([BOB]));
    BobArrives(p);
    ShowThenDismiss(p.core.queue, note);
    OneChat(shown, BOB);
    assert Dismisses1(shown, BOB).core.pending == start.core.pending;
  }

  lemma {:induction false} ChurnRun(p: Pipeline, n: nat)
    requires Churned(p, p, 0)
    ensures Churned(Exec(p, Churn(n)), p, n)
  {
    if n > 0 {
      ChurnRun(p, n - 1);
      ChurnStep(Exec(p, Churn(n - 1)), p, n - 1);
      ExecConcat(p, Churn(n - 1), [Message(MessageIn("bob"), Some(ROW), CTX), DismissChats([BOB])]);
    }
  }

  /** A frontend that never takes the commands does let the queue grow without bound:
      a dismiss is never dropped, and a chat can be dismissed again and again. */
  lemma QueueGrowsWithoutBound(n: nat)
    ensures |Exec(START, Churn(n)).core.queue| == n
  {
    ChurnRun(START, n);
  }

  /** A message of a chat, and everything it causes up to the OS. */
  function ShowChat(chat: string): seq<Step> {
    [Message(MessageIn(chat), Some(ROW), CTX), Deliver, TakeCommand, CallEnd(true, true)]
  }

  function NoteOf(chat: string): Notification {
    NotificationFor(MessageIn(chat), ROW, CTX, 1)
  }

  lemma MessageOfNewChat(p: Pipeline, chat: string)
    requires p.core.queue == [] && !p.core.closing && NoteOf(chat).key !in p.core.pending
    ensures Apply(p, ShowChat(chat)[0])
            == p.(core := p.core.(pending := p.core.pending[NoteOf(chat).key := Pending(NoteOf(chat), false)],
                                  queue := [Show(NoteOf(chat))]),
                  stale := p.stale - {NoteOf(chat).key})
  {
    assert WithoutContent([], NoteOf(chat).key) == [];
    assert [] + [Show(NoteOf(chat))] == [Show(NoteOf(chat))];
  }

  lemma OneShowDelivered(p: Pipeline, n: Notification)
    requires p.core.queue == [Show(n)] && p.worker == IDLE
    ensures Apply(p, Deliver) == p.(core := p.core.(queue := []), worker := IDLE.(inbox := [Show(n)]))
  {
    assert WithoutUpdates([], n.key) == [] && [] + [Show(n)] == [Show(n)];
    assert Inboxes.Merged([], Show(n)) == [Show(n)] && Inboxes.LostByPush([], Show(n)) == {};
    assert Delivers1(p).stale == p.stale && Delivers1(p).core.queue == [];
    assert Delivers1(p).worker == IDLE.(inbox := [Show(n)]);
    assert Delivers(p) == Delivers(Delivers1(p)) == Delivers1(p);
  }

  lemma OneShowRuns(p: Pipeline, n: Notification)
    requires p.worker == IDLE.(inbox := [Show(n)])
    ensures Apply(Apply(p, TakeCommand), CallEnd(true, true)) == p.(worker := IDLE, screen := p.screen[n.key := n])
  {
    assert Apply(p, TakeCommand).worker == IDLE.(running := Some(Show(n)));
  }

  lemma ShownChat(p: Pipeline, chat: string)
    requires p.core.queue == [] && !p.core.closing && p.worker == IDLE && NoteOf(chat).key !in p.core.pending
    ensures Exec(p, ShowChat(chat))
            == p.(core := p.core.(pending := p.core.pending[NoteOf(chat).key := Pending(NoteOf(chat), false)]),
                  screen := p.screen[NoteOf(chat).key := NoteOf(chat)], stale := p.stale - {NoteOf(chat).key})
  {
    var s := ShowChat(chat);
    MessageOfNewChat(p, chat);
    OneShowDelivered(Apply(p, s[0]), NoteOf(chat));
    OneShowRuns(Apply(Apply(p, s[0]), s[1]), NoteOf(chat));
    ExecTwo(p, s[0], s[1]);
    ExecTwo(Exec(p, [s[0], s[1]]), s[2], s[3]);
    ExecConcat(p, [s[0], s[1]], [s[2], s[3]]);
    assert s == [s[0], s[1]] + [s[2], s[3]];
  }

  const SHOW_ADA := ShowChat("ada")

  lemma AdaIsShown()
    ensures Exec(START, SHOW_ADA)
            == START.(core := INIT.(pending := map[ADA := Pending(NoteOf("ada"), false)]),
                      screen := map[ADA := NoteOf("ada")])
  {
    ShownChat(START, "ada");
  }
}
