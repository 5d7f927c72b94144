/** The notification rules and the core's bounded queue (crates/thinwire-core/src/notify.rs). */
module Notify {
  import opened Wrappers
  import opened Accounts
  import opened Commands

  const STALE_AFTER_SECS := 300
  const QUEUE_LIMIT := 64
  const PREVIEW_CHARS := 120
  const HIDDEN_PREVIEW := "New message"

  // ----- what one message means

  datatype Arrival = History | Live

  datatype ChatMessage = ChatMessage(
    protocol: ProtocolId, conversationId: string, topic: Option<MessageTopic>, sender: string, body: string,
    hasPhoto: bool, fileName: Option<string>, outbound: bool, sentAt: int, arrival: Arrival)

  datatype Conversation = Conversation(title: string, isGroup: bool, muted: bool)

  datatype Context = Context(
    enabled: bool, preview: bool, windowFocused: bool, viewed: Option<(ProtocolId, string)>,
    viewedTopic: Option<MessageTopic>, hasSession: bool, mutedHere: bool, topicMuted: bool,
    topicName: Option<string>, now: int)

  datatype SkipReason = Disabled | OldHistory | Outbound | NoSession | UnknownChat | Muted | Viewed | Stale

  /** The rules in their order: `None` means the message notifies. */
  function Decide(message: ChatMessage, chat: Option<Conversation>, ctx: Context): Option<SkipReason> {
    if !ctx.enabled then Some(Disabled)
    else if message.arrival != Live then Some(OldHistory)
    else if message.outbound then Some(Outbound)
    else if !ctx.hasSession then Some(NoSession)
    else if chat.None? then Some(UnknownChat)
    else if chat.value.muted || ctx.mutedHere || ctx.topicMuted then Some(Muted)
    else if ctx.windowFocused && ctx.viewed == Some((message.protocol, message.conversationId))
            && message.topic == ctx.viewedTopic then Some(Viewed)
    else if message.sentAt != 0 && ctx.now - message.sentAt > STALE_AFTER_SECS then Some(Stale)
    else None
  }

  function KeyOf(message: ChatMessage): NotifyKey {
    NotifyKey(message.protocol, message.conversationId, message.topic)
  }

  function Title(message: ChatMessage, chat: Conversation, ctx: Context): string {
    if message.topic.Some? && ctx.topicName.Some? then chat.title + " \U{203A} " + ctx.topicName.value
    else chat.title
  }

  function Preview(message: ChatMessage, ctx: Context): string {
    if !ctx.preview then HIDDEN_PREVIEW
    else
      var text := if message.body == "" && message.hasPhoto then "Photo"
                  else if message.body == "" && message.fileName.Some? then message.fileName.value
                  else message.body;
      if |text| <= PREVIEW_CHARS then text else text[..PREVIEW_CHARS]
  }

  function NotificationFor(message: ChatMessage, chat: Conversation, ctx: Context, count: nat): Notification {
    Notification(KeyOf(message), Title(message, chat, ctx),
                 if ctx.preview && chat.isGroup then Some(message.sender) else None,
                 Preview(message, ctx), count)
  }

  predicate IsHidden(n: Notification) { n.preview == HIDDEN_PREVIEW && n.sender == None }

  function Hidden(n: Notification): Notification {
    n.(preview := HIDDEN_PREVIEW, sender := None)
  }

  // ----- the state of the core

  datatype Pending = Pending(shown: Notification, sawUnread: bool)

  datatype Core = Core(
    pending: map<NotifyKey, Pending>, queue: Commands, windowFocused: bool, closing: bool)

  const INIT := Core(map[], [], true, false)

  function CountOf(core: Core, key: NotifyKey): nat {
    if key in core.pending then core.pending[key].shown.count else 0
  }

  function Push(queue: Commands, command: NotifyCommand): Commands {
    Trim(queue + [command], QUEUE_LIMIT)
  }

  function LostByPush(queue: Commands, command: NotifyCommand): set<NotifyKey> {
    Dropped(queue + [command], QUEUE_LIMIT)
  }

  /** `on_message`, once the rules let it through. */
  function Notified(core: Core, n: Notification): Core {
    core.(pending := core.pending[n.key := Pending(n, false)],
          queue := Push(WithoutContent(core.queue, n.key), Show(n)))
  }

  function OnMessage(core: Core, message: ChatMessage, chat: Option<Conversation>, ctx: Context): Core {
    if core.closing || Decide(message, chat, ctx).Some? then core
    else Notified(core, NotificationFor(message, chat.value, ctx, CountOf(core, KeyOf(message)) + 1))
  }

  function DismissOne(core: Core, key: NotifyKey): Core {
    if key !in core.pending then core
    else core.(pending := core.pending - {key}, queue := Push(WithoutContent(core.queue, key), Dismiss(key)))
  }

  function DismissAll(core: Core, keys: seq<NotifyKey>): Core {
    if keys == [] then core else DismissOne(DismissAll(core, keys[..|keys| - 1]), keys[|keys| - 1])
  }

  function HideOne(core: Core, key: NotifyKey): Core {
    if key !in core.pending || IsHidden(core.pending[key].shown) then core
    else
      var hidden := Hidden(core.pending[key].shown);
      var pending := core.pending[key := core.pending[key].(shown := hidden)];
      match FirstShow(core.queue, key)
      case Some(at) => core.(pending := pending, queue := core.queue[at := Show(hidden)])
      case None => core.(pending := pending, queue := Push(WithoutUpdates(core.queue, key), Update(hidden)))
  }

  function HideAll(core: Core, keys: seq<NotifyKey>): Core {
    if keys == [] then core else HideOne(HideAll(core, keys[..|keys| - 1]), keys[|keys| - 1])
  }

  /** What the state says for one `sync`: the viewed chat, the linked accounts, and
      the unread count of each listed chat. */
  datatype StateNow = StateNow(
    viewed: Option<NotifyKey>, sessions: set<ProtocolId>, unread: map<NotifyKey, nat>)

  predicate Drops(pending: Pending, focused: bool, now: StateNow, key: NotifyKey) {
    || (focused && now.viewed == Some(key))
    || key !in now.unread
    || (now.unread[key] == 0 && pending.sawUnread)
    || key.protocol !in now.sessions
  }

  predicate SyncDrops(core: Core, now: StateNow, key: NotifyKey) {
    key in core.pending && Drops(core.pending[key], core.windowFocused, now, key)
  }

  function MarkOne(pending: Pending, now: StateNow, key: NotifyKey): Pending {
    if key in now.unread && now.unread[key] != 0 then pending.(sawUnread := true) else pending
  }

  function Marked(core: Core, now: StateNow): Core {
    core.(pending := map k | k in core.pending :: MarkOne(core.pending[k], now, k))
  }

  function MarkKeys(pending: map<NotifyKey, Pending>, now: StateNow, keys: seq<NotifyKey>): map<NotifyKey, Pending> {
    if keys == [] then pending
    else
      var before := MarkKeys(pending, now, keys[..|keys| - 1]);
      var key := keys[|keys| - 1];
      if key in before then before[key := MarkOne(before[key], now, key)] else before
  }

  lemma {:induction false} MarkKeysFacts(pending: map<NotifyKey, Pending>, now: StateNow, keys: seq<NotifyKey>)
    requires forall k :: k in keys ==> k in pending
    ensures MarkKeys(pending, now, keys).Keys == pending.Keys
    ensures forall k :: k in pending ==>
      MarkKeys(pending, now, keys)[k] == if k in keys then MarkOne(pending[k], now, k) else pending[k]
  {
    if keys != [] {
      var n := |keys| - 1;
      MarkKeysFacts(pending, now, keys[..n]);
      assert keys == keys[..n] + [keys[n]];
    }
  }

  lemma MarkKeysNext(core: Core, now: StateNow, keys: seq<NotifyKey>, i: nat)
    requires Lists(keys, core) && i < |keys|
    ensures keys[i] in MarkKeys(core.pending, now, keys[..i]) && keys[i] in core.pending
    ensures MarkKeys(core.pending, now, keys[..i])[keys[i]] == core.pending[keys[i]]
  {
    MarkKeysFacts(core.pending, now, keys[..i]);
  }

  lemma MarkKeysAll(core: Core, now: StateNow, keys: seq<NotifyKey>)
    requires Lists(keys, core)
    ensures MarkKeys(core.pending, now, keys) == Marked(core, now).pending
  {
    MarkKeysFacts(core.pending, now, keys);
  }

  function SyncGone(core: Core, now: StateNow, keys: seq<NotifyKey>): seq<NotifyKey> {
    if keys == [] then []
    else
      var rest := SyncGone(core, now, keys[..|keys| - 1]);
      if SyncDrops(core, now, keys[|keys| - 1]) then rest + [keys[|keys| - 1]] else rest
  }

  function Sync(core: Core, now: StateNow, keys: seq<NotifyKey>): Core {
    DismissAll(Marked(core, now), SyncGone(core, now, keys))
  }

  function Close(core: Core, keys: seq<NotifyKey>): Core {
    DismissAll(core, keys).(closing := true)
  }

  /** `keys` lists every pending chat once, in any order. */
  ghost predicate Lists(keys: seq<NotifyKey>, core: Core) {
    && (forall k :: k in keys <==> k in core.pending)
    && (forall i, j :: 0 <= i < j < |keys| ==> keys[i] != keys[j])
  }

  // ----- queue and pending agree

  ghost predicate Agrees(core: Core) {
    && (forall k :: k in core.pending ==> core.pending[k].shown.key == k)
    && (forall c :: c in core.queue && c.IsContent()
                    ==> c.Key() in core.pending && core.pending[c.Key()].shown == c.notification)
  }

  /** A chat has at most one queued `Show` or `Update`, it is the newest command of
      the chat, and it is what `pending` holds. Over the limit the queue holds only
      dismisses. A closing core has nothing pending. */
  ghost predicate CoreOk(core: Core) {
    && Agrees(core)
    && ContentLast(core.queue)
    && (|core.queue| <= QUEUE_LIMIT || forall c :: c in core.queue ==> c.Dismiss?)
    && (core.closing ==> core.pending == map[])
  }

  lemma PushContentLast(queue: Commands, command: NotifyCommand)
    requires ContentLast(queue)
    requires forall c :: c in queue && c.IsContent() ==> c.Key() != command.Key()
    ensures ContentLast(Push(queue, command))
    ensures forall c :: c in Push(queue, command) ==> c in queue || c == command
    ensures |Push(queue, command)| <= QUEUE_LIMIT || forall c :: c in Push(queue, command) ==> c.Dismiss?
  {
    var longer := queue + [command];
    assert ContentLast(longer) by {
      forall i, j | 0 <= i < j < |longer| && longer[i].IsContent() ensures longer[i].Key() != longer[j].Key() {
        assert longer[i] == queue[i];
        assert longer[i] in queue;
      }
    }
    TrimFacts(longer, QUEUE_LIMIT);
  }

  lemma NotifiedOk(core: Core, n: Notification)
    requires CoreOk(core) && !core.closing
    ensures CoreOk(Notified(core, n))
  {
    WithoutContentFacts(core.queue, n.key);
    PushContentLast(WithoutContent(core.queue, n.key), Show(n));
  }

  lemma OnMessageOk(core: Core, message: ChatMessage, chat: Option<Conversation>, ctx: Context)
    requires CoreOk(core)
    ensures CoreOk(OnMessage(core, message, chat, ctx))
  {
    if !core.closing && Decide(message, chat, ctx).None? {
      NotifiedOk(core, NotificationFor(message, chat.value, ctx, CountOf(core, KeyOf(message)) + 1));
    }
  }

  lemma DismissOneOk(core: Core, key: NotifyKey)
    requires CoreOk(core)
    ensures CoreOk(DismissOne(core, key))
  {
    WithoutContentFacts(core.queue, key);
    PushContentLast(WithoutContent(core.queue, key), Dismiss(key));
  }

  lemma {:induction false} DismissAllOk(core: Core, keys: seq<NotifyKey>)
    requires CoreOk(core)
    ensures CoreOk(DismissAll(core, keys))
    ensures DismissAll(core, keys).pending == core.pending - (set k | k in keys)
    ensures DismissAll(core, keys).closing == core.closing
  {
    if keys != [] {
      var n := |keys| - 1;
      DismissAllOk(core, keys[..n]);
      DismissOneOk(DismissAll(core, keys[..n]), keys[n]);
      assert keys == keys[..n] + [keys[n]];
      assert (set k | k in keys) == (set k | k in keys[..n]) + {keys[n]};
    }
  }

  lemma HideOneOk(core: Core, key: NotifyKey)
    requires CoreOk(core)
    ensures CoreOk(HideOne(core, key))
  {
    if key in core.pending && !IsHidden(core.pending[key].shown) {
      var hidden := Hidden(core.pending[key].shown);
      match FirstShow(core.queue, key)
      case Some(at) =>
        assert core.queue[at] in core.queue;
      case None =>
        WithoutUpdatesFacts(core.queue, key);
        PushContentLast(WithoutUpdates(core.queue, key), Update(hidden));
    }
  }

  lemma {:induction false} HideAllOk(core: Core, keys: seq<NotifyKey>)
    requires CoreOk(core)
    ensures CoreOk(HideAll(core, keys))
    ensures HideAll(core, keys).pending.Keys == core.pending.Keys
    ensures forall k :: k in keys && k in core.pending ==> IsHidden(HideAll(core, keys).pending[k].shown)
    ensures forall k :: k in core.pending && IsHidden(core.pending[k].shown)
                        ==> IsHidden(HideAll(core, keys).pending[k].shown)
  {
    if keys != [] {
      var n := |keys| - 1;
      HideAllOk(core, keys[..n]);
      HideOneOk(HideAll(core, keys[..n]), keys[n]);
      assert keys == keys[..n] + [keys[n]];
    }
  }

  lemma MarkedOk(core: Core, now: StateNow)
    requires CoreOk(core)
    ensures CoreOk(Marked(core, now))
  {
  }

  lemma {:induction false} SyncGoneExact(core: Core, now: StateNow, keys: seq<NotifyKey>)
    ensures forall k :: k in SyncGone(core, now, keys) <==> k in keys && SyncDrops(core, now, k)
  {
    if keys != [] {
      var n := |keys| - 1;
      SyncGoneExact(core, now, keys[..n]);
      assert keys == keys[..n] + [keys[n]];
    }
  }

  /** A sync dismisses exactly the chats that the user looks at, that left the list,
      whose session ended, or that were read elsewhere after they had unread messages. */
  lemma SyncExact(core: Core, now: StateNow, keys: seq<NotifyKey>)
    requires CoreOk(core) && Lists(keys, core)
    ensures CoreOk(Sync(core, now, keys))
    ensures forall k :: k in Sync(core, now, keys).pending <==> k in core.pending && !SyncDrops(core, now, k)
  {
    MarkedOk(core, now);
    SyncGoneExact(core, now, keys);
    DismissAllOk(Marked(core, now), SyncGone(core, now, keys));
  }

  lemma CloseOk(core: Core, keys: seq<NotifyKey>)
    requires CoreOk(core) && Lists(keys, core)
    ensures CoreOk(Close(core, keys)) && Close(core, keys).pending == map[] && Close(core, keys).closing
  {
    DismissAllOk(core, keys);
  }

  // ----- "Hide message text"

  ghost predicate AllHidden(core: Core) {
    && (forall k :: k in core.pending ==> IsHidden(core.pending[k].shown))
    && (forall c :: c in core.queue && c.IsContent() ==> IsHidden(c.notification))
  }

  /** After "Hide message text" went on, no queued or pending item has text or a sender. */
  lemma HidePreviewsHides(core: Core, keys: seq<NotifyKey>)
    requires CoreOk(core) && Lists(keys, core)
    ensures AllHidden(HideAll(core, keys))
  {
    HideAllOk(core, keys);
  }

  /** A message keeps it that way exactly when it brings no text: the preview is
      off, or it does not notify, or the chat is no group and the text is the hidden one. */
  lemma MessageKeepsHidden(core: Core, message: ChatMessage, chat: Option<Conversation>, ctx: Context)
    requires CoreOk(core) && AllHidden(core)
    ensures !ctx.preview ==> AllHidden(OnMessage(core, message, chat, ctx))
    ensures AllHidden(OnMessage(core, message, chat, ctx)) <==>
            (core.closing || Decide(message, chat, ctx).Some? || !ctx.preview
             || (!chat.value.isGroup && Preview(message, ctx) == HIDDEN_PREVIEW))
  {
    if !core.closing && Decide(message, chat, ctx).None? {
      var n := NotificationFor(message, chat.value, ctx, CountOf(core, KeyOf(message)) + 1);
      WithoutContentFacts(core.queue, n.key);
      TrimFacts(WithoutContent(core.queue, n.key) + [Show(n)], QUEUE_LIMIT);
      assert n.key in Notified(core, n).pending;
    }
  }

  // ----- the queue limit

  /** A new `Show` or `Update` survives its own push exactly when fewer dismisses
      than the limit wait before it. */
  lemma PushKeepsNewest(queue: Commands, command: NotifyCommand)
    requires command.IsContent()
    ensures Push(queue, command) != [] && Push(queue, command)[|Push(queue, command)| - 1] == command
            <==> Dismisses(queue) < QUEUE_LIMIT
  {
    TrimKeepsNewest(queue, command, QUEUE_LIMIT);
  }

  // ----- the class

  class Notifications {
    var pending: map<NotifyKey, Pending>
    var queue: Commands
    var windowFocused: bool
    var closing: bool

    ghost function View(): Core
      reads this
    {
      Core(pending, queue, windowFocused, closing)
    }

    constructor ()
      ensures View() == INIT && CoreOk(View())
    {
      pending, queue, windowFocused, closing := map[], [], true, false;
    }

    method SetFocus(focused: bool)
      modifies this
      ensures View() == old(View()).(windowFocused := focused)
    {
      windowFocused := focused;
    }

    /** Over the limit, drop the oldest `Show` or `Update`, never a `Dismiss`. */
    method PushCommand(command: NotifyCommand)
      modifies this`queue
      ensures queue == Push(old(queue), command)
    {
      queue := queue + [command];
      while |queue| > QUEUE_LIMIT
        invariant Trim(queue, QUEUE_LIMIT) == Push(old(queue), command)
        decreases |queue|
      {
        var index := FirstContent(queue);
        if index.None? { break; }
        queue := RemoveAt(queue, index.value);
      }
    }

    method MessageArrived(message: ChatMessage, chat: Option<Conversation>, ctx: Context)
      returns (skipped: Option<SkipReason>)
      requires CoreOk(View())
      modifies this
      ensures View() == OnMessage(old(View()), message, chat, ctx) && CoreOk(View())
      ensures skipped == if old(closing) then Some(Disabled) else Decide(message, chat, ctx)
    {
      OnMessageOk(View(), message, chat, ctx);
      if closing { return Some(Disabled); }
      skipped := Decide(message, chat, ctx);
      if skipped.Some? { return; }
      var key := KeyOf(message);
      var count := (if key in pending then pending[key].shown.count else 0) + 1;
      var notification := NotificationFor(message, chat.value, ctx, count);
      pending := pending[key := Pending(notification, false)];
      queue := WithoutContent(queue, key);
      PushCommand(Show(notification));
    }

    /** The pending chats. The source sorts them; no rule below needs the order. */
    method PendingKeys() returns (keys: seq<NotifyKey>)
      ensures Lists(keys, View())
    {
      keys := [];
      var left := pending.Keys;
      while left != {}
        invariant left <= pending.Keys
        invariant forall k :: k in keys <==> k in pending && k !in left
        invariant forall i, j :: 0 <= i < j < |keys| ==> keys[i] != keys[j]
        decreases left
      {
        var k :| k in left;
        keys := keys + [k];
        left := left - {k};
      }
    }

    method DismissKey(key: NotifyKey)
      modifies this
      ensures View() == DismissOne(old(View()), key)
    {
      if key !in pending { return; }
      pending := pending - {key};
      queue := WithoutContent(queue, key);
      PushCommand(Dismiss(key));
    }

    method DismissKeys(keys: seq<NotifyKey>)
      modifies this
      ensures View() == DismissAll(old(View()), keys)
    {
      for i := 0 to |keys|
        invariant View() == DismissAll(old(View()), keys[..i])
      {
        assert keys[..i + 1][..i] == keys[..i];
        DismissKey(keys[i]);
      }
      assert keys[..|keys|] == keys;
    }

    method ClearAll() returns (ghost keys: seq<NotifyKey>)
      modifies this
      ensures Lists(keys, old(View())) && View() == DismissAll(old(View()), keys)
    {
      var listed := PendingKeys();
      keys := listed;
      DismissKeys(listed);
    }

    method HidePreviews() returns (ghost keys: seq<NotifyKey>)
      requires CoreOk(View())
      modifies this
      ensures Lists(keys, old(View())) && View() == HideAll(old(View()), keys)
      ensures CoreOk(View()) && AllHidden(View())
    {
      var listed := PendingKeys();
      keys := listed;
      for i := 0 to |listed|
        invariant View() == HideAll(old(View()), listed[..i])
      {
        assert listed[..i + 1][..i] == listed[..i];
        HideKey(listed[i]);
      }
      assert listed[..|listed|] == listed;
      HideAllOk(old(View()), listed);
      HidePreviewsHides(old(View()), listed);
    }

    method HideKey(key: NotifyKey)
      modifies this
      ensures View() == HideOne(old(View()), key)
    {
      if key !in pending || IsHidden(pending[key].shown) { return; }
      var hidden := pending[key].shown.(preview := HIDDEN_PREVIEW, sender := None);
      pending := pending[key := pending[key].(shown := hidden)];
      var queued := FirstShow(queue, key);
      if queued.Some? {
        queue := queue[queued.value := Show(hidden)];
        return;
      }
      queue := WithoutUpdates(queue, key);
      PushCommand(Update(hidden));
    }

    /** One chat of a sync: note its unread count, and say whether it goes. */
    method SyncKey(key: NotifyKey, now: StateNow) returns (drops: bool)
      requires key in pending
      modifies this`pending
      ensures drops == Drops(old(pending[key]), windowFocused, now, key)
      ensures pending == old(pending)[key := MarkOne(old(pending[key]), now, key)]
    {
      var seen := windowFocused && now.viewed == Some(key);
      var readElsewhere := true;
      if key in now.unread {
        if now.unread[key] == 0 {
          readElsewhere := pending[key].sawUnread;
        } else {
          pending := pending[key := pending[key].(sawUnread := true)];
          readElsewhere := false;
        }
      }
      drops := seen || readElsewhere || key.protocol !in now.sessions;
    }

    /** The first loop of a sync: every pending chat is marked, the chats that go are listed. */
    method MarkChats(listed: seq<NotifyKey>, now: StateNow) returns (gone: seq<NotifyKey>)
      requires Lists(listed, View())
      modifies this`pending
      ensures View() == Marked(old(View()), now) && gone == SyncGone(old(View()), now, listed)
    {
      ghost var before := View();
      gone := [];
      var i := 0;
      while i < |listed|
        invariant 0 <= i <= |listed|
        invariant pending == MarkKeys(before.pending, now, listed[..i])
        invariant gone == SyncGone(before, now, listed[..i])
      {
        assert listed[..i + 1][..i] == listed[..i];
        MarkKeysNext(before, now, listed, i);
        var drops := SyncKey(listed[i], now);
        if drops { gone := gone + [listed[i]]; }
        i := i + 1;
      }
      assert listed[..|listed|] == listed;
      MarkKeysAll(before, now, listed);
    }

    method SyncState(now: StateNow) returns (ghost keys: seq<NotifyKey>)
      requires CoreOk(View())
      modifies this
      ensures Lists(keys, old(View())) && View() == Sync(old(View()), now, keys) && CoreOk(View())
    {
      var listed := PendingKeys();
      keys := listed;
      SyncExact(View(), now, listed);
      var gone := MarkChats(listed, now);
      DismissKeys(gone);
    }

    method CloseApp() returns (ghost keys: seq<NotifyKey>)
      requires CoreOk(View())
      modifies this
      ensures Lists(keys, old(View())) && View() == Close(old(View()), keys) && CoreOk(View())
    {
      keys := ClearAll();
      closing := true;
      CloseOk(old(View()), keys);
    }

    method Take() returns (commands: Commands)
      modifies this`queue
      ensures commands == old(queue) && queue == []
    {
      commands, queue := queue, [];
    }
  }
}
