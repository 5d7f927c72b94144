/** When a message notifies and what the notification reads
    (crates/thinwire-core/src/notify.rs, `decide` and `on_message`). */
module MessageRules {
  import opened Wrappers
  import opened Accounts
  import opened Commands
  import opened Notify
  import Inboxes

  /** The rules in the order in which they are asked. */
  const RULES: seq<SkipReason> := [Disabled, OldHistory, Outbound, NoSession, UnknownChat, Muted, Viewed, Stale]

  /** The message breaks this rule. */
  predicate Breaks(rule: SkipReason, message: ChatMessage, chat: Option<Conversation>, ctx: Context) {
    match rule
    case Disabled => !ctx.enabled
    case OldHistory => message.arrival == History
    case Outbound => message.outbound
    case NoSession => !ctx.hasSession
    case UnknownChat => chat == None
    case Muted => ctx.mutedHere || ctx.topicMuted || (chat.Some? && chat.value.muted)
    case Viewed =>
      && ctx.windowFocused && ctx.viewed.Some? && ctx.viewed.value.0 == message.protocol
      && ctx.viewed.value.1 == message.conversationId && message.topic == ctx.viewedTopic
    case Stale => message.sentAt != 0 && message.sentAt + 300 < ctx.now
  }

  ghost predicate BreaksNone(message: ChatMessage, chat: Option<Conversation>, ctx: Context) {
    forall rule :: !Breaks(rule, message, chat, ctx)
  }

  /** The reason that is given is the first rule that the message breaks. */
  lemma FirstBrokenRule(message: ChatMessage, chat: Option<Conversation>, ctx: Context, at: nat)
    requires at < |RULES|
    ensures Decide(message, chat, ctx) == Some(RULES[at])
            <==> Breaks(RULES[at], message, chat, ctx)
                 && forall i :: 0 <= i < at ==> !Breaks(RULES[i], message, chat, ctx)
    ensures Decide(message, chat, ctx) == None <==> BreaksNone(message, chat, ctx)
  {
    if Decide(message, chat, ctx) == None {
      forall rule ensures !Breaks(rule, message, chat, ctx) { }
    } else {
      assert Breaks(Decide(message, chat, ctx).value, message, chat, ctx);
    }
    assert RULES[0] == Disabled && RULES[1] == OldHistory && RULES[2] == Outbound && RULES[3] == NoSession;
    assert RULES[4] == UnknownChat && RULES[5] == Muted && RULES[6] == Viewed && RULES[7] == Stale;
  }

  /** A message changes the core exactly when the app is not closing and it breaks no rule.
      Then its chat and topic has one notification more, which is the newest thing queued for
      it, and waits to be seen unread; every other chat keeps its notification. */
  lemma NotifiesExactly(core: Core, message: ChatMessage, chat: Option<Conversation>, ctx: Context)
    requires CoreOk(core)
    ensures var after, key := OnMessage(core, message, chat, ctx),
                              NotifyKey(message.protocol, message.conversationId, message.topic);
            && (after != core <==> !core.closing && BreaksNone(message, chat, ctx))
            && (after != core ==>
                  && key in after.pending && after.pending[key].shown.key == key
                  && after.pending[key].shown.count == CountOf(core, key) + 1 && !after.pending[key].sawUnread
                  && after.pending - {key} == core.pending - {key}
                  && (Dismisses(core.queue) < QUEUE_LIMIT ==>
                        after.queue != [] && after.queue[|after.queue| - 1] == Show(after.pending[key].shown)))
  {
    FirstBrokenRule(message, chat, ctx, 0);
    var after := OnMessage(core, message, chat, ctx);
    if !core.closing && BreaksNone(message, chat, ctx) {
      var n := NotificationFor(message, chat.value, ctx, CountOf(core, KeyOf(message)) + 1);
      assert after.pending[n.key].shown.count != CountOf(core, n.key);
      Inboxes.DismissesWithout(core.queue, n.key);
      PushKeepsNewest(WithoutContent(core.queue, n.key), Show(n));
    }
  }

  /** "Hide message text" takes the text and the sender of the listed chats and nothing else:
      their title and count stay, and so does what else the core noted. */
  lemma {:induction false} HideKeepsRest(core: Core, keys: seq<NotifyKey>, k: NotifyKey)
    ensures k in HideAll(core, keys).pending <==> k in core.pending
    ensures k in core.pending ==>
              var before, after := core.pending[k], HideAll(core, keys).pending[k];
              && after.sawUnread == before.sawUnread
              && (k !in keys || IsHidden(before.shown) ==> after.shown == before.shown)
              && (k in keys ==> after.shown == Notification(before.shown.key, before.shown.title, None,
                                                            "New message", before.shown.count))
  {
    if keys != [] {
      var n := |keys| - 1;
      assert keys == keys[..n] + [keys[n]];
      HideKeepsRest(core, keys[..n], k);
    }
  }

  /** The text is at most 120 characters from the start of `text`. */
  ghost predicate Starts(preview: string, text: string) {
    preview <= text && (|preview| == 120 || preview == text)
  }

  /** With previews off a notification has no text and no sender. With previews on it has the
      start of the body, or for an empty body the kind of picture or the file name, and the
      sender in a group. The title is the chat's, with the topic's name when both are known. */
  lemma NotificationReads(message: ChatMessage, chat: Conversation, ctx: Context, count: nat)
    ensures var n := NotificationFor(message, chat, ctx, count);
            && n.key == NotifyKey(message.protocol, message.conversationId, message.topic) && n.count == count
            && (!ctx.preview ==> n.preview == "New message" && n.sender == None)
            && (ctx.preview ==>
                  && (n.sender == if chat.isGroup then Some(message.sender) else None)
                  && (message.body != "" ==> Starts(n.preview, message.body))
                  && (message.body == "" && message.hasPhoto ==> n.preview == "Photo")
                  && (message.body == "" && !message.hasPhoto && message.fileName.Some? ==>
                        Starts(n.preview, message.fileName.value))
                  && (message.body == "" && !message.hasPhoto && message.fileName.None? ==> n.preview == ""))
            && (message.topic == None || ctx.topicName == None ==> n.title == chat.title)
            && (message.topic.Some? && ctx.topicName.Some? ==>
                  n.title == chat.title + [' ', '\U{203A}', ' '] + ctx.topicName.value)
  {
    assert " \U{203A} " == [' ', '\U{203A}', ' '];
  }
}
