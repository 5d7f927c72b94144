/** Which live forum messages wait for their topic row, what a hold keeps, and what a release
    shows, from the state of the app alone (crates/thinwire-core/src/core.rs). */
module HeldRules {
  import opened Wrappers
  import opened Accounts
  import opened Commands
  import opened Notify
  import opened HeldNotices
  import MessageRules

  /** The chat and topic of a message. */
  function TopicOf(message: ChatMessage): NotifyKey {
    NotifyKey(message.protocol, message.conversationId, message.topic)
  }

  /** A message waits exactly when it is live, not our own, of a forum topic in a listed chat,
      and the topic has no row. */
  lemma WaitsExactly(w: World, message: ChatMessage)
    ensures RowPending(w, message) <==>
              && message.arrival == Live && !message.outbound
              && message.topic.Some? && message.topic.value.Forum?
              && (message.protocol, message.conversationId) in w.chats && TopicOf(message) !in w.rows
  {
  }

  /** A hold is freed while its account is linked and its chat is listed, once its topic has a
      row or four seconds passed. It goes on waiting while they are and neither happened. */
  lemma FreesExactly(w: World, h: HeldNotice, now: nat)
    requires h.message.topic.Some?
    ensures var alive := h.message.protocol in w.sessions
                         && (h.message.protocol, h.message.conversationId) in w.chats;
            && (Frees(w, h, now) <==> alive && (TopicOf(h.message) in w.rows || now >= h.heldAt + 4_000))
            && (Keeps(w, h, now) <==> alive && TopicOf(h.message) !in w.rows && now < h.heldAt + 4_000)
  {
  }

  /** The rules let a message through exactly when notifications are on, the app is not
      closing, the message is live, from someone else, of a linked account and a listed chat,
      that nothing mutes, neither the chat nor the topic, here or at the service; the user does
      not look at it; and it is not older than five minutes. */
  lemma AllowsExactly(core: Core, w: World, message: ChatMessage)
    ensures var chat := (message.protocol, message.conversationId);
            Allows(core, w, message) <==>
              && !core.closing && w.enabled && message.arrival == Live && !message.outbound
              && message.protocol in w.sessions
              && chat in w.chats && !w.chats[chat].muted && chat !in w.mutedChats
              && (message.topic.Some? ==>
                    && TopicOf(message) !in w.mutedTopics
                    && (TopicOf(message) in w.rows ==> !w.rows[TopicOf(message)].muted))
              && !(core.windowFocused && w.viewed == Some(chat) && w.viewedTopic == message.topic)
              && (message.sentAt == 0 || w.unixNow - message.sentAt <= 300)
  {
    MessageRules.FirstBrokenRule(message, ChatOf(w, message), ContextOf(w, message, core.windowFocused), 0);
  }

  /** The hold of a message after it came: it has the message, counts the older ones up to 98,
      and waits since the first of them. */
  ghost predicate IsHoldOf(held: Held, message: ChatMessage, now: nat, h: HeldNotice) {
    && h.message == message
    && ((forall o :: o in held ==> TopicOf(o.message) != TopicOf(message)) ==> h.earlier == 0 && h.heldAt == now)
    && (forall o :: o in held && TopicOf(o.message) == TopicOf(message) ==>
          h.heldAt == o.heldAt && h.earlier == if o.earlier < 98 then o.earlier + 1 else 98)
  }

  /** The one hold that a new topic pushes out: with 32 held, the one that waits longest. */
  ghost predicate IsPushedOut(held: Held, message: ChatMessage, h: HeldNotice) {
    |held| == 32 && h == held[0] && forall o :: o in held ==> TopicOf(o.message) != TopicOf(message)
  }

  /** A message that comes is held; every other topic keeps its hold, but the one that waits
      longest when 32 wait and the message's topic is not among them. */
  lemma HoldExactly(held: Held, message: ChatMessage, clock: nat, now: nat, h: HeldNotice)
    requires HeldOk(held, clock) && clock <= now && message.topic.Some?
    ensures h in HoldOne(held, message, now) <==>
              || IsHoldOf(held, message, now, h)
              || (h in held && TopicOf(h.message) != TopicOf(message) && !IsPushedOut(held, message, h))
  {
    IndexOfNone(held, TopicOf(message));
    match IndexOf(held, TopicOf(message)) {
      case Some(i) => HoldAgain(held, message, clock, now, i, h);
      case None => HoldNew(held, message, clock, now, h);
    }
  }

  lemma HoldAgain(held: Held, message: ChatMessage, clock: nat, now: nat, i: nat, h: HeldNotice)
    requires HeldOk(held, clock) && i < |held| && IndexOf(held, TopicOf(message)) == Some(i) && message.topic.Some?
    ensures h in HoldOne(held, message, now) <==>
              IsHoldOf(held, message, now, h) || (h in held && TopicOf(h.message) != TopicOf(message))
  {
    var after := HoldOne(held, message, now);
    OneHoldOf(held, clock, i);
    assert held[i] in held;
    assert IsHoldOf(held, message, now, h) <==> h == after[i];
    assert forall j :: 0 <= j < |held| && j != i ==>
                         after[j] == held[j] && TopicOf(held[j].message) != TopicOf(message);
  }

  lemma OneHoldOf(held: Held, clock: nat, i: nat)
    requires HeldOk(held, clock) && i < |held|
    ensures forall o :: o in held && TopicOf(o.message) == TopicOf(held[i].message) ==> o == held[i]
  {
  }

  lemma HoldNew(held: Held, message: ChatMessage, clock: nat, now: nat, h: HeldNotice)
    requires HeldOk(held, clock) && message.topic.Some?
    requires forall j :: 0 <= j < |held| ==> TopicOf(held[j].message) != TopicOf(message)
    requires IndexOf(held, TopicOf(message)).None?
    ensures h in HoldOne(held, message, now) <==>
              IsHoldOf(held, message, now, h)
              || (h in held && TopicOf(h.message) != TopicOf(message) && !IsPushedOut(held, message, h))
  {
    var first := HeldNotice(message, 0, now);
    assert IsHoldOf(held, message, now, h) <==> h == first;
    if |held| == 32 {
      assert held == [held[0]] + held[1..];
      assert HoldOne(held, message, now) == held[1..] + [first];
      assert held[0] !in held[1..];
    }
  }

  /** The title has the topic's name once its row is there, and the text is shown exactly when
      previews are on. */
  lemma ReadsExactly(w: World, message: ChatMessage, focused: bool, count: nat)
    requires (message.protocol, message.conversationId) in w.chats
    ensures var chat := w.chats[(message.protocol, message.conversationId)];
            var n := NotificationFor(message, chat, ContextOf(w, message, focused), count);
            && n.title == (if message.topic.Some? && TopicOf(message) in w.rows
                           then chat.title + [' ', '\U{203A}', ' '] + w.rows[TopicOf(message)].name else chat.title)
            && (!w.preview ==> IsHidden(n))
            && (w.preview ==> n.sender == if chat.isGroup then Some(message.sender) else None)
            && (w.preview && message.body != "" ==> MessageRules.Starts(n.preview, message.body))
  {
    var chat := w.chats[(message.protocol, message.conversationId)];
    MessageRules.NotificationReads(message, chat, ContextOf(w, message, focused), count);
  }

  // ----- what a release shows

  /** In every run, a hold has the last message of its topic, and a release of it puts that
      message on the topic's one notification, with the count of all that came. */
  lemma ReleaseShowsLast(steps: seq<Step>, w: World, now: nat, core: Core, i: nat)
    requires CoreOk(core) && i < |Exec(steps).held|
    requires var h := Exec(steps).held[i]; Frees(w, h, now) && Allows(core, w, h.message)
    ensures var h := Exec(steps).held[i];
            var after := Released(Exec(steps).held, w, now, core);
            && TopicOf(h.message) in Exec(steps).last && h.message == Exec(steps).last[TopicOf(h.message)]
            && ChatOf(w, h.message).Some? && TopicOf(h.message) in after.pending
            && after.pending[TopicOf(h.message)] == Raised(core, w, h.message, h.earlier + 1)
  {
    HoldHasLast(steps, i);
    ReleaseShows(Exec(steps).held, w, now, core, i);
  }

  lemma HoldHasLast(steps: seq<Step>, i: nat)
    requires i < |Exec(steps).held|
    ensures Distinct(Exec(steps).held)
    ensures var (h, last) := (Exec(steps).held[i], Exec(steps).last);
            TopicOf(h.message) in last && h.message == last[TopicOf(h.message)]
  {
    ExecOk(steps);
    assert Counts(Exec(steps).held[i], Exec(steps).since, Exec(steps).last);
  }

  lemma {:induction false} ReleaseShows(held: Held, w: World, now: nat, core: Core, i: nat)
    requires CoreOk(core) && Distinct(held) && i < |held|
    requires Frees(w, held[i], now) && Allows(core, w, held[i].message)
    ensures var after, key := Released(held, w, now, core), KeyOf(held[i].message);
            && ChatOf(w, held[i].message).Some? && key in after.pending
            && after.pending[key] == Raised(core, w, held[i].message, held[i].earlier + 1)
  {
    var n := |held| - 1;
    var before := Released(held[..n], w, now, core);
    assert held == held[..n] + [held[n]];
    ReleaseRaises(held[..n], w, now, core, KeyOf(held[i].message));
    if i < n {
      ReleaseShows(held[..n], w, now, core, i);
      ReleasedOneRaises(before, w, held[n], now, KeyOf(held[i].message));
    } else {
      NotRaised(held[..n], held[n], w, now, core);
      LastShows(core, before, w, held[n], now);
    }
  }

  /** The release of one hold that the rules let through. */
  lemma LastShows(core: Core, before: Core, w: World, h: HeldNotice, now: nat)
    requires CoreOk(before) && before.closing == core.closing && before.windowFocused == core.windowFocused
    requires CountOf(before, KeyOf(h.message)) == CountOf(core, KeyOf(h.message))
    requires Frees(w, h, now) && Allows(core, w, h.message)
    ensures var after, key := ReleasedOne(before, w, h, now), KeyOf(h.message);
            && ChatOf(w, h.message).Some? && key in after.pending
            && after.pending[key] == Raised(core, w, h.message, h.earlier + 1)
  {
    SameRaised(core, before, w, h.message, h.earlier + 1);
    NotifyTimesIs(before, w, h.message, h.earlier + 1);
  }

  lemma SameRaised(core: Core, before: Core, w: World, message: ChatMessage, times: nat)
    requires before.closing == core.closing && before.windowFocused == core.windowFocused
    requires CountOf(before, KeyOf(message)) == CountOf(core, KeyOf(message))
    requires Allows(core, w, message)
    ensures Allows(before, w, message) && ChatOf(w, message).Some?
    ensures Raised(before, w, message, times) == Raised(core, w, message, times)
  {
  }
}
