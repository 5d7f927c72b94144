/** In which form "Hide message text" leaves for a chat: as a first show or as an update
    (crates/thinwire-core/src/notify.rs, crates/thinwire-notify/src/pipe.rs). */
module HideForms {
  import opened Wrappers
  import opened Accounts
  import opened Commands
  import opened QueueCounts
  import opened Notify
  import Inboxes
  import opened InboxLimits
  import opened Workers
  import opened Pipelines
  import opened HideLimits

  /** A `Show` of the chat waits. */
  predicate HasShow(commands: Commands, k: NotifyKey) {
    exists c :: c in commands && c.Show? && c.Key() == k
  }

  // ----- in the core queue

  lemma {:induction false} TrimKeeps(commands: Commands, limit: nat, c: NotifyCommand)
    requires c in commands && c.Key() !in Dropped(commands, limit)
    ensures c in Trim(commands, limit)
    decreases |commands|
  {
    if |commands| > limit && FirstContent(commands).Some? {
      var at := FirstContent(commands).value;
      var i :| 0 <= i < |commands| && commands[i] == c;
      assert RemoveAt(commands, at)[if i < at then i else i - 1] == c;
      TrimKeeps(RemoveAt(commands, at), limit, c);
    }
  }

  /** Nothing of the chat was dropped, so it still has the same kind of content. */
  lemma TrimForm(commands: Commands, limit: nat, k: NotifyKey)
    requires k !in Dropped(commands, limit)
    ensures HasShow(Trim(commands, limit), k) <==> HasShow(commands, k)
    ensures k in ContentKeys(Trim(commands, limit)) <==> k in ContentKeys(commands)
  {
    TrimFacts(commands, limit);
    if c :| c in commands && c.Show? && c.Key() == k { TrimKeeps(commands, limit, c); }
    if c :| c in commands && c.IsContent() && c.Key() == k { TrimKeeps(commands, limit, c); }
  }

  lemma HideOneForm(core: Core, key: NotifyKey, k: NotifyKey)
    requires CoreOk(core) && k !in HideDrops1(core, key)
    ensures HasShow(HideOne(core, key).queue, k) <==> HasShow(core.queue, k)
    ensures k in ContentKeys(core.queue) || (k == key && key in Texts(core))
            ==> k in ContentKeys(HideOne(core, key).queue)
  {
    if key !in Texts(core) {
      HideSkips(core, key);
    } else if FirstShow(core.queue, key).Some? {
      HideShowForm(core, key, k);
    } else {
      var longer := HideLonger(core, key);
      HideOneLonger(core, key);
      WithoutUpdatesFacts(core.queue, key);
      TrimForm(longer, QUEUE_LIMIT, k);
      assert HasShow(longer, k) <==> HasShow(core.queue, k);
    }
  }

  lemma HideShowForm(core: Core, key: NotifyKey, k: NotifyKey)
    requires CoreOk(core) && key in Texts(core) && FirstShow(core.queue, key).Some?
    ensures HasShow(HideOne(core, key).queue, k) <==> HasShow(core.queue, k)
    ensures ContentKeys(HideOne(core, key).queue) == ContentKeys(core.queue) && key in ContentKeys(core.queue)
  {
    var at, c := FirstShow(core.queue, key).value, Show(Hidden(core.pending[key].shown));
    HideOneShow(core, key);
    Inboxes.ReplacedFacts(core.queue, at, c);
    assert core.queue[at] in core.queue && core.queue[at := c][at] == c;
    if k == key { assert c in core.queue[at := c]; }
  }

  lemma {:induction false} HideAllForm(core: Core, keys: seq<NotifyKey>, k: NotifyKey)
    requires CoreOk(core) && Among(keys, core) && Distinct(keys) && k in Texts(core)
    requires k !in HideDrops(core, keys)
    ensures HasShow(HideAll(core, keys).queue, k) <==> HasShow(core.queue, k)
    ensures k in KeySet(keys) ==> k in ContentKeys(HideAll(core, keys).queue)
  {
    if keys != [] {
      var n := |keys| - 1;
      SplitKeys(keys);
      HideAllForm(core, keys[..n], k);
      StillText(core, keys[..n], k);
      HideOneForm(HideAll(core, keys[..n]), keys[n], k);
    }
  }

  lemma StillText(core: Core, keys: seq<NotifyKey>, k: NotifyKey)
    requires CoreOk(core) && Among(keys, core) && k in Texts(core)
    ensures CoreOk(HideAll(core, keys))
    ensures k !in KeySet(keys) ==> k in Texts(HideAll(core, keys))
  {
    HidAll(core, keys);
  }

  // ----- in the inbox

  /** The chats whose content the delivery drops. */
  ghost function DeliveryDrops(inbox: Commands, commands: Commands): set<NotifyKey> {
    if commands == [] then {}
    else
      var n := |commands| - 1;
      DeliveryDrops(inbox, commands[..n]) + Inboxes.LostByPush(Inboxes.PushAll(inbox, commands[..n]), commands[n])
  }

  /** How a merge changes the form of the command's own chat, and of no other. */
  ghost predicate Forms(before: Commands, c: NotifyCommand, after: Commands, k: NotifyKey) {
    if k != c.Key() then
      && (HasShow(after, k) <==> HasShow(before, k))
      && (k in ContentKeys(after) <==> k in ContentKeys(before))
    else
      && (HasShow(after, k) <==> c.Show? || (c.Update? && HasShow(before, k)))
      && (k in ContentKeys(after) <==> c.IsContent())
  }

  lemma MergedForms(inbox: Commands, c: NotifyCommand, k: NotifyKey)
    requires Inboxes.InboxOk(inbox)
    ensures Forms(inbox, c, Inboxes.Merged(inbox, c), k)
  {
    match c {
      case Show(_) => ShowForms(inbox, c, k);
      case Update(_) => UpdateForms(inbox, c, k);
      case Dismiss(_) => WithoutContentFacts(inbox, c.Key());
    }
  }

  lemma ShowForms(inbox: Commands, c: NotifyCommand, k: NotifyKey)
    requires c.Show?
    ensures Forms(inbox, c, Inboxes.Merged(inbox, c), k)
  {
    var kept := WithoutUpdates(inbox, c.Key());
    WithoutUpdatesFacts(inbox, c.Key());
    assert HasShow(kept, k) <==> HasShow(inbox, k);
    if FirstShow(kept, c.Key()).Some? {
      var at := FirstShow(kept, c.Key()).value;
      Inboxes.ReplacedFacts(kept, at, c);
      assert kept[at] in kept && kept[at := c][at] == c && c in kept[at := c];
    } else {
      assert c in kept + [c];
    }
  }

  lemma UpdateForms(inbox: Commands, c: NotifyCommand, k: NotifyKey)
    requires Inboxes.InboxOk(inbox) && c.Update?
    ensures Forms(inbox, c, Inboxes.Merged(inbox, c), k)
  {
    var slot := Inboxes.FirstContentOf(inbox, c.Key());
    if slot.Some? {
      var at := slot.value;
      var put := if inbox[at].Show? then Show(c.notification) else c;
      Inboxes.ReplacedFacts(inbox, at, put);
      assert inbox[at] in inbox && inbox[at := put][at] == put && put in inbox[at := put];
      OneContentOf(inbox, at);
      Inboxes.ReplaceOk(inbox, at, put);
      OneContentOf(inbox[at := put], at);
    } else {
      assert c in inbox + [c];
    }
  }

  lemma OneContentOf(commands: Commands, at: nat)
    requires ContentLast(commands) && at < |commands| && commands[at].IsContent()
    ensures forall q :: q in commands && q.IsContent() && q.Key() == commands[at].Key() ==> q == commands[at]
  {
  }

  lemma PushForms(inbox: Commands, c: NotifyCommand, k: NotifyKey)
    requires Inboxes.InboxOk(inbox) && k !in Inboxes.LostByPush(inbox, c)
    ensures Forms(inbox, c, Inboxes.Push(inbox, c), k)
  {
    MergedForms(inbox, c, k);
    if !Inboxes.Joins(inbox, c) { TrimForm(Inboxes.Merged(inbox, c), Inboxes.INBOX_LIMIT, k); }
  }

  /** The form in the inbox after a delivery that drops nothing of the chat: a show, when the
      delivery has one, or when one waited and the delivery does not dismiss the chat. */
  lemma {:induction false} DeliveryForm(inbox: Commands, commands: Commands, k: NotifyKey)
    requires Inboxes.InboxOk(inbox) && ContentLast(commands) && k !in DeliveryDrops(inbox, commands)
    ensures var after := Inboxes.PushAll(inbox, commands);
            && (HasShow(after, k) <==> HasShow(commands, k) || (HasShow(inbox, k) && Dismiss(k) !in commands))
            && (k in ContentKeys(commands) ==> k in ContentKeys(after))
  {
    if commands != [] {
      var n := |commands| - 1;
      DeliveryForm(inbox, commands[..n], k);
      Inboxes.PushAllOk(inbox, commands[..n]);
      PushForms(Inboxes.PushAll(inbox, commands[..n]), commands[n], k);
      LastForm(commands, k);
    }
  }

  lemma LastForm(commands: Commands, k: NotifyKey)
    requires commands != [] && ContentLast(commands)
    ensures var head, c := commands[..|commands| - 1], commands[|commands| - 1];
            && (Dismiss(k) in commands <==> Dismiss(k) in head || c == Dismiss(k))
            && (c.Key() == k ==> !HasShow(head, k) && (HasShow(commands, k) <==> c.Show?)
                                 && (k in ContentKeys(commands) <==> c.IsContent()))
            && (c.Key() != k ==> (HasShow(commands, k) <==> HasShow(head, k))
                                 && (k in ContentKeys(commands) <==> k in ContentKeys(head)))
  {
    var head, c := commands[..|commands| - 1], commands[|commands| - 1];
    assert commands == head + [c];
    KeysAppend(head, c);
    assert forall q :: q in head && q.IsContent() ==> q.Key() != c.Key();
  }

  // ----- both

  /** No limit drops anything of the chat in the hide and its delivery. */
  ghost predicate NothingDropped(p: Pipeline, keys: seq<NotifyKey>, k: NotifyKey) {
    && k !in HideDrops(p.core, keys)
    && k !in DeliveryDrops(p.worker.inbox, HideAll(p.core, keys).queue)
  }

  /** A first show of the chat waits in the core queue, or in the inbox with no dismiss after it. */
  ghost predicate ShowWaits(p: Pipeline, k: NotifyKey) {
    HasShow(p.core.queue, k) || (HasShow(p.worker.inbox, k) && Dismiss(k) !in p.core.queue)
  }

  lemma {:induction false} ContentIsLast(commands: Commands, k: NotifyKey)
    requires ContentLast(commands) && k in ContentKeys(commands)
    ensures LastOf(commands, k).Some? && LastOf(commands, k).value.IsContent()
    ensures LastOf(commands, k).value.Show? <==> HasShow(commands, k)
  {
    var n := |commands| - 1;
    var i :| 0 <= i < |commands| && commands[i].IsContent() && commands[i].Key() == k;
    if i < n {
      assert commands[..n][i] == commands[i];
      ContentIsLast(commands[..n], k);
    } else {
      OneContentOf(commands, n);
      assert commands[n] in commands;
    }
  }

  /** For a chat with text of which nothing is dropped: its hidden content is its newest command
      after the hide and the delivery, and it is a show exactly when a first show waited. */
  lemma HiddenFormExactly(p: Pipeline, keys: seq<NotifyKey>, k: NotifyKey)
    requires PipeOk(p) && !p.worker.off && Lists(keys, p.core) && k in Texts(p.core) && NothingDropped(p, keys, k)
    ensures var c := LastOf(Backlog(HideThenDeliver(p, keys)), k);
            && c.Some? && c.value.IsContent() && IsHidden(c.value.notification)
            && (c.value.Show? <==> ShowWaits(p, k))
  {
    var core, after := HideAll(p.core, keys), HideThenDeliver(p, keys);
    ListedKeys(p.core, keys);
    HideThenDeliverIs(p, keys);
    HideAllOk(p.core, keys);
    HideAllForm(p.core, keys, k);
    HideAllDismisses(p.core, keys);
    DismissIn(core.queue, p.core.queue, k);
    DeliveryForm(p.worker.inbox, core.queue, k);
    Inboxes.PushAllOk(p.worker.inbox, core.queue);
    ContentIsLast(after.worker.inbox, k);
    NewestIsLast(after, k);
    HiddenInInbox(p, keys, k);
  }

  lemma DismissIn(a: Commands, b: Commands, k: NotifyKey)
    requires DismissKeys(a) == DismissKeys(b)
    ensures Dismiss(k) in a <==> Dismiss(k) in b
  {
    assert k in DismissKeys(a) <==> Dismiss(k) in a;
    assert k in DismissKeys(b) <==> Dismiss(k) in b;
  }

  /** A delivery that drops nothing of the chat leaves the text of its newest content. */
  lemma {:induction false} DeliveryText(inbox: Commands, commands: Commands, k: NotifyKey)
    requires Inboxes.InboxOk(inbox) && k !in DeliveryDrops(inbox, commands) && LastOf(commands, k).Some?
    ensures SameOrder(LastOf(Inboxes.PushAll(inbox, commands), k), LastOf(commands, k).value)
  {
    var n := |commands| - 1;
    Inboxes.PushAllOk(inbox, commands[..n]);
    InboxPushLast(Inboxes.PushAll(inbox, commands[..n]), commands[n], k);
    if commands[n].Key() != k { DeliveryText(inbox, commands[..n], k); }
  }

  lemma HiddenInInbox(p: Pipeline, keys: seq<NotifyKey>, k: NotifyKey)
    requires PipeOk(p) && Lists(keys, p.core)
    requires k in ContentKeys(HideAll(p.core, keys).queue)
    requires k !in DeliveryDrops(p.worker.inbox, HideAll(p.core, keys).queue)
    ensures var c := LastOf(Inboxes.PushAll(p.worker.inbox, HideAll(p.core, keys).queue), k);
            c.Some? && c.value.IsContent() && IsHidden(c.value.notification)
  {
    var queue := HideAll(p.core, keys).queue;
    HideAllOk(p.core, keys);
    HidePreviewsHides(p.core, keys);
    ContentIsLast(queue, k);
    LastOfIsThere(queue, k);
    DeliveryText(p.worker.inbox, queue, k);
  }
}
