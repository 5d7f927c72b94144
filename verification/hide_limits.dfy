/** When "Hide message text" reaches every chat: the loop over all pending chats
    (notify.rs), the delivery into the inbox (pipe.rs), and the screen after both. */
module HideLimits {
  import opened Wrappers
  import opened Accounts
  import opened Commands
  import opened QueueCounts
  import opened Notify
  import Inboxes
  import opened InboxLimits
  import opened Workers
  import opened Pipelines
  import opened PipelinePromises

  ghost function KeySet(keys: seq<NotifyKey>): set<NotifyKey> {
    set k | k in keys
  }

  ghost predicate Among(keys: seq<NotifyKey>, core: Core) {
    KeySet(keys) <= core.pending.Keys
  }

  ghost predicate Distinct(keys: seq<NotifyKey>) {
    forall i, j :: 0 <= i < j < |keys| ==> keys[i] != keys[j]
  }

  lemma SplitKeys(keys: seq<NotifyKey>)
    requires keys != []
    ensures KeySet(keys) == KeySet(keys[..|keys| - 1]) + {keys[|keys| - 1]}
    ensures Distinct(keys) ==> Distinct(keys[..|keys| - 1]) && keys[|keys| - 1] !in KeySet(keys[..|keys| - 1])
  {
    var n := |keys| - 1;
    assert keys == keys[..n] + [keys[n]];
  }

  lemma ListedKeys(core: Core, keys: seq<NotifyKey>)
    requires Lists(keys, core)
    ensures KeySet(keys) == core.pending.Keys && Distinct(keys)
  {
  }

  /** The pending chats whose notification has text or a sender: the loop hides these. */
  ghost function Texts(core: Core): set<NotifyKey> {
    set k | k in core.pending && !IsHidden(core.pending[k].shown)
  }

  /** Of these, the chats with no queued content. Each costs the queue one more command. */
  ghost function Unqueued(core: Core): set<NotifyKey> {
    Texts(core) - ContentKeys(core.queue)
  }

  /** The chats whose content one iteration of the loop drops. */
  ghost function HideDrops1(core: Core, key: NotifyKey): set<NotifyKey> {
    if key !in Texts(core) || FirstShow(core.queue, key).Some? then {}
    else Notify.LostByPush(WithoutUpdates(core.queue, key), Update(Hidden(core.pending[key].shown)))
  }

  ghost function HideDrops(core: Core, keys: seq<NotifyKey>): set<NotifyKey> {
    if keys == [] then {}
    else HideDrops(core, keys[..|keys| - 1]) + HideDrops1(HideAll(core, keys[..|keys| - 1]), keys[|keys| - 1])
  }

  /** Every chat that had text has its hidden content in the queue. */
  ghost predicate AllQueued(core: Core, after: Core) {
    Texts(core) <= ContentKeys(after.queue)
  }

  lemma {:induction false} StaleAfterHide(p: Pipeline, keys: seq<NotifyKey>)
    ensures HidesAll(p, keys).core == HideAll(p.core, keys)
    ensures HidesAll(p, keys).stale == p.stale + HideDrops(p.core, keys)
  {
    if keys != [] { StaleAfterHide(p, keys[..|keys| - 1]); }
  }

  // ----- one iteration

  lemma HideOneTexts(core: Core, key: NotifyKey)
    ensures Texts(HideOne(core, key)) == Texts(core) - {key}
  {
  }

  lemma HideOneShow(core: Core, key: NotifyKey)
    requires CoreOk(core) && key in Texts(core) && FirstShow(core.queue, key).Some?
    ensures Dismisses(HideOne(core, key).queue) == Dismisses(core.queue)
    ensures ContentKeys(HideOne(core, key).queue) == ContentKeys(core.queue) && key in ContentKeys(core.queue)
    ensures |HideOne(core, key).queue| == |core.queue|
  {
    var at := FirstShow(core.queue, key).value;
    var queue, hidden := core.queue, Show(Hidden(core.pending[key].shown));
    Inboxes.DismissesReplace(queue, at, hidden);
    assert queue[at] in queue;
    var after := queue[at := hidden];
    assert forall i :: 0 <= i < |queue|
             ==> after[i].Key() == queue[i].Key() && after[i].IsContent() == queue[i].IsContent();
    SameKeys(queue, after);
  }

  lemma SameKeys(a: Commands, b: Commands)
    requires |a| == |b|
    requires forall i :: 0 <= i < |a| ==> b[i].Key() == a[i].Key() && b[i].IsContent() == a[i].IsContent()
    ensures ContentKeys(a) == ContentKeys(b)
  {
    forall k ensures k in ContentKeys(a) <==> k in ContentKeys(b) {
      if k in ContentKeys(a) {
        var i :| 0 <= i < |a| && a[i].IsContent() && a[i].Key() == k;
        assert b[i] in b;
      }
      if k in ContentKeys(b) {
        var i :| 0 <= i < |b| && b[i].IsContent() && b[i].Key() == k;
        assert a[i] in a;
      }
    }
  }

  lemma UpdateJoins(queue: Commands, n: Notification)
    requires ContentLast(queue) && FirstShow(queue, n.key).None?
    ensures var longer := WithoutUpdates(queue, n.key) + [Update(n)];
            && ContentLast(longer)
            && ContentKeys(longer) == ContentKeys(queue) + {n.key}
            && Dismisses(longer) == Dismisses(queue)
  {
    var kept := WithoutUpdates(queue, n.key);
    WithoutUpdatesFacts(queue, n.key);
    WithoutUpdatesKeys(queue, n.key);
    Inboxes.DismissesWithout(queue, n.key);
    KeysAppend(kept, Update(n));
    ContentAppended(kept, Update(n));
  }

  lemma ContentAppended(kept: Commands, c: NotifyCommand)
    requires ContentLast(kept) && forall q :: q in kept && q.IsContent() ==> q.Key() != c.Key()
    ensures ContentLast(kept + [c])
  {
    var longer := kept + [c];
    forall i, j | 0 <= i < j < |longer| && longer[i].IsContent() ensures longer[i].Key() != longer[j].Key() {
      assert longer[i] == kept[i] && kept[i] in kept;
    }
  }

  /** The queue before the limit when a hidden `Update` joins it. */
  ghost function HideLonger(core: Core, key: NotifyKey): Commands
    requires key in core.pending
  {
    WithoutUpdates(core.queue, key) + [Update(Hidden(core.pending[key].shown))]
  }

  lemma HideOneLonger(core: Core, key: NotifyKey)
    requires CoreOk(core) && key in Texts(core) && FirstShow(core.queue, key).None?
    ensures ContentLast(HideLonger(core, key))
    ensures ContentKeys(HideLonger(core, key)) == ContentKeys(core.queue) + {key}
    ensures Dismisses(HideLonger(core, key)) == Dismisses(core.queue)
    ensures HideDrops1(core, key) == Dropped(HideLonger(core, key), QUEUE_LIMIT)
    ensures HideOne(core, key).queue == Trim(HideLonger(core, key), QUEUE_LIMIT)
  {
    assert core.pending[key].shown.key == key;
    UpdateJoins(core.queue, Hidden(core.pending[key].shown));
  }

  /** What one iteration does to the queue in numbers. */
  lemma HideOneCounts(core: Core, key: NotifyKey)
    requires CoreOk(core) && key in Texts(core)
    ensures var after := HideOne(core, key);
            && Dismisses(after.queue) == Dismisses(core.queue)
            && ContentKeys(after.queue) == ContentKeys(core.queue) + {key} - HideDrops1(core, key)
    ensures HideDrops1(core, key) == {} <==> key in ContentKeys(core.queue) || |core.queue| < QUEUE_LIMIT
  {
    QueueLength(core.queue);
    if FirstShow(core.queue, key).Some? {
      HideOneShow(core, key);
    } else {
      HideOneLonger(core, key);
      QueueLength(HideLonger(core, key));
      TrimKeys(HideLonger(core, key), QUEUE_LIMIT);
      DropsNothing(HideLonger(core, key), QUEUE_LIMIT);
      if key in ContentKeys(core.queue) {
        assert ContentKeys(core.queue) + {key} == ContentKeys(core.queue);
        NoContent(core.queue);
      }
    }
  }

  // ----- the loop drops nothing

  /** What the loop has done after `keys` of the pending chats, while it dropped nothing. */
  ghost predicate Hid(core: Core, keys: seq<NotifyKey>, after: Core) {
    && CoreOk(after) && after.pending.Keys == core.pending.Keys
    && Texts(after) == Texts(core) - KeySet(keys)
    && Dismisses(after.queue) == Dismisses(core.queue)
    && (HideDrops(core, keys) == {}
        ==> ContentKeys(after.queue) == ContentKeys(core.queue) + (Texts(core) * KeySet(keys)))
  }

  lemma HideSkips(core: Core, key: NotifyKey)
    requires key !in Texts(core)
    ensures HideOne(core, key) == core && HideDrops1(core, key) == {}
  {
  }

  lemma {:induction false} HidAll(core: Core, keys: seq<NotifyKey>)
    requires CoreOk(core) && Among(keys, core)
    ensures Hid(core, keys, HideAll(core, keys))
  {
    if keys != [] {
      var n := |keys| - 1;
      SplitKeys(keys);
      var before := HideAll(core, keys[..n]);
      HidAll(core, keys[..n]);
      HideAllOk(core, keys);
      HideOneTexts(before, keys[n]);
      if keys[n] in Texts(before) { HideOneCounts(before, keys[n]); } else { HideSkips(before, keys[n]); }
      OneMoreText(Texts(core), KeySet(keys[..n]), keys[n]);
    }
  }

  lemma OneMoreText(texts: set<NotifyKey>, head: set<NotifyKey>, last: NotifyKey)
    ensures texts * (head + {last}) == if last in texts - head then texts * head + {last} else texts * head
    ensures texts - (head + {last}) == texts - head - {last}
  {
  }

  lemma JoinSize(queued: set<NotifyKey>, texts: set<NotifyKey>, head: set<NotifyKey>)
    ensures |queued + texts * head| == |queued| + |(texts - queued) * head|
  {
    var more := (texts - queued) * head;
    assert queued + texts * head == queued + more;
    assert |queued + more| == |queued| + |more|;
  }

  lemma FitLength(core: Core, keys: seq<NotifyKey>)
    requires CoreOk(core) && Among(keys, core)
    requires HideDrops(core, keys) == {}
    ensures |HideAll(core, keys).queue| == |core.queue| + |Unqueued(core) * KeySet(keys)|
    ensures ContentKeys(HideAll(core, keys).queue) == ContentKeys(core.queue) + (Texts(core) * KeySet(keys))
  {
    var after := HideAll(core, keys);
    HidAll(core, keys);
    QueueLength(core.queue);
    QueueLength(after.queue);
    JoinSize(ContentKeys(core.queue), Texts(core), KeySet(keys));
  }

  /** The loop so far dropped nothing exactly when what it added fits. */
  lemma {:induction false} FitsSoFar(core: Core, keys: seq<NotifyKey>)
    requires CoreOk(core) && Among(keys, core)
    requires Distinct(keys)
    ensures HideDrops(core, keys) == {} <==> Fits(core, Unqueued(core) * KeySet(keys))
  {
    if keys != [] {
      var n := |keys| - 1;
      SplitKeys(keys);
      FitsSoFar(core, keys[..n]);
      if HideDrops(core, keys[..n]) == {} {
        LastDrops(core, keys[..n], keys[n]);
        OneMore(Unqueued(core), KeySet(keys[..n]), keys[n]);
      } else {
        SubsetSize(Unqueued(core) * KeySet(keys[..n]), Unqueued(core) * KeySet(keys));
      }
    }
  }

  ghost predicate Fits(core: Core, needing: set<NotifyKey>) {
    needing == {} || |core.queue| + |needing| <= QUEUE_LIMIT
  }

  lemma LastDrops(core: Core, head: seq<NotifyKey>, last: NotifyKey)
    requires CoreOk(core) && Among(head, core) && last !in KeySet(head)
    requires HideDrops(core, head) == {}
    ensures HideDrops1(HideAll(core, head), last) == {}
            <==> last !in Unqueued(core) || |core.queue| + |Unqueued(core) * KeySet(head)| < QUEUE_LIMIT
  {
    var before := HideAll(core, head);
    HidAll(core, head);
    FitLength(core, head);
    if last in Texts(core) {
      assert last in Texts(before);
      HideOneCounts(before, last);
    } else {
      HideSkips(before, last);
    }
  }

  lemma OneMore(all: set<NotifyKey>, head: set<NotifyKey>, last: NotifyKey)
    requires last !in head
    ensures last in all ==> all * (head + {last}) == all * head + {last} && |all * (head + {last})| == |all * head| + 1
    ensures last !in all ==> all * (head + {last}) == all * head
  {
    assert last in all ==> all * (head + {last}) == all * head + {last};
    assert last !in all ==> all * (head + {last}) == all * head;
  }

  /** "Hide message text" drops no command, whatever the order of the chats, exactly when
      no chat with text needs room in the queue or all that need it fit. */
  lemma HideDropsNothingExactly(core: Core, keys: seq<NotifyKey>)
    requires CoreOk(core) && Lists(keys, core)
    ensures HideDrops(core, keys) == {}
            <==> Unqueued(core) == {} || |core.queue| + |Unqueued(core)| <= QUEUE_LIMIT
  {
    ListedKeys(core, keys);
    FitsSoFar(core, keys);
    assert Unqueued(core) * KeySet(keys) == Unqueued(core);
  }

  // ----- every text gets its update

  /** No chat with text waits in the queue with its first `Show`. */
  ghost predicate NoTextShow(core: Core) {
    forall c :: c in core.queue && c.Show? ==> c.Key() !in Texts(core)
  }

  /** Every chat with queued content has text. */
  ghost predicate OnlyTextQueued(core: Core) {
    ContentKeys(core.queue) <= Texts(core)
  }

  /** However the chats are ordered: hidden content for every chat with text in the queue
      means that it fits beside the dismisses. */
  lemma HiddenContentFits(core: Core, keys: seq<NotifyKey>)
    requires CoreOk(core) && Lists(keys, core) && AllQueued(core, HideAll(core, keys))
    ensures Texts(core) == {} || Dismisses(core.queue) + |Texts(core)| <= QUEUE_LIMIT
  {
    var after := HideAll(core, keys);
    ListedKeys(core, keys);
    HidAll(core, keys);
    QueueLength(after.queue);
    NoContent(after.queue);
    SubsetSize(Texts(core), ContentKeys(after.queue));
  }

  /** The hidden updates of the chats so far come after all other content. */
  ghost predicate Trails(core: Core, done: set<NotifyKey>, after: Core) {
    && done <= ContentKeys(after.queue) && Trailing(after.queue, done)
    && NoTextShow(after)
  }

  lemma TrailStep(core: Core, key: NotifyKey, done: set<NotifyKey>)
    requires CoreOk(core) && key in Texts(core) && Trails(core, done, core)
    requires Dismisses(core.queue) + |done + {key}| <= QUEUE_LIMIT
    ensures Trails(core, done + {key}, HideOne(core, key))
  {
    var kept := WithoutUpdates(core.queue, key);
    var c := Update(Hidden(core.pending[key].shown));
    var longer := HideLonger(core, key);
    assert FirstShow(core.queue, key).None?;
    HideOneLonger(core, key);
    WithoutUpdatesFacts(core.queue, key);
    TrailingWithout(core.queue, key, done);
    assert key !in ContentKeys(kept);
    TrailingAppend(kept, c, done);
    TrimSparesLast(longer, QUEUE_LIMIT, done + {key});
    TrimFacts(longer, QUEUE_LIMIT);
    HideOneTexts(core, key);
  }

  lemma {:induction false} TrailsAll(core: Core, keys: seq<NotifyKey>)
    requires CoreOk(core) && Among(keys, core) && NoTextShow(core)
    requires Distinct(keys)
    requires Dismisses(core.queue) + |Texts(core)| <= QUEUE_LIMIT
    ensures Trails(core, Texts(core) * KeySet(keys), HideAll(core, keys))
  {
    if keys == [] {
      assert Texts(core) * KeySet(keys) == {};
    } else {
      var n := |keys| - 1;
      SplitKeys(keys);
      var before, done := HideAll(core, keys[..n]), Texts(core) * KeySet(keys[..n]);
      TrailsAll(core, keys[..n]);
      HidAll(core, keys[..n]);
      OneMoreText(Texts(core), KeySet(keys[..n]), keys[n]);
      if keys[n] in Texts(before) {
        SubsetSize(done + {keys[n]}, Texts(core));
        TrailStep(before, keys[n], done);
      } else {
        HideSkips(before, keys[n]);
      }
    }
  }

  lemma TextAloneFits(core: Core, keys: seq<NotifyKey>)
    requires CoreOk(core) && Lists(keys, core) && OnlyTextQueued(core)
    requires Dismisses(core.queue) + |Texts(core)| <= QUEUE_LIMIT
    ensures AllQueued(core, HideAll(core, keys))
  {
    RoomForTexts(core);
    HideDropsNothingExactly(core, keys);
    ListedKeys(core, keys);
    HidAll(core, keys);
    assert Texts(core) * KeySet(keys) == Texts(core);
  }

  lemma RoomForTexts(core: Core)
    requires ContentLast(core.queue) && OnlyTextQueued(core)
    ensures |core.queue| + |Unqueued(core)| == Dismisses(core.queue) + |Texts(core)|
  {
    var queued, texts := ContentKeys(core.queue), Texts(core);
    QueueLength(core.queue);
    JoinSize(queued, texts, texts);
    assert queued + texts * texts == texts;
    assert Unqueued(core) * texts == Unqueued(core);
  }

  /** The loop leaves hidden content in the queue for every chat with text exactly when
      the queued dismisses and the chats with text are at most the limit. This holds when
      no content that was hidden before waits in the queue, and also when no chat with text
      waits with a `Show`. With both, the order of the chats decides (`OrderDecides`). */
  lemma AllHidesQueuedExactly(core: Core, keys: seq<NotifyKey>)
    requires CoreOk(core) && Lists(keys, core)
    requires OnlyTextQueued(core) || NoTextShow(core)
    ensures AllQueued(core, HideAll(core, keys))
            <==> Texts(core) == {} || Dismisses(core.queue) + |Texts(core)| <= QUEUE_LIMIT
  {
    if AllQueued(core, HideAll(core, keys)) { HiddenContentFits(core, keys); }
    if Dismisses(core.queue) + |Texts(core)| <= QUEUE_LIMIT {
      if OnlyTextQueued(core) {
        TextAloneFits(core, keys);
      } else {
        ListedKeys(core, keys);
        TrailsAll(core, keys);
        assert Texts(core) * KeySet(keys) == Texts(core);
      }
    }
  }

  /** Iteration `i` drops no content of a chat that the loop has hidden up to then. */
  ghost predicate SparesHidden(core: Core, keys: seq<NotifyKey>, i: nat)
    requires i < |keys|
  {
    HideDrops1(HideAll(core, keys[..i]), keys[i]) !! Texts(core) * KeySet(keys[..i + 1])
  }

  ghost predicate AllSpare(core: Core, keys: seq<NotifyKey>) {
    forall i :: 0 <= i < |keys| ==> SparesHidden(core, keys, i)
  }

  /** One more iteration in terms of what it adds and drops. */
  lemma SpareStep(so: set<NotifyKey>, more: set<NotifyKey>, key: NotifyKey, drops: set<NotifyKey>,
                  before: set<NotifyKey>, after: set<NotifyKey>)
    requires key !in so && more == so + {key} && after == before + {key} - drops
    ensures more <= after <==> so <= before && drops !! more
  {
  }

  lemma {:induction false} SparesSoFar(core: Core, keys: seq<NotifyKey>)
    requires CoreOk(core) && Among(keys, core) && Distinct(keys)
    ensures Texts(core) * KeySet(keys) <= ContentKeys(HideAll(core, keys).queue) <==> AllSpare(core, keys)
  {
    if keys != [] {
      var n := |keys| - 1;
      var before := HideAll(core, keys[..n]);
      SplitKeys(keys);
      SparesSoFar(core, keys[..n]);
      HidAll(core, keys[..n]);
      OneMoreText(Texts(core), KeySet(keys[..n]), keys[n]);
      SpareSplit(core, keys);
      if keys[n] in Texts(before) {
        HideOneCounts(before, keys[n]);
        SpareStep(Texts(core) * KeySet(keys[..n]), Texts(core) * KeySet(keys), keys[n], HideDrops1(before, keys[n]),
                  ContentKeys(before.queue), ContentKeys(HideAll(core, keys).queue));
      } else {
        HideSkips(before, keys[n]);
      }
    }
  }

  lemma SpareSplit(core: Core, keys: seq<NotifyKey>)
    requires keys != []
    ensures var n := |keys| - 1;
            && keys[..n + 1] == keys
            && (AllSpare(core, keys) <==> AllSpare(core, keys[..n]) && SparesHidden(core, keys, n))
  {
    var n := |keys| - 1;
    forall i | 0 <= i < n ensures SparesHidden(core, keys, i) <==> SparesHidden(core, keys[..n], i) {
      assert keys[..n][..i] == keys[..i] && keys[..n][..i + 1] == keys[..i + 1];
    }
  }

  /** For every queue and every order of the chats: each chat with text keeps its hidden content
      in the queue exactly when no iteration drops a chat that the loop has already hidden. */
  lemma HidesInOrderExactly(core: Core, keys: seq<NotifyKey>)
    requires CoreOk(core) && Lists(keys, core)
    ensures AllQueued(core, HideAll(core, keys)) <==> AllSpare(core, keys)
  {
    ListedKeys(core, keys);
    SparesSoFar(core, keys);
    assert Texts(core) * KeySet(keys) == Texts(core);
  }

  // ----- the screen after the delivery

  /** No command of the chat waits or runs. */
  ghost predicate Quiet(p: Pipeline, k: NotifyKey) {
    && !HasCommandOf(p.core.queue, k) && !HasCommandOf(p.worker.inbox, k)
    && (p.worker.running.Some? ==> p.worker.running.value.Key() != k)
  }

  /** Each chat with text is quiet, and its text is on the screen. */
  ghost predicate TextsAreShown(p: Pipeline) {
    forall k :: k in Texts(p.core) ==> Quiet(p, k) && k in p.screen && !IsHidden(p.screen[k])
  }

  ghost function HideThenDeliver(p: Pipeline, keys: seq<NotifyKey>): Pipeline {
    Apply(Apply(p, HidePreviews(keys)), Deliver)
  }

  /** Room for the hidden updates in the core queue, and then in the inbox. */
  ghost predicate RoomToHide(p: Pipeline) {
    && Dismisses(p.core.queue) + |Texts(p.core)| <= QUEUE_LIMIT
    && |DismissesAfter(p.worker.inbox, p.core.queue)| + |Texts(p.core)| <= Inboxes.INBOX_LIMIT
  }

  lemma {:induction false} DeliversScreen(p: Pipeline)
    ensures Delivers(p).screen == p.screen
    decreases |p.core.queue|
  {
    if p.core.queue != [] { DeliversScreen(Delivers1(p)); }
  }

  lemma HideThenDeliverIs(p: Pipeline, keys: seq<NotifyKey>)
    requires PipeOk(p) && !p.worker.off && Lists(keys, p.core)
    ensures var after := HideThenDeliver(p, keys);
            && after.screen == p.screen && after.core.queue == [] && after.worker.running == p.worker.running
            && after.worker.inbox == Inboxes.PushAll(p.worker.inbox, HideAll(p.core, keys).queue)
  {
    HidesAllOk(p, keys);
    DeliversOk(HidesAll(p, keys));
    DeliversScreen(HidesAll(p, keys));
  }

  lemma HideOneDismisses(core: Core, key: NotifyKey)
    ensures DismissKeys(HideOne(core, key).queue) == DismissKeys(core.queue)
  {
    if key in core.pending && !IsHidden(core.pending[key].shown) {
      if FirstShow(core.queue, key).Some? {
        var at, c := FirstShow(core.queue, key).value, Show(Hidden(core.pending[key].shown));
        Inboxes.ReplacedFacts(core.queue, at, c);
      } else {
        WithoutUpdatesFacts(core.queue, key);
        TrimFacts(HideLonger(core, key), QUEUE_LIMIT);
      }
    }
    SameDismisses(core.queue, HideOne(core, key).queue);
  }

  lemma SameDismisses(a: Commands, b: Commands)
    requires forall k :: Dismiss(k) in a <==> Dismiss(k) in b
    ensures DismissKeys(a) == DismissKeys(b)
  {
    forall k ensures k in DismissKeys(a) <==> k in DismissKeys(b) {
      assert k in DismissKeys(a) <==> Dismiss(k) in a;
      assert k in DismissKeys(b) <==> Dismiss(k) in b;
    }
  }

  lemma {:induction false} HideAllDismisses(core: Core, keys: seq<NotifyKey>)
    ensures DismissKeys(HideAll(core, keys).queue) == DismissKeys(core.queue)
  {
    if keys != [] {
      HideAllDismisses(core, keys[..|keys| - 1]);
      HideOneDismisses(HideAll(core, keys[..|keys| - 1]), keys[|keys| - 1]);
    }
  }

  /** A shown chat whose only waiting commands bring hidden text ends hidden exactly when
      one waits. */
  lemma ShownChatEnds(screen: Screen, running: Commands, inbox: Commands, k: NotifyKey)
    requires k in screen && !IsHidden(screen[k]) && forall q :: q in running ==> q.Key() != k
    requires forall q :: q in inbox && q.Key() == k ==> q.IsContent() && IsHidden(q.notification)
    ensures var end := RunAll(screen, running + inbox);
            k in end && (IsHidden(end[k]) <==> k in ContentKeys(inbox))
  {
    StaysShown(screen, running + inbox, k);
    ScreenAfter(screen, running + inbox, k);
    LastOfConcat(running, inbox, k);
    LastOfIsThere(running, k);
    LastOfIsThere(inbox, k);
  }

  lemma WhatWaits(p: Pipeline, keys: seq<NotifyKey>, k: NotifyKey)
    requires PipeOk(p) && Lists(keys, p.core) && k in Texts(p.core) && Quiet(p, k)
    ensures var inbox := Inboxes.PushAll(p.worker.inbox, HideAll(p.core, keys).queue);
            && (forall q :: q in inbox && q.Key() == k ==> q.IsContent() && IsHidden(q.notification))
            && (k in ContentKeys(inbox) ==> k in ContentKeys(HideAll(p.core, keys).queue))
  {
    var hidden := HideAll(p.core, keys);
    HideAllOk(p.core, keys);
    HidePreviewsHides(p.core, keys);
    HideAllDismisses(p.core, keys);
    Inboxes.PushAllCarries(p.worker.inbox, hidden.queue);
    PushAllKeys(p.worker.inbox, hidden.queue);
    var inbox := Inboxes.PushAll(p.worker.inbox, hidden.queue);
    assert k !in DismissKeys(p.core.queue) && k !in DismissKeys(p.worker.inbox);
    forall q | q in inbox && q.Key() == k ensures q.IsContent() && IsHidden(q.notification) {
      assert q.Dismiss? ==> q.Key() in DismissKeys(inbox);
      var c :| c in hidden.queue && Inboxes.Carries(q, c);
    }
    assert k !in ContentKeys(p.worker.inbox);
  }

  /** All chats with text have their hidden content in the inbox exactly when there is room
      in both queues. */
  lemma RoomExactly(p: Pipeline, keys: seq<NotifyKey>)
    requires PipeOk(p) && Lists(keys, p.core) && TextsAreShown(p)
    ensures Keeps(p.worker.inbox, HideAll(p.core, keys).queue, Texts(p.core))
            <==> Texts(p.core) == {} || RoomToHide(p)
  {
    var texts, queue := Texts(p.core), HideAll(p.core, keys).queue;
    forall k | k in texts ensures Keeps(p.worker.inbox, queue, texts) ==> k in ContentKeys(queue) {
      WhatWaits(p, keys, k);
    }
    assert NoTextShow(p.core);
    AllHidesQueuedExactly(p.core, keys);
    if AllQueued(p.core, HideAll(p.core, keys)) && texts != {} {
      ListedKeys(p.core, keys);
      TrailsAll(p.core, keys);
      assert texts * KeySet(keys) == texts;
      HideAllOk(p.core, keys);
      assert texts !! ContentKeys(p.worker.inbox);
      HideAllDismisses(p.core, keys);
      DeliveryKeepsExactly(p.worker.inbox, queue, texts);
    }
  }

  /** "Hide message text" and the next delivery take all shown text off the screen exactly
      when the chats with text fit beside the dismisses, in the core queue and in the inbox.
      All hidden content is an update here. On the freedesktop backend an update closes the
      notifications of a chat that has unwatched ones alone, so the chat is then off the screen. */
  lemma HideReachesScreenExactly(p: Pipeline, keys: seq<NotifyKey>)
    requires PipeOk(p) && !p.worker.off && Lists(keys, p.core) && TextsAreShown(p)
    ensures var after := HideThenDeliver(p, keys);
            var end := RunAll(after.screen, Backlog(after));
            && (forall k :: k in Texts(p.core) ==> k in end)
            && ((forall k :: k in Texts(p.core) ==> IsHidden(end[k])) <==> Texts(p.core) == {} || RoomToHide(p))
  {
    var after := HideThenDeliver(p, keys);
    var running := if p.worker.running.Some? then [p.worker.running.value] else [];
    HideThenDeliverIs(p, keys);
    assert Backlog(after) == running + after.worker.inbox;
    forall k | k in Texts(p.core)
      ensures k in RunAll(after.screen, Backlog(after))
      ensures IsHidden(RunAll(after.screen, Backlog(after))[k]) <==> k in ContentKeys(after.worker.inbox)
    {
      WhatWaits(p, keys, k);
      ShownChatEnds(p.screen, running, after.worker.inbox, k);
    }
    RoomExactly(p, keys);
  }

  // ----- room for everything

  lemma {:induction false} ShortDeliveryLosesNothing(p: Pipeline)
    requires PipeOk(p) && |p.worker.inbox| + |p.core.queue| <= Inboxes.INBOX_LIMIT
    ensures Delivers(p).stale == p.stale
    decreases |p.core.queue|
  {
    if p.core.queue != [] {
      Inboxes.MergedShape(p.worker.inbox, p.core.queue[0]);
      assert Inboxes.LostByPush(p.worker.inbox, p.core.queue[0]) == {};
      Delivers1Ok(p);
      ShortDeliveryLosesNothing(Delivers1(p));
    }
  }

  lemma RoomyHideKeepsAll(p: Pipeline, keys: seq<NotifyKey>)
    requires CoreOk(p.core) && Lists(keys, p.core) && |p.core.queue| + |Unqueued(p.core)| <= QUEUE_LIMIT
    ensures HidesAll(p, keys).stale == p.stale
    ensures |HidesAll(p, keys).core.queue| == |p.core.queue| + |Unqueued(p.core)|
  {
    HideDropsNothingExactly(p.core, keys);
    ListedKeys(p.core, keys);
    FitLength(p.core, keys);
    assert Unqueued(p.core) * KeySet(keys) == Unqueued(p.core);
    StaleAfterHide(p, keys);
  }

  lemma RoomyHideLosesNothing(p: Pipeline, keys: seq<NotifyKey>)
    requires PipeOk(p) && Lists(keys, p.core)
    requires |p.worker.inbox| + |p.core.queue| + |Unqueued(p.core)| <= QUEUE_LIMIT
    ensures HideThenDeliver(p, keys).stale == p.stale
  {
    RoomyHideKeepsAll(p, keys);
    HidesAllOk(p, keys);
    ShortDeliveryLosesNothing(HidesAll(p, keys));
  }

  lemma {:induction false} HidesGaveUp(p: Pipeline, keys: seq<NotifyKey>)
    ensures HidesAll(p, keys).gaveUp == p.gaveUp
  {
    if keys != [] { HidesGaveUp(p, keys[..|keys| - 1]); }
  }

  lemma {:induction false} DeliversGaveUp(p: Pipeline)
    ensures Delivers(p).gaveUp == p.gaveUp
    decreases |p.core.queue|
  {
    if p.core.queue != [] { DeliversGaveUp(Delivers1(p)); }
  }

  lemma HiddenPipe(p: Pipeline, keys: seq<NotifyKey>)
    requires PipeOk(p) && Lists(keys, p.core)
    ensures var hidden := HidesAll(p, keys);
            && PipeOk(hidden) && hidden.worker == p.worker && hidden.gaveUp == p.gaveUp
            && AllHidden(hidden.core) && hidden.core.pending.Keys == p.core.pending.Keys
  {
    HidesAllOk(p, keys);
    HideAllOk(p.core, keys);
    HidePreviewsHides(p.core, keys);
    HidesGaveUp(p, keys);
  }

  lemma HideThenDeliverOk(p: Pipeline, keys: seq<NotifyKey>)
    requires PipeOk(p) && !p.worker.off && Lists(keys, p.core)
    ensures var after := HideThenDeliver(p, keys);
            && PipeOk(after) && !after.worker.off && AllHidden(after.core)
            && after.core.pending.Keys == p.core.pending.Keys && after.gaveUp == p.gaveUp
  {
    HiddenPipe(p, keys);
    assert HideThenDeliver(p, keys) == Delivers(HidesAll(p, keys));
    DeliveredPipe(HidesAll(p, keys));
  }

  lemma DeliveredPipe(p: Pipeline)
    requires PipeOk(p) && !p.worker.off && AllHidden(p.core)
    ensures var after := Delivers(p);
            && PipeOk(after) && !after.worker.off && AllHidden(after.core)
            && after.core.pending == p.core.pending && after.gaveUp == p.gaveUp
  {
    DeliversOk(p);
    DeliversGaveUp(p);
  }

  /** In every state, whatever waits or runs, where a show replaces the notification of its
      chat: with room for one more command of each chat with text, nothing new is lost, and the
      screen ends without text. */
  lemma RoomyHideReachesScreen(p: Pipeline, keys: seq<NotifyKey>, k: NotifyKey)
    requires PipeOk(p) && !p.worker.off && Lists(keys, p.core)
    requires |p.worker.inbox| + |p.core.queue| + |Unqueued(p.core)| <= QUEUE_LIMIT
    ensures var after := HideThenDeliver(p, keys);
            var end := RunAll(after.screen, Backlog(after));
            k in end && k !in p.stale && k !in p.gaveUp ==> IsHidden(end[k])
  {
    RoomyHideLosesNothing(p, keys);
    HideThenDeliverOk(p, keys);
    EndIsHidden(HideThenDeliver(p, keys), k);
  }

  lemma EndIsHidden(p: Pipeline, k: NotifyKey)
    requires PipeOk(p) && !p.worker.off && AllHidden(p.core)
    ensures var end := RunAll(p.screen, Backlog(p));
            k in end && k !in p.stale && k !in p.gaveUp ==> IsHidden(end[k])
  {
    if k in RunAll(p.screen, Backlog(p)) { EndShows(p, k); }
  }
}
