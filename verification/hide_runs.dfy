/** Runs and states in which "Hide message text" leaves text, and what decides it. */
module HideRuns {
  import opened Wrappers
  import opened Accounts
  import opened Commands
  import opened QueueCounts
  import opened Notify
  import Inboxes
  import opened InboxLimits
  import opened Workers
  import opened Pipelines
  import opened PipelinePromises
  import opened HideLimits
  import opened QueueLimits

  lemma HideThenDeliverRun(steps: seq<Step>, keys: seq<NotifyKey>)
    ensures Exec(START, steps + [HidePreviews(keys), Deliver]) == HideThenDeliver(Exec(START, steps), keys)
  {
    ExecConcat(START, steps, [HidePreviews(keys), Deliver]);
    ExecTwo(Exec(START, steps), HidePreviews(keys), Deliver);
  }

  // ----- one shown chat and 64 dismisses

  lemma BobChurnsBesideAda()
    ensures var p := Exec(START, SHOW_ADA + Churn(QUEUE_LIMIT));
            && p.worker == IDLE && p.core.pending == map[ADA := Pending(NoteOf("ada"), false)]
            && p.screen == map[ADA := NoteOf("ada")]
            && !HasCommandOf(p.core.queue, ADA) && Dismisses(p.core.queue) == QUEUE_LIMIT
  {
    AdaIsShown();
    ChurnRun(Exec(START, SHOW_ADA), QUEUE_LIMIT);
    ExecConcat(START, SHOW_ADA, Churn(QUEUE_LIMIT));
    DismissesOnly(Exec(START, SHOW_ADA + Churn(QUEUE_LIMIT)).core.queue);
  }

  /** "Hide message text" can leave text on the screen with every OS call working: a run
      that dismissed another chat 64 times drops the `Update` of the shown chat. */
  lemma HiddenTextCanSurvive()
    ensures var p := Exec(START, SHOW_ADA + Churn(QUEUE_LIMIT) + [HidePreviews([ADA]), Deliver]);
            var end := RunAll(p.screen, Backlog(p));
            ADA in end && !IsHidden(end[ADA])
  {
    var steps := SHOW_ADA + Churn(QUEUE_LIMIT);
    var p := Exec(START, steps);
    BobChurnsBesideAda();
    StartOk();
    ExecOk(START, steps);
    assert Texts(p.core) == {ADA};
    HideThenDeliverRun(steps, [ADA]);
    HideReachesScreenExactly(p, [ADA]);
  }

  // ----- many shown chats

  /** A name of `n` characters. */
  function ChatName(n: nat): (name: string)
    ensures |name| == n
  {
    seq(n, _ => 'a')
  }

  function ShowChats(n: nat): seq<Step> {
    if n == 0 then [] else ShowChats(n - 1) + ShowChat(ChatName(n - 1))
  }

  /** `n` chats are shown with text, and nothing waits. */
  ghost predicate ManyShown(p: Pipeline, n: nat) {
    && p.core.queue == [] && !p.core.closing && p.worker == IDLE && p.gaveUp == {}
    && |p.core.pending.Keys| == n
    && (forall k :: k in p.core.pending ==> |k.conversationId| < n)
    && (forall k :: k in p.core.pending ==> !IsHidden(p.core.pending[k].shown))
    && (forall k :: k in p.core.pending ==> k in p.screen && !IsHidden(p.screen[k]))
  }

  lemma OneMoreShown(p: Pipeline, n: nat)
    requires ManyShown(p, n)
    ensures ManyShown(Exec(p, ShowChat(ChatName(n))), n + 1)
  {
    var note := NoteOf(ChatName(n));
    assert note.key !in p.core.pending;
    ShownChat(p, ChatName(n));
    OneMoreChat(p.core, Pending(note, false));
  }

  lemma OneMoreChat(core: Core, pending: Pending)
    requires pending.shown.key !in core.pending
    ensures |core.pending[pending.shown.key := pending].Keys| == |core.pending.Keys| + 1
  {
    assert core.pending[pending.shown.key := pending].Keys == core.pending.Keys + {pending.shown.key};
  }

  lemma {:induction false} ShowChatsRun(n: nat)
    ensures ManyShown(Exec(START, ShowChats(n)), n)
  {
    if n > 0 {
      ShowChatsRun(n - 1);
      OneMoreShown(Exec(START, ShowChats(n - 1)), n - 1);
      ExecConcat(START, ShowChats(n - 1), ShowChat(ChatName(n - 1)));
    }
  }

  lemma ManyShownFits(p: Pipeline, n: nat)
    requires ManyShown(p, n)
    ensures Texts(p.core) == p.core.pending.Keys && TextsAreShown(p)
    ensures Texts(p.core) == {} || RoomToHide(p) <==> n <= QUEUE_LIMIT
  {
    assert Texts(p.core) == p.core.pending.Keys;
    assert DismissesAfter(p.worker.inbox, p.core.queue) == {};
  }

  lemma ManyShownHide(p: Pipeline, n: nat, keys: seq<NotifyKey>)
    requires PipeOk(p) && ManyShown(p, n) && Lists(keys, p.core)
    ensures AllEndHidden(HideThenDeliver(p, keys)) <==> n <= QUEUE_LIMIT
  {
    ManyShownFits(p, n);
    HideReachesScreenExactly(p, keys);
    OnlyTheseEnd(p, keys);
    var after := HideThenDeliver(p, keys);
    var end := RunAll(after.screen, Backlog(after));
    if forall k :: k in Texts(p.core) ==> IsHidden(end[k]) {
      assert AllEndHidden(after);
    }
    if AllEndHidden(after) {
      assert forall k :: k in Texts(p.core) ==> IsHidden(end[k]);
    }
  }

  /** Once everything that waits has run, the screen has no text. */
  ghost predicate AllEndHidden(p: Pipeline) {
    var end := RunAll(p.screen, Backlog(p));
    forall k :: k in end ==> IsHidden(end[k])
  }

  /** With `n` shown chats and nothing else, "Hide message text" takes all text off the
      screen exactly when `n` is within the limit. */
  lemma ManyChatsHideExactly(n: nat, keys: seq<NotifyKey>)
    requires Lists(keys, Exec(START, ShowChats(n)).core)
    ensures AllEndHidden(Exec(START, ShowChats(n) + [HidePreviews(keys), Deliver])) <==> n <= QUEUE_LIMIT
  {
    ShowChatsRun(n);
    StartOk();
    ExecOk(START, ShowChats(n));
    HideThenDeliverRun(ShowChats(n), keys);
    ManyShownHide(Exec(START, ShowChats(n)), n, keys);
  }

  lemma OnlyTheseEnd(p: Pipeline, keys: seq<NotifyKey>)
    requires PipeOk(p) && !p.worker.off && p.gaveUp == {} && Lists(keys, p.core)
    ensures var after := HideThenDeliver(p, keys);
            forall k :: k in RunAll(after.screen, Backlog(after)) ==> k in p.core.pending
  {
    var after := HideThenDeliver(p, keys);
    HideThenDeliverOk(p, keys);
    forall k | k in RunAll(after.screen, Backlog(after)) ensures k in p.core.pending { EndShows(after, k); }
  }

  // ----- what the condition must count, and when the order of the chats decides

  const CARL := NotifyKey(TELEGRAM, "carl", None)
  const DAN := NotifyKey(TELEGRAM, "dan", None)

  function Shown(chat: string): Pending {
    Pending(NoteOf(chat), false)
  }

  function DismissesOfBob(n: nat): Commands {
    seq(n, _ => Dismiss(BOB))
  }

  lemma BobOnly(n: nat)
    ensures forall c :: c in DismissesOfBob(n) ==> c == Dismiss(BOB)
    ensures Dismisses(DismissesOfBob(n)) == n
  {
    DismissesOnly(DismissesOfBob(n));
  }

  lemma {:induction false} FirstContentAfter(dismisses: Commands, first: NotifyCommand, rest: Commands)
    requires (forall c :: c in dismisses ==> c.Dismiss?) && first.IsContent()
    ensures FirstContent(dismisses + [first] + rest) == Some(|dismisses|)
  {
    var longer := dismisses + [first] + rest;
    if dismisses == [] {
      assert longer[0] == first;
    } else {
      assert longer[0] == dismisses[0];
      assert longer[1..] == dismisses[1..] + [first] + rest;
      FirstContentAfter(dismisses[1..], first, rest);
    }
  }

  /** One over the limit: the first content goes. */
  lemma FirstGoes(dismisses: Commands, first: NotifyCommand, rest: Commands)
    requires (forall c :: c in dismisses ==> c.Dismiss?) && first.IsContent()
    requires |dismisses| + 1 + |rest| == QUEUE_LIMIT + 1
    ensures Trim(dismisses + [first] + rest, QUEUE_LIMIT) == dismisses + rest
  {
    FirstContentAfter(dismisses, first, rest);
    RemoveMiddle(dismisses, first, rest);
    TrimOnce(dismisses + [first] + rest, |dismisses|, QUEUE_LIMIT);
  }

  lemma RemoveMiddle(head: Commands, c: NotifyCommand, tail: Commands)
    ensures RemoveAt(head + [c] + tail, |head|) == head + tail
  {
  }

  lemma TrimOnce(commands: Commands, at: nat, limit: nat)
    requires |commands| == limit + 1 && FirstContent(commands) == Some(at)
    ensures Trim(commands, limit) == RemoveAt(commands, at)
  {
  }

  /** 63 dismisses, the first `Show` of Carl, and Ada on the screen with nothing queued. */
  ghost const MIXED: Core := Core(map[ADA := Shown("ada"), CARL := Shown("carl")],
                                  DismissesOfBob(63) + [Show(NoteOf("carl"))], true, false)

  lemma MixedOk()
    ensures CoreOk(MIXED) && Lists([ADA, CARL], MIXED)
    ensures Dismisses(MIXED.queue) == 63 && Texts(MIXED) == {ADA, CARL} && Unqueued(MIXED) == {ADA}
  {
    BobOnly(63);
    KeysAppend(DismissesOfBob(63), Show(NoteOf("carl")));
  }

  /** Hiding a chat with no queued content in a full queue drops the oldest content. */
  lemma HidesByUpdate(core: Core, key: NotifyKey, dismisses: Commands, first: NotifyCommand, rest: Commands)
    requires key in Texts(core) && core.queue == dismisses + [first] + rest
    requires (forall c :: c in dismisses ==> c.Dismiss?) && first.IsContent() && |core.queue| == QUEUE_LIMIT
    requires key !in ContentKeys(core.queue)
    ensures HideOne(core, key).queue == dismisses + (rest + [Update(Hidden(core.pending[key].shown))])
    ensures HideOne(core, key).pending
            == core.pending[key := core.pending[key].(shown := Hidden(core.pending[key].shown))]
  {
    var c := Update(Hidden(core.pending[key].shown));
    NoUpdates(core.queue, key);
    NoShow(core.queue, key);
    assert core.queue + [c] == dismisses + [first] + (rest + [c]);
    FirstGoes(dismisses, first, rest + [c]);
  }

  lemma NoShow(commands: Commands, key: NotifyKey)
    requires key !in ContentKeys(commands)
    ensures FirstShow(commands, key).None?
  {
    assert forall q :: q in commands && q.IsContent() ==> q.Key() in ContentKeys(commands);
  }

  lemma OneContent(dismisses: Commands, c: NotifyCommand)
    requires (forall d :: d in dismisses ==> d.Dismiss?) && c.IsContent()
    ensures ContentKeys(dismisses + [c]) == {c.Key()}
  {
    KeysAppend(dismisses, c);
    NoContent(dismisses);
  }

  /** A queued `Show` with text counts as well: only Ada needs an `Update`, and with the 63
      dismisses that makes 64, but the loop drops her `Update`. Hiding Ada first drops the
      `Show` of Carl, whose own `Update` then pushes hers out. */
  lemma QueuedShowsCountToo()
    ensures CoreOk(MIXED) && Lists([ADA, CARL], MIXED)
    ensures Dismisses(MIXED.queue) + |Unqueued(MIXED)| <= QUEUE_LIMIT
    ensures ADA !in ContentKeys(HideAll(MIXED, [ADA, CARL]).queue)
  {
    var ds, show := DismissesOfBob(63), Show(NoteOf("carl"));
    var ada, carl := Update(Hidden(NoteOf("ada"))), Update(Hidden(NoteOf("carl")));
    MixedOk();
    BobOnly(63);
    OneContent(ds, show);
    assert MIXED.queue == ds + [show] + [];
    HidesByUpdate(MIXED, ADA, ds, show, []);
    var one := HideOne(MIXED, ADA);
    assert [] + [ada] == [ada] && one.queue == ds + [ada] + [];
    OneContent(ds, ada);
    HidesByUpdate(one, CARL, ds, ada, []);
    assert [] + [carl] == [carl];
    OneContent(ds, carl);
    TwoHides(MIXED, ADA, CARL);
  }

  lemma TwoHides(core: Core, a: NotifyKey, b: NotifyKey)
    ensures HideAll(core, [a, b]) == HideOne(HideOne(core, a), b)
  {
    assert [a, b][..1] == [a] && [a][..0] == [];
    assert HideAll(core, [a]) == HideOne(core, a);
  }

  /** 62 dismisses, the first `Show` of Ada, a hidden `Show` of Dan, and Carl on the screen. */
  ghost const RACE: Core := Core(
    map[ADA := Shown("ada"), CARL := Shown("carl"), DAN := Pending(Hidden(NoteOf("dan")), false)],
    DismissesOfBob(62) + [Show(NoteOf("ada"))] + [Show(Hidden(NoteOf("dan")))], true, false)

  /** What the two orders need to know of it. */
  ghost predicate Races(core: Core, dismisses: Commands, dan: NotifyCommand) {
    && CoreOk(core) && Texts(core) == {ADA, CARL} && DAN in core.pending
    && (forall c :: c in dismisses ==> c.Dismiss?) && |dismisses| == 62
    && dan.IsContent() && dan.Key() == DAN
    && core.queue == dismisses + [Show(core.pending[ADA].shown)] + [dan]
  }

  lemma TwoContents(dismisses: Commands, a: NotifyCommand, b: NotifyCommand)
    requires (forall d :: d in dismisses ==> d.Dismiss?) && a.IsContent() && b.IsContent()
    ensures ContentKeys(dismisses + [a] + [b]) == {a.Key(), b.Key()}
    ensures dismisses + [a] + [b] == dismisses + ([a] + [b])
  {
    OneContent(dismisses, a);
    KeysAppend(dismisses + [a], b);
  }

  lemma ThenDan(core: Core, a: NotifyKey, b: NotifyKey)
    requires DAN !in Texts(HideOne(HideOne(core, a), b))
    ensures HideAll(core, [a, b, DAN]) == HideOne(HideOne(core, a), b)
  {
    assert [a, b, DAN][..2] == [a, b];
    TwoHides(core, a, b);
    HideSkips(HideAll(core, [a, b]), DAN);
  }

  lemma ShowIsHidden(core: Core, dismisses: Commands, dan: NotifyCommand)
    requires Races(core, dismisses, dan)
    ensures HideOne(core, ADA).queue == dismisses + [Show(Hidden(core.pending[ADA].shown))] + [dan]
  {
    var at := FirstShow(core.queue, ADA);
    assert core.queue[|dismisses|] == Show(core.pending[ADA].shown) && core.queue[|dismisses|] in core.queue;
    assert core.queue[|dismisses| + 1] == dan;
    assert forall i :: 0 <= i < |dismisses| ==> core.queue[i] == dismisses[i];
    assert at == Some(|dismisses|);
  }

  lemma AdaFirst(core: Core, dismisses: Commands, dan: NotifyCommand)
    requires Races(core, dismisses, dan)
    ensures !AllQueued(core, HideAll(core, [ADA, CARL, DAN]))
  {
    var one := HideOne(core, ADA);
    var show := Show(Hidden(core.pending[ADA].shown));
    ShowIsHidden(core, dismisses, dan);
    HideOneTexts(core, ADA);
    TwoContents(dismisses, show, dan);
    HidesByUpdate(one, CARL, dismisses, show, [dan]);
    HideOneTexts(one, CARL);
    ThenDan(core, ADA, CARL);
    TwoContents(dismisses, dan, Update(Hidden(one.pending[CARL].shown)));
  }

  lemma CarlFirst(core: Core, dismisses: Commands, dan: NotifyCommand)
    requires Races(core, dismisses, dan)
    ensures AllQueued(core, HideAll(core, [CARL, ADA, DAN]))
  {
    var one := HideOne(core, CARL);
    var show, carl := Show(core.pending[ADA].shown), Update(Hidden(core.pending[CARL].shown));
    TwoContents(dismisses, show, dan);
    HidesByUpdate(core, CARL, dismisses, show, [dan]);
    HideOneTexts(core, CARL);
    TwoContents(dismisses, dan, carl);
    HidesByUpdate(one, ADA, dismisses, dan, [carl]);
    HideOneTexts(one, ADA);
    ThenDan(core, CARL, ADA);
    TwoContents(dismisses, carl, Update(Hidden(one.pending[ADA].shown)));
  }

  lemma RaceOk()
    ensures Races(RACE, DismissesOfBob(62), Show(Hidden(NoteOf("dan"))))
    ensures Lists([ADA, CARL, DAN], RACE) && Lists([CARL, ADA, DAN], RACE)
  {
    BobOnly(62);
    RaceAgrees(DismissesOfBob(62), Show(NoteOf("ada")), Show(Hidden(NoteOf("dan"))));
    assert Texts(RACE) == {ADA, CARL};
  }

  lemma RaceAgrees(dismisses: Commands, ada: NotifyCommand, dan: NotifyCommand)
    requires (forall c :: c in dismisses ==> c == Dismiss(BOB)) && |dismisses| <= 62
    requires ada.IsContent() && dan.IsContent() && ada.Key() == ADA && dan.Key() == DAN
    ensures ContentLast(dismisses + [ada] + [dan])
    ensures forall c :: c in dismisses + [ada] + [dan] && c.IsContent() ==> c == ada || c == dan
  {
    assert forall i :: 0 <= i < |dismisses| ==> dismisses[i] in dismisses;
    ContentAppended(dismisses, ada);
    ContentAppended(dismisses + [ada], dan);
  }

  /** With the hidden content of another chat in the queue, and a chat with text that waits
      with a `Show`, the same queue loses content in one order of the chats and not in the
      other. No condition on the queue alone can be exact there. */
  lemma OrderDecides()
    ensures CoreOk(RACE) && Lists([ADA, CARL, DAN], RACE) && Lists([CARL, ADA, DAN], RACE)
    ensures !AllQueued(RACE, HideAll(RACE, [ADA, CARL, DAN]))
    ensures AllQueued(RACE, HideAll(RACE, [CARL, ADA, DAN]))
  {
    RaceOk();
    AdaFirst(RACE, DismissesOfBob(62), Show(Hidden(NoteOf("dan"))));
    CarlFirst(RACE, DismissesOfBob(62), Show(Hidden(NoteOf("dan"))));
  }
}
