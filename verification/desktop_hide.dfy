/** "Hide message text" on the freedesktop backend, from the core to the server: when it takes
    all text of a chat off the screen, and a run in which it does not. */
module DesktopHides {
  import opened Wrappers
  import opened Accounts
  import opened Commands
  import opened QueueCounts
  import opened Notify
  import Inboxes
  import opened InboxLimits
  import opened Workers
  import P = Pipelines
  import opened HideLimits
  import opened HideForms
  import opened QueueLimits
  import opened HideRuns
  import I = IdBooks
  import X = XdgBackends
  import opened XdgScreens
  import opened Desktops

  // ----- carrying out the commands of the pipeline

  function CommandOf(s: X.Step): Option<NotifyCommand> {
    match s
    case ShowCommand(n, _, _) => Some(Show(n))
    case UpdateCommand(n, _, _) => Some(Update(n))
    case DismissCommand(k, _) => Some(Dismiss(k))
    case _ => None
  }

  /** The commands of a run of the backend, without the server's closes and the waiter ends. */
  ghost function CommandsOf(steps: seq<X.Step>): Commands {
    if steps == [] then []
    else
      var n := |steps| - 1;
      CommandsOf(steps[..n]) + if CommandOf(steps[n]).Some? then [CommandOf(steps[n]).value] else []
  }

  predicate IsFor(s: X.Step, k: NotifyKey) {
    CommandOf(s).Some? && CommandOf(s).value.Key() == k
  }

  /** Step `i` carries out the last command of the chat. */
  ghost predicate IsLastFor(steps: seq<X.Step>, k: NotifyKey, i: nat) {
    i < |steps| && IsFor(steps[i], k) && forall j :: i < j < |steps| ==> !IsFor(steps[j], k)
  }

  lemma {:induction false} LastForIsLast(steps: seq<X.Step>, k: NotifyKey, i: nat)
    requires IsLastFor(steps, k, i)
    ensures LastOf(CommandsOf(steps), k) == CommandOf(steps[i])
  {
    var n := |steps| - 1;
    if CommandOf(steps[n]).Some? {
      var c := CommandOf(steps[n]).value;
      assert (CommandsOf(steps[..n]) + [c])[..|CommandsOf(steps[..n])|] == CommandsOf(steps[..n]);
    } else {
      assert CommandsOf(steps[..n]) + [] == CommandsOf(steps[..n]);
    }
    if i < n { LastForIsLast(steps[..n], k, i); }
  }

  /** Some run of the backend carries out, in order, what waits after the hide and its delivery,
      with any closes by the server and any waiter ends in between. Step `i` is the last for the
      chat, and the server honours what it asks for. */
  ghost predicate CarriedOut(d: Desktop, keys: seq<NotifyKey>, k: NotifyKey, steps: seq<X.Step>, i: nat) {
    && CommandsOf(steps) == P.Backlog(HideThenDeliver(d.pipe, keys)) && IsLastFor(steps, k, i)
    && (steps[i].ShowCommand? || steps[i].UpdateCommand? ==>
          var x := X.Exec(d.xdg, steps[..i]);
          Enabled(x, steps[i]) && Honoured(x, k, steps[i].reply))
  }

  /** A chat with text of which nothing is dropped. */
  ghost predicate Hides(d: Desktop, keys: seq<NotifyKey>, k: NotifyKey) {
    && DesktopOk(d) && !d.pipe.worker.off && Lists(keys, d.pipe.core)
    && k in Texts(d.pipe.core) && NothingDropped(d.pipe, keys, k)
  }

  lemma {:induction false} RunOk(x: X.Xdg, steps: seq<X.Step>)
    requires X.XdgOk(x)
    ensures X.XdgOk(X.Exec(x, steps))
  {
    if steps != [] {
      RunOk(x, steps[..|steps| - 1]);
      X.ApplyOk(X.Exec(x, steps[..|steps| - 1]), steps[|steps| - 1]);
    }
  }

  lemma LastStepIs(d: Desktop, keys: seq<NotifyKey>, k: NotifyKey, steps: seq<X.Step>, i: nat)
    requires Hides(d, keys, k) && CarriedOut(d, keys, k, steps, i)
    ensures var c := CommandOf(steps[i]).value;
            && c.IsContent() && c.Key() == k && IsHidden(c.notification) && (c.Show? <==> ShowWaits(d.pipe, k))
            && steps[i] == StepOf(c, steps[i].reply, steps[i].fails)
    ensures X.XdgOk(X.Exec(d.xdg, steps[..i]))
    ensures X.Exec(d.xdg, steps[..i + 1]) == X.Apply(X.Exec(d.xdg, steps[..i]), steps[i])
  {
    HiddenFormExactly(d.pipe, keys, k);
    LastForIsLast(steps, k, i);
    RunOk(d.xdg, steps[..i]);
    assert steps[..i + 1][..i] == steps[..i];
  }

  /** What text the hidden content leaves on the server: that of lost ids, and that of unwatched
      ids which no limit pushes out, all of them when a first show waited at the hide, and else
      those whose close failed. */
  lemma HideLeavesOnServer(d: Desktop, keys: seq<NotifyKey>, k: NotifyKey, steps: seq<X.Step>, i: nat, id: nat)
    requires Hides(d, keys, k) && CarriedOut(d, keys, k, steps, i)
    ensures var x := X.Exec(d.xdg, steps[..i]);
            id in TextIds(X.Exec(d.xdg, steps[..i + 1]), k) <==>
              && id in TextIds(x, k) && id !in PushedOut(x, steps[i])
              && (X.Lost(x, id) || (I.In(x.book.unwatched, k, id) && (ShowWaits(d.pipe, k) || id in steps[i].fails)))
  {
    LastStepIs(d, keys, k, steps, i);
    HiddenContentLeaves(X.Exec(d.xdg, steps[..i]), CommandOf(steps[i]).value, steps[i].reply, steps[i].fails, id);
  }

  /** For a chat with no command dropped or refused, and none of its texts lost, pushed out, or
      failing to close: once its hidden content has run, all its text is off the screen exactly
      when no first show of it waited at the hide, so that the content left as an update, or it
      had no open unwatched notification with text. */
  lemma HideOnServerExactly(d: Desktop, keys: seq<NotifyKey>, k: NotifyKey, steps: seq<X.Step>, i: nat)
    requires Hides(d, keys, k) && CarriedOut(d, keys, k, steps, i)
    requires var x := X.Exec(d.xdg, steps[..i]);
             forall id :: id in TextIds(x, k) ==>
               !X.Lost(x, id) && (steps[i].UpdateCommand? ==> id !in steps[i].fails) && id !in PushedOut(x, steps[i])
    ensures var x := X.Exec(d.xdg, steps[..i]);
            TextIds(X.Exec(d.xdg, steps[..i + 1]), k) == {} <==>
              !ShowWaits(d.pipe, k) || forall id :: id in TextIds(x, k) ==> !I.In(x.book.unwatched, k, id)
  {
    LastStepIs(d, keys, k, steps, i);
    HiddenContentTakesAllExactly(X.Exec(d.xdg, steps[..i]), CommandOf(steps[i]).value, steps[i].reply, steps[i].fails);
  }

  /** From then on no text of the chat comes back. */
  lemma TextStaysOff(x: X.Xdg, steps: seq<X.Step>, k: NotifyKey, i: nat)
    requires X.XdgOk(x) && IsLastFor(steps, k, i)
    ensures TextIds(X.Exec(x, steps), k) <= TextIds(X.Exec(x, steps[..i + 1]), k)
  {
    RunOk(x, steps[..i + 1]);
    ExecSplit(x, steps[..i + 1], steps[i + 1..]);
    assert steps[..i + 1] + steps[i + 1..] == steps;
    NothingLater(steps, k, i);
    TextOnlyLeaves(X.Exec(x, steps[..i + 1]), steps[i + 1..], k);
  }

  lemma NothingLater(steps: seq<X.Step>, k: NotifyKey, i: nat)
    requires IsLastFor(steps, k, i)
    ensures NoTextFor(steps[i + 1..], k)
  {
    forall s | s in steps[i + 1..] && (s.ShowCommand? || s.UpdateCommand?) ensures s.note.key != k {
      var j :| 0 <= j < |steps| - i - 1 && steps[i + 1..][j] == s;
      assert !IsFor(steps[i + 1 + j], k);
    }
  }

  lemma {:induction false} ExecSplit(x: X.Xdg, a: seq<X.Step>, b: seq<X.Step>)
    ensures X.Exec(x, a + b) == X.Exec(X.Exec(x, a), b)
  {
    if b == [] {
      assert a + b == a;
    } else {
      assert (a + b)[..|a + b| - 1] == a + b[..|b| - 1];
      ExecSplit(x, a, b[..|b| - 1]);
    }
  }

  // ----- a run from the start in which the text stays

  function ShowOn(chat: string, id: nat): seq<Step> {
    [Local(P.Message(MessageIn(chat), Some(ROW), CTX)), Local(P.Deliver), Local(P.TakeCommand),
     Call(Some(X.Reply(id, true)), {})]
  }

  /** One chat after the other is shown. */
  ghost function ShowEach(n: nat): seq<Step> {
    if n == 0 then [] else ShowEach(n - 1) + ShowOn(ChatName(n - 1), n)
  }

  lemma FourSteps(d: Desktop, a: Step, b: Step, c: Step, e: Step)
    ensures Exec(d, [a, b, c, e]) == Apply(Apply(Apply(Apply(d, a), b), c), e)
  {
    assert [a, b, c, e][..3] == [a, b, c] && [a, b, c][..2] == [a, b] && [a, b][..1] == [a] && [a][..0] == [];
    assert Exec(d, []) == d;
    assert Exec(d, [a]) == Apply(d, a);
    assert Exec(d, [a, b]) == Apply(Exec(d, [a]), b);
    assert Exec(d, [a, b, c]) == Apply(Exec(d, [a, b]), c);
  }

  /** Nothing waits, and the server has something new for the chat. */
  ghost predicate ReadyFor(d: Desktop, chat: string, id: nat) {
    && d.pipe.core.queue == [] && !d.pipe.core.closing && d.pipe.worker == IDLE
    && NoteOf(chat).key !in d.pipe.core.pending && X.NewId(d.xdg, id)
  }

  lemma ShownOn(d: Desktop, chat: string, id: nat)
    requires ReadyFor(d, chat, id)
    ensures Exec(d, ShowOn(chat, id))
            == Desktop(P.Exec(d.pipe, ShowChat(chat)),
                       X.Apply(d.xdg, X.ShowCommand(NoteOf(chat), Some(X.Reply(id, true)), {})))
  {
    var t := ShowChat(chat);
    ShowTaken(d.pipe, chat);
    ExecFour(d.pipe, t);
    CallLast(d, t[0], t[1], t[2], NoteOf(chat), id);
  }

  lemma CallLast(d: Desktop, a: P.Step, b: P.Step, c: P.Step, note: Notification, id: nat)
    requires X.NewId(d.xdg, id)
    requires forall s :: s in {a, b, c} ==> !s.CallEnd? && !s.Expire?
    requires P.Apply(P.Apply(P.Apply(d.pipe, a), b), c).worker == IDLE.(running := Some(Show(note)))
    ensures var reply := Some(X.Reply(id, true));
            Exec(d, [Local(a), Local(b), Local(c), Call(reply, {})])
            == Desktop(P.CallEnds(P.Apply(P.Apply(P.Apply(d.pipe, a), b), c), true, true),
                       X.Apply(d.xdg, X.ShowCommand(note, reply, {})))
  {
    var reply := Some(X.Reply(id, true));
    FourSteps(d, Local(a), Local(b), Local(c), Call(reply, {}));
    assert CanCall(Desktop(P.Apply(P.Apply(P.Apply(d.pipe, a), b), c), d.xdg), reply, {});
  }

  lemma ShowTaken(p: P.Pipeline, chat: string)
    requires p.core.queue == [] && !p.core.closing && p.worker == IDLE && NoteOf(chat).key !in p.core.pending
    ensures var t := ShowChat(chat);
            P.Apply(P.Apply(P.Apply(p, t[0]), t[1]), t[2]).worker == IDLE.(running := Some(Show(NoteOf(chat))))
  {
    MessageOfNewChat(p, chat);
    OneShowDelivered(P.Apply(p, ShowChat(chat)[0]), NoteOf(chat));
  }

  lemma ExecFour(p: P.Pipeline, t: seq<P.Step>)
    requires |t| == 4
    ensures P.Exec(p, t) == P.Apply(P.Apply(P.Apply(P.Apply(p, t[0]), t[1]), t[2]), t[3])
  {
    assert t[..3][..2] == t[..2] && t[..2][..1] == t[..1] && t[..1][..0] == [];
    assert P.Exec(p, []) == p;
    assert P.Exec(p, t[..1]) == P.Apply(p, t[0]);
    assert P.Exec(p, t[..2]) == P.Apply(P.Exec(p, t[..1]), t[1]);
    assert P.Exec(p, t[..3]) == P.Apply(P.Exec(p, t[..2]), t[2]);
  }

  /** `n` chats are shown, each with the id of its number and its click waiter. */
  ghost predicate Crowd(d: Desktop, n: nat) {
    && DesktopOk(d) && ManyShown(d.pipe, n) && d.pipe.stale == {} && d.xdg.book.unwatched == map[]
    && |d.xdg.waiting| == n && IdsUpTo(d.xdg, n)
    && (forall k :: k in d.xdg.book.byKey ==> |k.conversationId| < n)
  }

  ghost predicate IdsUpTo(x: X.Xdg, n: nat) {
    && (forall i :: i in x.open || i in x.waiting ==> i <= n)
    && (forall k, i: nat :: X.Holds(x.book, k, i) ==> i <= n)
  }

  lemma NextIdIsNew(x: X.Xdg, n: nat)
    requires X.XdgOk(x) && IdsUpTo(x, n)
    ensures X.NewId(x, n + 1)
  {
    if n + 1 in x.book.byId { assert X.Holds(x.book, x.book.byId[n + 1], n + 1); }
    assert forall k, i: nat :: I.In(x.book.unwatched, k, i) ==> X.Holds(x.book, k, i);
  }

  lemma WatchedShow(x: X.Xdg, note: Notification, n: nat)
    requires X.XdgOk(x) && IdsUpTo(x, n) && |x.waiting| == n < X.MAX_CLICK_WAITERS
    requires x.book.unwatched == map[] && note.key !in x.book.byKey
    ensures var after := X.Apply(x, X.ShowCommand(note, Some(X.Reply(n + 1, true)), {}));
            && after.book.unwatched == map[] && |after.waiting| == n + 1 && IdsUpTo(after, n + 1)
            && after.book.byKey == x.book.byKey[note.key := n + 1]
  {
    NextIdIsNew(x, n);
    var shown := X.ShowNow(x, note, Some(X.Reply(n + 1, true)));
    assert shown.book == x.book.(byKey := x.book.byKey[note.key := n + 1], byId := x.book.byId[n + 1 := note.key]);
    assert shown.waiting == x.waiting + {n + 1} && shown.open == x.open + {n + 1};
    NoneEvicted(shown);
    assert forall k, i: nat :: X.Holds(shown.book, k, i) ==> (k == note.key && i == n + 1) || X.Holds(x.book, k, i);
  }

  lemma CrowdGrows(d: Desktop, n: nat)
    requires Crowd(d, n) && n < X.MAX_CLICK_WAITERS
    ensures Crowd(Exec(d, ShowOn(ChatName(n), n + 1)), n + 1)
  {
    var note := NoteOf(ChatName(n));
    NextIdIsNew(d.xdg, n);
    ShownOn(d, ChatName(n), n + 1);
    OneMoreShown(d.pipe, n);
    ShownChat(d.pipe, ChatName(n));
    WatchedShow(d.xdg, note, n);
    RunDesktopOk(d, ShowOn(ChatName(n), n + 1));
  }

  lemma {:induction false} RunDesktopOk(d: Desktop, steps: seq<Step>)
    requires DesktopOk(d)
    ensures DesktopOk(Exec(d, steps))
  {
    if steps != [] {
      RunDesktopOk(d, steps[..|steps| - 1]);
      ApplyOk(Exec(d, steps[..|steps| - 1]), steps[|steps| - 1]);
    }
  }

  lemma CrowdAtStart()
    ensures Crowd(Exec(Desktops.START, ShowEach(0)), 0)
  {
    P.StartOk();
  }

  lemma {:induction false} CrowdRun(n: nat)
    requires n <= X.MAX_CLICK_WAITERS
    ensures Crowd(Exec(Desktops.START, ShowEach(n)), n)
  {
    if n == 0 {
      CrowdAtStart();
    } else {
      CrowdRun(n - 1);
      NextIsShown(n - 1);
    }
  }

  lemma NextIsShown(n: nat)
    requires n < X.MAX_CLICK_WAITERS && Crowd(Exec(Desktops.START, ShowEach(n)), n)
    ensures Crowd(Exec(Desktops.START, ShowEach(n + 1)), n + 1)
  {
    CrowdGrows(Exec(Desktops.START, ShowEach(n)), n);
    ExecConcat(Desktops.START, ShowEach(n), ShowOn(ChatName(n), n + 1));
  }

  // ----- the chat with no click waiter

  const LATE_ID := X.MAX_CLICK_WAITERS + 1
  const LATE := ChatName(X.MAX_CLICK_WAITERS)
  const LATE_KEY := NotifyKey(TELEGRAM, LATE, None)

  /** The chat may show one more under an id with no click waiter. */
  ghost predicate RoomFor(x: X.Xdg, key: NotifyKey, n: nat) {
    && X.XdgOk(x) && IdsUpTo(x, n) && |x.waiting| == X.MAX_CLICK_WAITERS && key !in x.book.byKey
    && |I.IdsOf(x.book.unwatched, key)| < I.MAX_UNWATCHED_PER_CHAT
    && I.Total(x.book.unwatched) < I.MAX_UNWATCHED_TOTAL
  }

  /** The text of the chat is shown under an id with no click waiter. */
  ghost predicate Unwatched(x: X.Xdg, id: nat) {
    RoomFor(x, LATE_KEY, id) && I.In(x.book.unwatched, LATE_KEY, LATE_ID) && LATE_ID in TextIds(x, LATE_KEY)
  }

  /** No limit closes anything then. */
  lemma UnwatchedBook(x: X.Xdg, note: Notification, n: nat)
    requires RoomFor(x, note.key, n)
    ensures var shown := X.ShowNow(x, note, Some(X.Reply(n + 1, true)));
            && shown == x.(book := I.AddUnwatched(x.book, note.key, n + 1),
                           open := x.open + {n + 1}, notes := x.notes[n + 1 := note])
            && shown.book.evicted == [] && I.Gains(x.book, shown.book, note.key, n + 1)
            && |I.IdsOf(shown.book.unwatched, note.key)| <= |I.IdsOf(x.book.unwatched, note.key)| + 1
            && I.Total(shown.book.unwatched) <= I.Total(x.book.unwatched) + 1
  {
    I.AddUnwatchedOk(x.book, note.key, n + 1);
  }

  lemma GainedIds(x: X.Xdg, after: X.Xdg, key: NotifyKey, n: nat)
    requires IdsUpTo(x, n) && after.open == x.open + {n + 1} && after.waiting == x.waiting
    requires I.Gains(x.book, after.book, key, n + 1)
    ensures IdsUpTo(after, n + 1)
  {
    assert forall k, i: nat :: X.Holds(after.book, k, i) ==> (k == key && i == n + 1) || X.Holds(x.book, k, i);
  }

  lemma UnwatchedShow(x: X.Xdg, note: Notification, n: nat)
    requires RoomFor(x, note.key, n)
    ensures var step := X.ShowCommand(note, Some(X.Reply(n + 1, true)), {});
            var after := X.Apply(x, step);
            && Enabled(x, step) && PushedOut(x, step) == {}
            && X.XdgOk(after) && after.waiting == x.waiting && IdsUpTo(after, n + 1)
            && after.book.byKey == x.book.byKey && I.In(after.book.unwatched, note.key, n + 1)
            && after.open == x.open + {n + 1} && after.notes == x.notes[n + 1 := note]
            && |I.IdsOf(after.book.unwatched, note.key)| <= |I.IdsOf(x.book.unwatched, note.key)| + 1
            && I.Total(after.book.unwatched) <= I.Total(x.book.unwatched) + 1
  {
    var step := X.ShowCommand(note, Some(X.Reply(n + 1, true)), {});
    var shown := X.ShowNow(x, note, Some(X.Reply(n + 1, true)));
    NextIdIsNew(x, n);
    UnwatchedBook(x, note, n);
    X.ApplyOk(x, step);
    NoneEvicted(shown);
    GainedIds(x, shown, note.key, n);
  }

  lemma NoneEvicted(x: X.Xdg)
    requires x.book.evicted == []
    ensures X.CloseEvicted(x, {}) == x
  {
  }

  /** Everybody is shown, and the chat that came last has no click waiter. */
  ghost predicate OneTooMany(d: Desktop) {
    && DesktopOk(d) && ManyShown(d.pipe, LATE_ID) && d.pipe.stale == {} && Unwatched(d.xdg, LATE_ID)
    && LATE_KEY in d.pipe.core.pending
  }

  lemma LastIsUnwatched(d: Desktop)
    requires Crowd(d, X.MAX_CLICK_WAITERS)
    ensures OneTooMany(Exec(d, ShowOn(LATE, LATE_ID)))
  {
    var n := X.MAX_CLICK_WAITERS;
    assert NoteOf(LATE).key == LATE_KEY;
    NextIdIsNew(d.xdg, n);
    ShownOn(d, LATE, LATE_ID);
    OneMoreShown(d.pipe, n);
    ShownChat(d.pipe, LATE);
    LastShown(d.xdg, NoteOf(LATE));
    RunDesktopOk(d, ShowOn(LATE, LATE_ID));
  }

  lemma LastShown(x: X.Xdg, note: Notification)
    requires X.XdgOk(x) && IdsUpTo(x, X.MAX_CLICK_WAITERS) && |x.waiting| == X.MAX_CLICK_WAITERS
    requires x.book.unwatched == map[] && note.key !in x.book.byKey && !IsHidden(note)
    ensures var after := X.Apply(x, X.ShowCommand(note, Some(X.Reply(LATE_ID, true)), {}));
            && RoomFor(after, note.key, LATE_ID) && I.In(after.book.unwatched, note.key, LATE_ID)
            && LATE_ID in TextIds(after, note.key)
  {
    NothingUnwatched(x.book, note.key);
    UnwatchedShow(x, note, X.MAX_CLICK_WAITERS);
    ShownText(X.Apply(x, X.ShowCommand(note, Some(X.Reply(LATE_ID, true)), {})), note, LATE_ID);
  }

  lemma NothingUnwatched(b: I.Book, key: NotifyKey)
    requires b.unwatched == map[]
    ensures I.Total(b.unwatched) == 0 && |I.IdsOf(b.unwatched, key)| == 0
  {
  }

  lemma ShownText(x: X.Xdg, note: Notification, id: nat)
    requires id in x.open && id in x.notes && x.notes[id] == note && !IsHidden(note)
    ensures id in TextIds(x, note.key)
  {
  }

  // ----- its next message waits in the inbox when the preview goes off

  const LATE_STEPS: seq<P.Step> := [P.Message(MessageIn(LATE), Some(ROW), CTX), P.Deliver]

  /** The steps up to the hide. */
  ghost function UntilHide(): seq<Step> {
    ShowEach(X.MAX_CLICK_WAITERS) + ShowOn(LATE, LATE_ID) + [Local(LATE_STEPS[0]), Local(LATE_STEPS[1])]
  }

  /** And the hide, its delivery, and the call that shows the hidden content. */
  ghost function HideSteps(keys: seq<NotifyKey>): seq<Step> {
    [Local(P.HidePreviews(keys)), Local(P.Deliver), Local(P.TakeCommand), Call(Some(X.Reply(LATE_ID + 1, true)), {})]
  }

  /** A `Show` of the chat with no click waiter waits at the head of the inbox. */
  ghost predicate ShowWaitsFor(d: Desktop) {
    && DesktopOk(d) && Unwatched(d.xdg, LATE_ID) && d.pipe.core.queue == [] && d.pipe.stale == {} && d.pipe.gaveUp == {}
    && d.pipe.worker.running.None? && !d.pipe.worker.off && |d.pipe.worker.inbox| == 1
    && d.pipe.worker.inbox[0].Show? && d.pipe.worker.inbox[0].Key() == LATE_KEY
    && LATE_KEY in Texts(d.pipe.core) && |d.pipe.core.pending.Keys| == LATE_ID
  }

  lemma LateMessage(p: P.Pipeline)
    requires p.core.queue == [] && !p.core.closing && p.worker == IDLE && LATE_KEY in p.core.pending
    ensures var note := NotificationFor(MessageIn(LATE), ROW, CTX, CountOf(p.core, LATE_KEY) + 1);
            var after := P.Apply(P.Apply(p, LATE_STEPS[0]), LATE_STEPS[1]);
            && after == p.(core := p.core.(pending := p.core.pending[LATE_KEY := Pending(note, false)]),
                           worker := IDLE.(inbox := [Show(note)]), stale := p.stale - {LATE_KEY})
  {
    var note := NotificationFor(MessageIn(LATE), ROW, CTX, CountOf(p.core, LATE_KEY) + 1);
    assert KeyOf(MessageIn(LATE)) == LATE_KEY == note.key;
    assert WithoutContent([], LATE_KEY) == [] && [] + [Show(note)] == [Show(note)];
    OneShowDelivered(P.Apply(p, LATE_STEPS[0]), note);
  }

  lemma ExecPair(d: Desktop, a: Step, b: Step)
    ensures Exec(d, [a, b]) == Apply(Apply(d, a), b)
  {
    assert [a, b][..1] == [a] && [a][..0] == [];
    assert Exec(d, []) == d;
    assert Exec(d, [a]) == Apply(d, a);
  }

  lemma LateMessageWaits(d: Desktop)
    requires OneTooMany(d)
    ensures ShowWaitsFor(Exec(d, [Local(LATE_STEPS[0]), Local(LATE_STEPS[1])]))
  {
    var steps := [Local(LATE_STEPS[0]), Local(LATE_STEPS[1])];
    LateMessage(d.pipe);
    ExecPair(d, steps[0], steps[1]);
    RunDesktopOk(d, steps);
    var note := NotificationFor(MessageIn(LATE), ROW, CTX, CountOf(d.pipe.core, LATE_KEY) + 1);
    assert d.pipe.core.pending[LATE_KEY := Pending(note, false)].Keys == d.pipe.core.pending.Keys;
  }

  lemma ShowWaitsBeforeHide()
    ensures ShowWaitsFor(Exec(Desktops.START, UntilHide()))
  {
    var each := ShowEach(X.MAX_CLICK_WAITERS);
    CrowdRun(X.MAX_CLICK_WAITERS);
    LastIsUnwatched(Exec(Desktops.START, each));
    ExecConcat(Desktops.START, each, ShowOn(LATE, LATE_ID));
    LateMessageWaits(Exec(Desktops.START, each + ShowOn(LATE, LATE_ID)));
    ExecConcat(Desktops.START, each + ShowOn(LATE, LATE_ID), [Local(LATE_STEPS[0]), Local(LATE_STEPS[1])]);
  }

  // ----- the hide

  lemma {:induction false} UpdatesAlone(core: Core, keys: seq<NotifyKey>)
    requires core.queue == []
    ensures forall c :: c in HideAll(core, keys).queue ==> c.Update?
  {
    if keys != [] {
      var n := |keys| - 1;
      var before := HideAll(core, keys[..n]);
      UpdatesAlone(core, keys[..n]);
      if keys[n] in Texts(before) {
        NoWaitingShow(before.queue, keys[n]);
        WithoutUpdatesFacts(before.queue, keys[n]);
        TrimFacts(HideLonger(before, keys[n]), QUEUE_LIMIT);
      } else {
        HideSkips(before, keys[n]);
      }
    }
  }

  lemma {:induction false} NoWaitingShow(commands: Commands, k: NotifyKey)
    requires forall c :: c in commands ==> c.Update?
    ensures FirstShow(commands, k).None?
  {
    if commands != [] {
      assert commands[0] in commands && forall c :: c in commands[1..] ==> c in commands;
      NoWaitingShow(commands[1..], k);
    }
  }

  /** A show at the head of the inbox stays there while updates are delivered. */
  lemma {:induction false} HeadStays(inbox: Commands, updates: Commands)
    requires Inboxes.InboxOk(inbox) && inbox != [] && inbox[0].Show? && forall c :: c in updates ==> c.Update?
    requires |inbox| + |updates| <= Inboxes.INBOX_LIMIT
    ensures var after := Inboxes.PushAll(inbox, updates);
            && after != [] && after[0].Show? && after[0].Key() == inbox[0].Key()
            && |after| <= |inbox| + |updates| && DeliveryDrops(inbox, updates) == {}
  {
    if updates != [] {
      var n := |updates| - 1;
      var before, c := Inboxes.PushAll(inbox, updates[..n]), updates[n];
      HeadStays(inbox, updates[..n]);
      Inboxes.PushAllOk(inbox, updates[..n]);
      assert c in updates;
      Inboxes.MergedShape(before, c);
      HeadMerged(before, c);
    }
  }

  lemma HeadMerged(inbox: Commands, c: NotifyCommand)
    requires inbox != [] && inbox[0].Show? && c.Update?
    ensures var after := Inboxes.Merged(inbox, c); after != [] && after[0].Show? && after[0].Key() == inbox[0].Key()
  {
  }

  /** Nothing is dropped, and the head of the inbox is the chat's show with hidden content. */
  lemma HiddenShowIsNext(d: Desktop, keys: seq<NotifyKey>)
    requires ShowWaitsFor(d) && Lists(keys, d.pipe.core)
    ensures var after := HideThenDeliver(d.pipe, keys);
            && after.stale == {} && after.worker.running.None? && after.worker.inbox != []
            && after.worker.inbox[0].Show? && after.worker.inbox[0].Key() == LATE_KEY
            && IsHidden(after.worker.inbox[0].notification)
            && LastOf(after.worker.inbox[1..], LATE_KEY).None?
  {
    var p, core := d.pipe, HideAll(d.pipe.core, keys);
    FewUpdates(p, keys);
    RoomyHideLosesNothing(p, keys);
    HideThenDeliverIs(p, keys);
    HeadStays(p.worker.inbox, core.queue);
    HiddenFormExactly(p, keys, LATE_KEY);
    var after := HideThenDeliver(p, keys);
    HideThenDeliverOk(p, keys);
    P.NewestIsLast(after, LATE_KEY);
    HeadIsLast(after.worker.inbox);
  }

  /** The updates of the hide are few. */
  lemma FewUpdates(p: P.Pipeline, keys: seq<NotifyKey>)
    requires CoreOk(p.core) && Lists(keys, p.core) && p.core.queue == [] && |p.core.pending.Keys| == LATE_ID
    ensures HideDrops(p.core, keys) == {} && |Unqueued(p.core)| <= LATE_ID
    ensures |HideAll(p.core, keys).queue| <= LATE_ID && forall c :: c in HideAll(p.core, keys).queue ==> c.Update?
  {
    SubsetSize(Unqueued(p.core), p.core.pending.Keys);
    HideDropsNothingExactly(p.core, keys);
    ListedKeys(p.core, keys);
    FitLength(p.core, keys);
    SubsetSize(Unqueued(p.core) * KeySet(keys), Unqueued(p.core));
    UpdatesAlone(p.core, keys);
  }

  lemma HeadIsLast(inbox: Commands)
    requires ContentLast(inbox) && inbox != [] && inbox[0].IsContent()
    ensures LastOf(inbox, inbox[0].Key()) == Some(inbox[0]) && LastOf(inbox[1..], inbox[0].Key()).None?
  {
    assert inbox == [inbox[0]] + inbox[1..];
    LastOfConcat([inbox[0]], inbox[1..], inbox[0].Key());
    LastOfIsThere(inbox[1..], inbox[0].Key());
  }

  lemma HiddenShowRuns(d: Desktop, keys: seq<NotifyKey>)
    requires ShowWaitsFor(d) && Lists(keys, d.pipe.core)
    ensures var after := Exec(d, HideSteps(keys));
            && AllHidden(after.pipe.core) && !after.pipe.worker.off && after.pipe.stale == {} && after.pipe.gaveUp == {}
            && LastOf(P.Backlog(after.pipe), LATE_KEY).None?
            && LATE_ID in TextIds(after.xdg, LATE_KEY)
  {
    var s := HideSteps(keys);
    var p := HideThenDeliver(d.pipe, keys);
    HiddenShowIsNext(d, keys);
    HideThenDeliverOk(d.pipe, keys);
    HideThenDeliverIs(d.pipe, keys);
    FourSteps(d, s[0], s[1], s[2], s[3]);
    assert Apply(Apply(d, s[0]), s[1]) == d.(pipe := p);
    HiddenShowCalled(p, d.xdg);
  }

  lemma HiddenShowCalled(p: P.Pipeline, x: X.Xdg)
    requires Unwatched(x, LATE_ID) && p.worker.running.None? && p.worker.inbox != [] && !p.worker.off
    requires p.core.queue == [] && p.stale == {} && p.gaveUp == {} && AllHidden(p.core)
    requires p.worker.inbox[0].Show? && p.worker.inbox[0].Key() == LATE_KEY && IsHidden(p.worker.inbox[0].notification)
    requires LastOf(p.worker.inbox[1..], LATE_KEY).None?
    ensures var after := Apply(Apply(Desktop(p, x), Local(P.TakeCommand)), Call(Some(X.Reply(LATE_ID + 1, true)), {}));
            && AllHidden(after.pipe.core) && !after.pipe.worker.off && after.pipe.stale == {} && after.pipe.gaveUp == {}
            && LastOf(P.Backlog(after.pipe), LATE_KEY).None?
            && LATE_ID in TextIds(after.xdg, LATE_KEY)
  {
    var c, reply := p.worker.inbox[0], Some(X.Reply(LATE_ID + 1, true));
    var taken := P.Apply(p, P.TakeCommand);
    assert taken == p.(worker := p.worker.(inbox := p.worker.inbox[1..], running := Some(c)));
    SecondShown(x, c);
    ShowEnds(taken, c);
    assert Apply(Desktop(taken, x), Call(reply, {})) == Calls(Desktop(taken, x), c, reply, {});
  }

  lemma SecondShown(x: X.Xdg, c: NotifyCommand)
    requires Unwatched(x, LATE_ID) && c.Show? && c.Key() == LATE_KEY && IsHidden(c.notification)
    ensures var reply := Some(X.Reply(LATE_ID + 1, true));
            && Enabled(x, StepOf(c, reply, {})) && Works(x, c, reply, {}) && Landed(c, reply)
            && LATE_ID in TextIds(X.Apply(x, StepOf(c, reply, {})), LATE_KEY)
  {
    UnwatchedShow(x, c.notification, LATE_ID);
    HiddenContentLeaves(x, c, Some(X.Reply(LATE_ID + 1, true)), {}, LATE_ID);
  }

  lemma ShowEnds(p: P.Pipeline, c: NotifyCommand)
    requires p.worker.running == Some(c) && c.Show? && !p.worker.off && p.core.queue == []
    ensures var after := P.CallEnds(p, true, true);
            && after.core == p.core && !after.worker.off && after.stale == p.stale && after.gaveUp == p.gaveUp
            && P.Backlog(after) == p.worker.inbox
  {
  }

  /** "Hide message text" can leave text on the freedesktop server with every call working and
      nothing dropped: 16 chats are shown with click waiters, one more without, and the next
      message of that one waits as a show when the preview goes off. The show opens a second
      notification, and the older one keeps its text, with no command of the chat left. */
  lemma OldTextSurvivesHide(keys: seq<NotifyKey>)
    requires Lists(keys, Exec(Desktops.START, UntilHide()).pipe.core)
    ensures var d := Exec(Desktops.START, UntilHide() + HideSteps(keys));
            && AllHidden(d.pipe.core) && !d.pipe.worker.off && d.pipe.stale == {} && d.pipe.gaveUp == {}
            && LastOf(P.Backlog(d.pipe), LATE_KEY).None?
            && LATE_ID in TextIds(d.xdg, LATE_KEY)
  {
    ShowWaitsBeforeHide();
    ExecConcat(Desktops.START, UntilHide(), HideSteps(keys));
    HiddenShowRuns(Exec(Desktops.START, UntilHide()), keys);
  }
}
