/** What the freedesktop server shows for a chat after each step of the backend
    (crates/thinwire-notify/src/xdg.rs), and when that is one notification with the text of
    the newest command. */
module XdgScreens {
  import opened Wrappers
  import opened Commands
  import Notify
  import opened IdBooks
  import opened XdgBackends

  /** The notifications of a chat that are on the screen. */
  ghost function OpenOf(x: Xdg, k: NotifyKey): set<nat> {
    set id | id in x.open && id in x.notes && x.notes[id].key == k
  }

  /** Of these, the ones with text or a sender. */
  ghost function TextIds(x: Xdg, k: NotifyKey): set<nat> {
    set id | id in OpenOf(x, k) && !Notify.IsHidden(x.notes[id])
  }

  ghost predicate Enabled(x: Xdg, step: Step) {
    match step
    case ShowCommand(note, reply, _) => ReplyOk(x, note.key, reply)
    case UpdateCommand(note, reply, fails) => ReplyOk(CloseUnwatched(x, note.key, fails), note.key, reply)
    case _ => true
  }

  /** The ids that a limit takes out of the book in this step and whose close works. */
  ghost function PushedOut(x: Xdg, step: Step): set<nat> {
    match step
    case ShowCommand(note, reply, fails) => set i | i in ShowNow(x, note, reply).book.evicted && i !in fails
    case UpdateCommand(note, reply, fails) => set i | i in UpdateWith(x, note, reply, fails).book.evicted && i !in fails
    case _ => {}
  }

  /** The id that the server answers, when the step shows something of the chat. */
  ghost function Answered(x: Xdg, step: Step, k: NotifyKey): set<nat> {
    match step
    case ShowCommand(note, reply, _) => if note.key == k && reply.Some? then {reply.value.id} else {}
    case UpdateCommand(note, reply, _) =>
      if note.key == k && reply.Some? && k in x.book.byKey then {reply.value.id} else {}
    case _ => {}
  }

  /** The ids of the chat that the step closes by itself, not for a limit. */
  ghost function Closes(x: Xdg, step: Step, k: NotifyKey): set<nat> {
    match step
    case UpdateCommand(note, _, fails) =>
      if note.key == k then (set i | i in IdsOf(x.book.unwatched, k) && i !in fails) else {}
    case DismissCommand(key, fails) =>
      if key == k then (set i | i in x.open && Holds(x.book, k, i) && i !in fails) else {}
    case ServerCloses(id) => {id}
    case _ => {}
  }

  /** The older notifications of the chat: the step neither closes them nor shows anything in
      their place. */
  ghost function Stays(x: Xdg, step: Step, k: NotifyKey): set<nat> {
    OpenOf(x, k) - Closes(x, step, k) - PushedOut(x, step) - Answered(x, step, k)
  }

  /** What the chat shows after a step: the older notifications that stay, as they were, and
      the answered one with the new content. */
  ghost predicate Shows(x: Xdg, step: Step, after: Xdg, k: NotifyKey) {
    && OpenOf(after, k) == Stays(x, step, k) + (Answered(x, step, k) - PushedOut(x, step))
    && (forall id :: id in Stays(x, step, k) ==> id in after.notes && after.notes[id] == x.notes[id])
    && (forall id :: id in Answered(x, step, k) ==>
          id in after.notes && (step.ShowCommand? || step.UpdateCommand?) && after.notes[id] == step.note)
  }

  lemma ShowShows(x: Xdg, note: Notification, reply: Option<Reply>, fails: set<nat>, k: NotifyKey)
    requires XdgOk(x) && ReplyOk(x, note.key, reply)
    ensures var step := ShowCommand(note, reply, fails);
            Shows(x, step, Apply(x, step), k)
  {
    var step := ShowCommand(note, reply, fails);
    var after := Apply(x, step);
    EvictedClosed(ShowNow(x, note, reply), fails);
    if reply.Some? {
      AnswerShows(x, note, reply.value, fails, after, k);
    } else {
      assert after.notes == x.notes && after.open == x.open - PushedOut(x, step);
    }
  }

  lemma EvictedClosed(x: Xdg, fails: set<nat>)
    ensures CloseEvicted(x, fails).open == x.open - (set i | i in x.book.evicted && i !in fails)
    ensures CloseEvicted(x, fails).notes == x.notes
  {
  }

  lemma AnswerShows(x: Xdg, note: Notification, reply: Reply, fails: set<nat>, after: Xdg, k: NotifyKey)
    requires reply.id in x.open ==> reply.id in x.notes && x.notes[reply.id].key == note.key
    requires after.notes == x.notes[reply.id := note]
    requires after.open == x.open + {reply.id} - PushedOut(x, ShowCommand(note, Some(reply), fails))
    ensures Shows(x, ShowCommand(note, Some(reply), fails), after, k)
  {
  }

  lemma DismissShows(x: Xdg, key: NotifyKey, fails: set<nat>, k: NotifyKey)
    requires XdgOk(x)
    ensures var step := DismissCommand(key, fails);
            Shows(x, step, Apply(x, step), k)
  {
    var step := DismissCommand(key, fails);
    DismissBook(x, key, fails);
    assert forall i :: Holds(x.book, key, i) ==> i in x.notes && x.notes[i].key == key;
    var ids, watched := IdsOf(x.book.unwatched, key), WatchedOf(x.book, key);
    var all := if watched.Some? then ids + [watched.value] else ids;
    assert forall i :: i in all <==> Holds(x.book, key, i);
    assert Apply(x, step).open == CloseAll(x.open, all, fails);
  }

  /** The first half of an update. */
  lemma CloseUnwatchedOpen(x: Xdg, key: NotifyKey, fails: set<nat>, k: NotifyKey)
    requires XdgOk(x)
    ensures var closed := CloseUnwatched(x, key, fails);
            && XdgOk(closed) && closed.notes == x.notes && closed.book.byKey == x.book.byKey
            && OpenOf(closed, k) ==
               OpenOf(x, k) - (if key == k then set i | i in IdsOf(x.book.unwatched, k) && i !in fails else {})
  {
    CloseUnwatchedOk(x, key, fails);
    CloseUnwatchedBook(x, key, fails);
    assert forall i :: i in IdsOf(x.book.unwatched, key) ==> In(x.book.unwatched, key, i);
  }

  lemma UpdateShows(x: Xdg, note: Notification, reply: Option<Reply>, fails: set<nat>, k: NotifyKey)
    requires XdgOk(x) && ReplyOk(CloseUnwatched(x, note.key, fails), note.key, reply)
    ensures var step := UpdateCommand(note, reply, fails);
            Shows(x, step, Apply(x, step), k)
  {
    var step := UpdateCommand(note, reply, fails);
    var closed := CloseUnwatched(x, note.key, fails);
    CloseUnwatchedOpen(x, note.key, fails, k);
    if note.key in x.book.byKey {
      assert ReplaceId(closed.book, note.key) != NEW_NOTIFICATION;
      ShowShows(closed, note, reply, fails, k);
      var show := ShowCommand(note, reply, fails);
      assert PushedOut(closed, show) == PushedOut(x, step) && Answered(closed, show, k) == Answered(x, step, k);
      assert Stays(closed, show, k) == Stays(x, step, k);
    } else {
      assert PushedOut(x, step) == {};
      assert Apply(x, step).open == closed.open;
    }
  }

  /** Every step, every chat. */
  lemma StepShows(x: Xdg, step: Step, k: NotifyKey)
    requires XdgOk(x) && Enabled(x, step)
    ensures Shows(x, step, Apply(x, step), k)
  {
    match step {
      case ShowCommand(note, reply, fails) => ShowShows(x, note, reply, fails, k);
      case UpdateCommand(note, reply, fails) => UpdateShows(x, note, reply, fails, k);
      case DismissCommand(key, fails) => DismissShows(x, key, fails, k);
      case ServerCloses(_) =>
      case WaiterEnds(_) =>
    }
  }

  // ----- a second notification of the chat

  /** After an answered show the chat has an older notification exactly when it had an open
      one that the server did not replace and that no limit closed. */
  lemma OlderRemainsExactly(x: Xdg, note: Notification, reply: Reply, fails: set<nat>)
    requires XdgOk(x) && ReplyOk(x, note.key, Some(reply))
    ensures var step := ShowCommand(note, Some(reply), fails);
            var after := Apply(x, step);
            && (forall o :: o != reply.id ==>
                  (o in OpenOf(after, note.key) <==> o in OpenOf(x, note.key) && o !in PushedOut(x, step)))
            && (forall o :: o in OpenOf(after, note.key) && o != reply.id ==> after.notes[o] == x.notes[o])
  {
    var step := ShowCommand(note, Some(reply), fails);
    StepShows(x, step, note.key);
    assert forall o :: o in OpenOf(Apply(x, step), note.key) && o != reply.id ==> o in Stays(x, step, note.key);
  }

  // ----- the screen with one notification of each chat

  /** What the server shows for the chat is what `screen` shows for it. */
  ghost predicate Within(x: Xdg, screen: Screen, k: NotifyKey) {
    forall id :: id in OpenOf(x, k) ==> k in screen && x.notes[id] == screen[k]
  }

  ghost function StepOf(c: NotifyCommand, reply: Option<Reply>, fails: set<nat>): Step {
    match c
    case Show(n) => ShowCommand(n, reply, fails)
    case Update(n) => UpdateCommand(n, reply, fails)
    case Dismiss(key) => DismissCommand(key, fails)
  }

  /** The call returns no error. */
  ghost predicate Works(x: Xdg, c: NotifyCommand, reply: Option<Reply>, fails: set<nat>) {
    match c
    case Show(_) => reply.Some?
    case Update(n) => UpdateWorks(x, n.key, reply, fails)
    case Dismiss(key) => DismissWorks(x, key, fails)
  }

  /** No older notification of the command's chat stays beside what the command leaves, and an
      update shows nothing where the screen has nothing. */
  ghost predicate LeavesOne(x: Xdg, screen: Screen, c: NotifyCommand, reply: Option<Reply>, fails: set<nat>) {
    var step := StepOf(c, reply, fails);
    var k := c.Key();
    match c
    case Show(n) => forall o :: o in Stays(x, step, k) ==> x.notes[o] == n
    case Update(n) =>
      && (forall o :: o in Stays(x, step, k) ==> x.notes[o] == n)
      && (k !in screen ==> Answered(x, step, k) <= PushedOut(x, step))
    case Dismiss(_) => Stays(x, step, k) == {}
  }

  /** A call does on the server what `RunOne` says, exactly when no older notification of the
      chat stays. A call for another chat always does. */
  lemma RunsAsOneExactly(x: Xdg, screen: Screen, c: NotifyCommand, reply: Option<Reply>, fails: set<nat>, k: NotifyKey)
    requires XdgOk(x) && Enabled(x, StepOf(c, reply, fails)) && Within(x, screen, k)
    ensures Within(Apply(x, StepOf(c, reply, fails)), RunOne(screen, c), k)
            <==> k != c.Key() || LeavesOne(x, screen, c, reply, fails)
  {
    var step := StepOf(c, reply, fails);
    var after := Apply(x, step);
    StepShows(x, step, k);
    if k == c.Key() {
      match c {
        case Show(n) => ShowRunsAsOne(x, screen, n, reply, fails, after);
        case Update(n) => UpdateRunsAsOne(x, screen, n, reply, fails, after);
        case Dismiss(_) =>
          assert Answered(x, step, k) == {};
      }
    } else {
      OtherRunsAsOne(x, screen, step, after, k);
    }
  }

  lemma OtherRunsAsOne(x: Xdg, screen: Screen, step: Step, after: Xdg, k: NotifyKey)
    requires Shows(x, step, after, k) && Answered(x, step, k) == {} && Within(x, screen, k)
    ensures Within(after, screen, k)
  {
  }

  lemma ShowRunsAsOne(x: Xdg, screen: Screen, n: Notification, reply: Option<Reply>, fails: set<nat>, after: Xdg)
    requires Shows(x, ShowCommand(n, reply, fails), after, n.key) && Within(x, screen, n.key)
    ensures Within(after, screen[n.key := n], n.key) <==> LeavesOne(x, screen, Show(n), reply, fails)
  {
    var step := ShowCommand(n, reply, fails);
    if Within(after, screen[n.key := n], n.key) {
      forall o | o in Stays(x, step, n.key) ensures x.notes[o] == n { assert o in OpenOf(after, n.key); }
    }
  }

  lemma UpdateRunsAsOne(x: Xdg, screen: Screen, n: Notification, reply: Option<Reply>, fails: set<nat>, after: Xdg)
    requires Shows(x, UpdateCommand(n, reply, fails), after, n.key) && Within(x, screen, n.key)
    ensures Within(after, RunOne(screen, Update(n)), n.key) <==> LeavesOne(x, screen, Update(n), reply, fails)
  {
    var step := UpdateCommand(n, reply, fails);
    if n.key in screen {
      if Within(after, screen[n.key := n], n.key) {
        forall o | o in Stays(x, step, n.key) ensures x.notes[o] == n { assert o in OpenOf(after, n.key); }
      }
    } else {
      assert OpenOf(x, n.key) == {};
      if Within(after, screen, n.key) {
        forall o | o in Answered(x, step, n.key) ensures o in PushedOut(x, step) {
          assert o !in OpenOf(after, n.key);
        }
      }
    }
  }

  // ----- text over a run

  /** The chat gets no new text in this run. */
  ghost predicate NoTextFor(steps: seq<Step>, k: NotifyKey) {
    forall s :: s in steps && (s.ShowCommand? || s.UpdateCommand?) && s.note.key == k ==> Notify.IsHidden(s.note)
  }

  /** What text of a chat one step leaves on the screen. A refused step leaves all. */
  ghost function TextLeft(x: Xdg, step: Step, k: NotifyKey): set<nat> {
    if Enabled(x, step) then TextIds(x, k) * Stays(x, step, k) else TextIds(x, k)
  }

  lemma StepText(x: Xdg, step: Step, k: NotifyKey)
    requires XdgOk(x) && NoTextFor([step], k)
    ensures XdgOk(Apply(x, step)) && TextIds(Apply(x, step), k) == TextLeft(x, step, k)
    ensures forall id :: id in TextIds(Apply(x, step), k) ==> Apply(x, step).notes[id] == x.notes[id]
  {
    ApplyOk(x, step);
    if Enabled(x, step) {
      StepShows(x, step, k);
      TextShown(x, step, Apply(x, step), k);
    } else {
      assert Apply(x, step) == x;
    }
  }

  lemma TextShown(x: Xdg, step: Step, after: Xdg, k: NotifyKey)
    requires Shows(x, step, after, k)
    requires Answered(x, step, k) != {} ==> (step.ShowCommand? || step.UpdateCommand?) && Notify.IsHidden(step.note)
    ensures TextIds(after, k) == TextIds(x, k) * Stays(x, step, k)
    ensures forall id :: id in TextIds(after, k) ==> after.notes[id] == x.notes[id]
  {
    forall id ensures id in TextIds(after, k) <==> id in TextIds(x, k) && id in Stays(x, step, k) {
      assert id in Stays(x, step, k) ==> id in OpenOf(after, k) && id in OpenOf(x, k);
    }
  }

  /** Step `i` of the run left this text. */
  ghost predicate LeftBy(x: Xdg, steps: seq<Step>, i: nat, k: NotifyKey, id: nat)
    requires i < |steps|
  {
    id in TextLeft(Exec(x, steps[..i]), steps[i], k)
  }

  lemma LeftByFirst(x: Xdg, steps: seq<Step>, n: nat, i: nat, k: NotifyKey, id: nat)
    requires i < n <= |steps|
    ensures LeftBy(x, steps[..n], i, k, id) == LeftBy(x, steps, i, k, id)
  {
    assert steps[..n][..i] == steps[..i];
  }

  /** Over every run in which the chat gets no new text: a text stays on the screen exactly
      when it was there and every step left it. */
  lemma {:induction false} TextStaysExactly(x: Xdg, steps: seq<Step>, k: NotifyKey, id: nat)
    requires XdgOk(x) && NoTextFor(steps, k)
    ensures XdgOk(Exec(x, steps))
    ensures id in TextIds(Exec(x, steps), k) <==>
              id in TextIds(x, k) && forall i :: 0 <= i < |steps| ==> LeftBy(x, steps, i, k, id)
  {
    if steps != [] {
      var n := |steps| - 1;
      var first := steps[..n];
      assert steps == first + [steps[n]];
      assert NoTextFor(first, k) && NoTextFor([steps[n]], k);
      TextStaysExactly(x, first, k, id);
      LastLeft(x, steps, k, id);
      forall i | 0 <= i < n ensures LeftBy(x, first, i, k, id) == LeftBy(x, steps, i, k, id) {
        LeftByFirst(x, steps, n, i, k, id);
      }
    }
  }

  lemma LastLeft(x: Xdg, steps: seq<Step>, k: NotifyKey, id: nat)
    requires steps != [] && XdgOk(Exec(x, steps[..|steps| - 1])) && NoTextFor([steps[|steps| - 1]], k)
    ensures XdgOk(Exec(x, steps)) && (id in TextIds(Exec(x, steps), k) <==> LeftBy(x, steps, |steps| - 1, k, id))
    ensures id in TextIds(Exec(x, steps), k) ==> id in TextIds(Exec(x, steps[..|steps| - 1]), k)
  {
    StepText(Exec(x, steps[..|steps| - 1]), steps[|steps| - 1], k);
  }

  /** So text only leaves. */
  lemma TextOnlyLeaves(x: Xdg, steps: seq<Step>, k: NotifyKey)
    requires XdgOk(x) && NoTextFor(steps, k)
    ensures XdgOk(Exec(x, steps)) && TextIds(Exec(x, steps), k) <= TextIds(x, k)
  {
    TextStaysExactly(x, steps, k, 0);
    forall id | id in TextIds(Exec(x, steps), k) ensures id in TextIds(x, k) { TextStaysExactly(x, steps, k, id); }
  }

  // ----- hidden content

  /** The server answers, and with the replaced id when there is one. */
  predicate Honoured(x: Xdg, k: NotifyKey, reply: Option<Reply>) {
    reply.Some? && (k in x.book.byKey ==> reply.value.id == x.book.byKey[k])
  }

  /** Hidden content for the chat: the text that it leaves is that of lost ids and of unwatched
      ones. A show leaves every unwatched id that no limit pushes out; an update leaves those
      whose close failed. */
  lemma HiddenContentLeaves(x: Xdg, c: NotifyCommand, reply: Option<Reply>, fails: set<nat>, id: nat)
    requires XdgOk(x) && c.IsContent() && Notify.IsHidden(c.notification)
    requires Enabled(x, StepOf(c, reply, fails)) && Honoured(x, c.Key(), reply)
    ensures var step := StepOf(c, reply, fails);
            id in TextIds(Apply(x, step), c.Key()) <==>
              && id in TextIds(x, c.Key()) && id !in PushedOut(x, step)
              && (Lost(x, id) || (In(x.book.unwatched, c.Key(), id) && (c.Update? ==> id in fails)))
  {
    var step, k := StepOf(c, reply, fails), c.Key();
    StepText(x, step, k);
    if id in TextIds(x, k) {
      assert id in x.open && x.notes[id].key == k;
      assert Lost(x, id) || Holds(x.book, k, id);
      assert Holds(x.book, k, id) ==> !Lost(x, id);
    }
  }

  /** For a chat none of whose texts is lost, pushed out, or fails to close: hidden content
      takes all its text off the screen exactly when it comes as an update, or the chat has no
      open unwatched notification with text. */
  lemma HiddenContentTakesAllExactly(x: Xdg, c: NotifyCommand, reply: Option<Reply>, fails: set<nat>)
    requires XdgOk(x) && c.IsContent() && Notify.IsHidden(c.notification)
    requires Enabled(x, StepOf(c, reply, fails)) && Honoured(x, c.Key(), reply)
    requires forall id :: id in TextIds(x, c.Key()) ==>
               !Lost(x, id) && (c.Update? ==> id !in fails) && id !in PushedOut(x, StepOf(c, reply, fails))
    ensures TextIds(Apply(x, StepOf(c, reply, fails)), c.Key()) == {} <==>
              c.Update? || forall id :: id in TextIds(x, c.Key()) ==> !In(x.book.unwatched, c.Key(), id)
  {
    var after := Apply(x, StepOf(c, reply, fails));
    forall id ensures id in TextIds(after, c.Key()) <==>
                        id in TextIds(x, c.Key()) && In(x.book.unwatched, c.Key(), id) && c.Show?
    {
      HiddenContentLeaves(x, c, reply, fails, id);
    }
  }

  /** So an update that joins a waiting show does not do what the two do one after the other:
      they close an unwatched text of the chat, and the one show leaves it. */
  lemma JoinedUpdateLeavesText(x: Xdg, was: Notification, now: Notification,
                               reply: Reply, update: Option<Reply>, id: nat)
    requires XdgOk(x) && was.key == now.key && Notify.IsHidden(now)
    requires id in TextIds(x, now.key) && In(x.book.unwatched, now.key, id)
    requires ReplyOk(x, now.key, Some(reply)) && Honoured(x, now.key, Some(reply)) && reply.id != id
    requires id !in PushedOut(x, ShowCommand(now, Some(reply), {}))
    requires Enabled(Apply(x, ShowCommand(was, Some(reply), {})), UpdateCommand(now, update, {}))
    ensures id in TextIds(Apply(x, ShowCommand(now, Some(reply), {})), now.key)
    ensures var shown := Apply(x, ShowCommand(was, Some(reply), {}));
            id !in TextIds(Apply(shown, UpdateCommand(now, update, {})), now.key)
  {
    HiddenContentLeaves(x, Show(now), Some(reply), {}, id);
    StillUnwatched(x, was, reply, id);
    ApplyOk(x, ShowCommand(was, Some(reply), {}));
    UpdateCloses(Apply(x, ShowCommand(was, Some(reply), {})), now, update, id);
  }

  /** A show that neither replaces nor pushes out an unwatched id leaves it unwatched. */
  lemma StillUnwatched(x: Xdg, note: Notification, reply: Reply, id: nat)
    requires XdgOk(x) && ReplyOk(x, note.key, Some(reply)) && reply.id != id
    requires id in OpenOf(x, note.key) && In(x.book.unwatched, note.key, id)
    requires id !in PushedOut(x, ShowCommand(note, Some(reply), {}))
    ensures In(Apply(x, ShowCommand(note, Some(reply), {})).book.unwatched, note.key, id)
  {
    var step := ShowCommand(note, Some(reply), {});
    var after := Apply(x, step);
    ApplyOk(x, step);
    StepShows(x, step, note.key);
    ShowNowHolds(x, note, reply);
    HeldIsTracked(x, note.key, id);
    ShowLosesNone(x, note, reply);
    assert id in Stays(x, step, note.key);
    OpenIsHeld(after, note.key, id);
  }

  lemma HeldIsTracked(x: Xdg, k: NotifyKey, id: nat)
    requires XdgOk(x) && In(x.book.unwatched, k, id)
    ensures !Lost(x, id) && !(k in x.book.byKey && x.book.byKey[k] == id)
  {
    assert Holds(x.book, k, id);
  }

  lemma ShowLosesNone(x: Xdg, note: Notification, reply: Reply)
    requires ReplyOk(x, note.key, Some(reply))
    ensures var after := Apply(x, ShowCommand(note, Some(reply), {}));
            after.leaked <= x.leaked && after.stranded <= x.stranded
  {
    assert ShowNow(x, note, Some(reply)).leaked == x.leaked && ShowNow(x, note, Some(reply)).stranded == x.stranded;
  }

  lemma OpenIsHeld(x: Xdg, k: NotifyKey, id: nat)
    requires XdgOk(x) && id in OpenOf(x, k) && !Lost(x, id)
    ensures Holds(x.book, k, id)
  {
  }

  lemma UpdateCloses(x: Xdg, n: Notification, reply: Option<Reply>, id: nat)
    requires XdgOk(x) && Notify.IsHidden(n) && Enabled(x, UpdateCommand(n, reply, {}))
    requires In(x.book.unwatched, n.key, id)
    ensures id !in TextIds(Apply(x, UpdateCommand(n, reply, {})), n.key)
  {
    StepText(x, UpdateCommand(n, reply, {}), n.key);
  }
}
