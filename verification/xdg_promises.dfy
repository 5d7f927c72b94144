/** What the freedesktop backend promises, for every run. */
module XdgPromises {
  import opened Wrappers
  import opened Commands
  import opened IdBooks
  import opened XdgBackends

  /** Across every run, with any closes failing: an id that is open on the server is the
      watched id of its chat or one of its unwatched ids exactly when the close of it did not
      fail as an evicted id, and its click waiter did not end while it was open. Nothing waits
      to be evicted between two commands. */
  lemma OpenIdIsHeldExactly(steps: seq<Step>, id: nat)
    requires id in Exec(START, steps).open
    ensures var x := Exec(START, steps);
            && x.book.evicted == [] && id in x.notes
            && (Holds(x.book, x.notes[id].key, id) <==> id !in x.leaked && id !in x.stranded)
  {
    ExecOk(steps);
  }

  // ----- how an open id is lost

  /** Of the stranded ids exactly those that are open stay stranded. */
  ghost predicate KeepsStranded(x: Xdg, after: Xdg, id: nat) {
    id in after.stranded <==> id in x.stranded && id in after.open
  }

  lemma ShowStrands(x: Xdg, note: Notification, reply: Option<Reply>, fails: set<nat>, id: nat)
    requires x.stranded <= x.open
    ensures KeepsStranded(x, CloseEvicted(ShowNow(x, note, reply), fails), id)
  {
    assert ShowNow(x, note, reply).stranded == x.stranded;
  }

  lemma DismissStrands(x: Xdg, key: NotifyKey, fails: set<nat>, id: nat)
    requires x.stranded <= x.open
    ensures KeepsStranded(x, CloseEvicted(DismissIds(x, key, fails), fails), id)
  {
  }

  /** Closing the unwatched ids of a chat takes no lost id. */
  lemma CloseUnwatchedKeepsLost(x: Xdg, key: NotifyKey, fails: set<nat>)
    requires XdgOk(x)
    ensures var closed := CloseUnwatched(x, key, fails);
            && closed.stranded == x.stranded <= closed.open && closed.leaked == x.leaked <= closed.open
            && closed.book.evicted == []
  {
    CloseUnwatchedBook(x, key, fails);
    assert forall i :: i in IdsOf(x.book.unwatched, key) ==> Holds(x.book, key, i);
  }

  lemma UpdateStrands(x: Xdg, note: Notification, reply: Option<Reply>, fails: set<nat>, id: nat)
    requires XdgOk(x)
    ensures KeepsStranded(x, CloseEvicted(UpdateWith(x, note, reply, fails), fails), id)
  {
    var closed := CloseUnwatched(x, note.key, fails);
    CloseUnwatchedKeepsLost(x, note.key, fails);
    if ReplaceId(closed.book, note.key) != NEW_NOTIFICATION { ShowStrands(closed, note, reply, fails, id); }
  }

  lemma StepStrands(x: Xdg, step: Step, id: nat)
    requires XdgOk(x)
    ensures id in Apply(x, step).stranded <==>
              id in Apply(x, step).open
              && (id in x.stranded || (step == WaiterEnds(id) && id in x.waiting && id in x.open))
  {
    match step {
      case ShowCommand(note, reply, fails) => ShowStrands(x, note, reply, fails, id);
      case UpdateCommand(note, reply, fails) => UpdateStrands(x, note, reply, fails, id);
      case DismissCommand(key, fails) => DismissStrands(x, key, fails, id);
      case _ =>
    }
  }

  /** The click waiter of the open `id` ends. */
  ghost predicate EndsWhileOpen(x: Xdg, step: Step, id: nat) {
    step == WaiterEnds(id) && id in x.waiting && id in x.open
  }

  /** A limit takes the open `id` out of the book, and the close of it fails. */
  ghost predicate EvictionFails(x: Xdg, step: Step, id: nat) {
    match step
    case ShowCommand(note, reply, fails) =>
      && ReplyOk(x, note.key, reply) && id in fails
      && id in ShowNow(x, note, reply).book.evicted && id in ShowNow(x, note, reply).open
    case UpdateCommand(note, reply, fails) =>
      && ReplyOk(CloseUnwatched(x, note.key, fails), note.key, reply) && id in fails
      && id in UpdateWith(x, note, reply, fails).book.evicted && id in UpdateWith(x, note, reply, fails).open
    case _ => false
  }

  lemma ShowLeaks(x: Xdg, note: Notification, reply: Option<Reply>, fails: set<nat>, id: nat)
    requires x.leaked <= x.open
    ensures var shown := ShowNow(x, note, reply);
            var after := CloseEvicted(shown, fails);
            id in after.leaked <==>
              id in after.open && (id in x.leaked || (id in shown.book.evicted && id in fails && id in shown.open))
  {
    assert ShowNow(x, note, reply).leaked == x.leaked;
  }

  lemma UpdateLeaks(x: Xdg, note: Notification, reply: Option<Reply>, fails: set<nat>, id: nat)
    requires XdgOk(x)
    ensures var shown := UpdateWith(x, note, reply, fails);
            var after := CloseEvicted(shown, fails);
            id in after.leaked <==>
              id in after.open && (id in x.leaked || (id in shown.book.evicted && id in fails && id in shown.open))
  {
    var closed := CloseUnwatched(x, note.key, fails);
    CloseUnwatchedKeepsLost(x, note.key, fails);
    if ReplaceId(closed.book, note.key) != NEW_NOTIFICATION { ShowLeaks(closed, note, reply, fails, id); }
  }

  lemma StepLeaks(x: Xdg, step: Step, id: nat)
    requires XdgOk(x)
    ensures id in Apply(x, step).leaked <==>
              id in Apply(x, step).open && (id in x.leaked || EvictionFails(x, step, id))
  {
    match step {
      case ShowCommand(note, reply, fails) => ShowLeaks(x, note, reply, fails, id);
      case UpdateCommand(note, reply, fails) => UpdateLeaks(x, note, reply, fails, id);
      case DismissCommand(key, fails) => DismissBook(x, key, fails);
      case _ =>
    }
  }

  // ----- in terms of the run

  ghost function At(steps: seq<Step>, j: nat): Xdg
    requires j <= |steps|
  {
    Exec(START, steps[..j])
  }

  /** The places of the run, from its start to its end, where the id is open. */
  ghost function OpenPlaces(steps: seq<Step>, id: nat): set<nat> {
    set j | 0 <= j <= |steps| && id in At(steps, j).open
  }

  /** The steps at which the click waiter of the open id ended. */
  ghost function EndsOpen(steps: seq<Step>, id: nat): set<nat> {
    set i | 0 <= i < |steps| && EndsWhileOpen(At(steps, i), steps[i], id)
  }

  /** The steps at which a limit took the open id out of the book and its close failed. */
  ghost function FailedEvictions(steps: seq<Step>, id: nat): set<nat> {
    set i | 0 <= i < |steps| && EvictionFails(At(steps, i), steps[i], id)
  }

  /** Some event came, and since then the id was open up to place `n`. */
  ghost predicate OpenSince(open: set<nat>, events: set<nat>, n: nat) {
    exists i :: i in events && i < n && forall j :: i < j <= n ==> j in open
  }

  ghost predicate NextMark(marked: set<nat>, open: set<nat>, events: set<nat>, j: nat) {
    j + 1 in marked <==> j + 1 in open && (j in marked || j in events)
  }

  /** A mark that an event sets and that lasts while the id is open. */
  lemma {:induction false} MarkedSince(marked: set<nat>, open: set<nat>, events: set<nat>, n: nat)
    requires 0 !in marked
    requires forall j :: 0 <= j < n ==> NextMark(marked, open, events, j)
    ensures n in marked <==> OpenSince(open, events, n)
  {
    if n > 0 {
      MarkedSince(marked, open, events, n - 1);
      assert NextMark(marked, open, events, n - 1);
      if n - 1 in marked && n in open {
        var i :| i in events && i < n - 1 && forall j :: i < j <= n - 1 ==> j in open;
        assert forall j :: i < j <= n ==> j in open;
      }
      if i :| i in events && i < n - 1 && forall j :: i < j <= n ==> j in open {
        assert OpenSince(open, events, n - 1);
      }
    }
  }

  lemma NextPlace(steps: seq<Step>, j: nat)
    requires j < |steps|
    ensures XdgOk(At(steps, j)) && At(steps, j + 1) == Apply(At(steps, j), steps[j])
  {
    ExecOk(steps[..j]);
    assert steps[..j + 1][..j] == steps[..j];
  }

  lemma NextStranded(steps: seq<Step>, id: nat, j: nat)
    requires j < |steps|
    ensures id in At(steps, j + 1).stranded
            <==> id in At(steps, j + 1).open && (id in At(steps, j).stranded || j in EndsOpen(steps, id))
  {
    NextPlace(steps, j);
    StepStrands(At(steps, j), steps[j], id);
  }

  lemma NextLeaked(steps: seq<Step>, id: nat, j: nat)
    requires j < |steps|
    ensures id in At(steps, j + 1).leaked
            <==> id in At(steps, j + 1).open && (id in At(steps, j).leaked || j in FailedEvictions(steps, id))
  {
    NextPlace(steps, j);
    StepLeaks(At(steps, j), steps[j], id);
  }

  /** An open id is stranded exactly when its click waiter ended while it was open, and it
      stayed open since. */
  lemma StrandedExactly(steps: seq<Step>, id: nat)
    ensures id in Exec(START, steps).stranded
            <==> OpenSince(OpenPlaces(steps, id), EndsOpen(steps, id), |steps|)
  {
    var stranded := set j | 0 <= j <= |steps| && id in At(steps, j).stranded;
    var open, events := OpenPlaces(steps, id), EndsOpen(steps, id);
    forall j | 0 <= j < |steps| ensures NextMark(stranded, open, events, j) {
      NextStranded(steps, id, j);
    }
    MarkedSince(stranded, open, events, |steps|);
    assert steps[..|steps|] == steps;
  }

  /** It is leaked exactly when a limit took it out of the book, the close of it failed, and it
      stayed open since. */
  lemma LeakedExactly(steps: seq<Step>, id: nat)
    ensures id in Exec(START, steps).leaked
            <==> OpenSince(OpenPlaces(steps, id), FailedEvictions(steps, id), |steps|)
  {
    var leaked := set j | 0 <= j <= |steps| && id in At(steps, j).leaked;
    var open, events := OpenPlaces(steps, id), FailedEvictions(steps, id);
    forall j | 0 <= j < |steps| ensures NextMark(leaked, open, events, j) {
      NextLeaked(steps, id, j);
    }
    MarkedSince(leaked, open, events, |steps|);
    assert steps[..|steps|] == steps;
  }

  /** One notification is shown, its id watched. */
  ghost function Watched(note: Notification, id: nat): Xdg {
    START.(book := EMPTY.(byKey := map[note.key := id], byId := map[id := note.key]), waiting := {id}, open := {id},
           notes := map[id := note])
  }

  lemma FirstShown(note: Notification, id: nat)
    requires id != NEW_NOTIFICATION
    ensures Apply(START, ShowCommand(note, Some(Reply(id, true)), {})) == Watched(note, id)
  {
  }

  lemma ShownAgain(note: Notification, id: nat)
    requires id != NEW_NOTIFICATION
    ensures Apply(Watched(note, id).(open := {}), ShowCommand(note, Some(Reply(id, true)), {})) == Watched(note, id)
  {
  }

  lemma OldWaiterEnds(note: Notification, id: nat)
    ensures Apply(Watched(note, id), WaiterEnds(id)) == START.(open := {id}, notes := map[id := note], stranded := {id})
  {
    assert Closed(Watched(note, id).book, id) == EMPTY;
  }

  /** Such a run, for every notification and id: the server closes it, honours the replaced
      id of the next show of the chat, and only then the click waiter of the closed one ends.
      The notification stays on the screen, and no dismiss of the chat closes it. */
  lemma ReopenedIdIsStranded(note: Notification, id: nat)
    requires id != NEW_NOTIFICATION
    ensures var show := ShowCommand(note, Some(Reply(id, true)), {});
            var x := Exec(START, [show, ServerCloses(id), show, WaiterEnds(id)]);
            id in x.open && id !in x.leaked && !Holds(x.book, note.key, id)
            && id in Apply(x, DismissCommand(note.key, {})).open
  {
    var show := ShowCommand(note, Some(Reply(id, true)), {});
    FirstShown(note, id);
    assert Apply(Watched(note, id), ServerCloses(id)) == Watched(note, id).(open := {});
    ShownAgain(note, id);
    OldWaiterEnds(note, id);
    FourSteps(show, ServerCloses(id), show, WaiterEnds(id));
  }

  lemma FourSteps(a: Step, b: Step, c: Step, d: Step)
    ensures Exec(START, [a, b, c, d]) == Apply(Apply(Apply(Apply(START, a), b), c), d)
  {
    assert [a, b, c, d][..3] == [a, b, c] && [a, b, c][..2] == [a, b] && [a, b][..1] == [a] && [a][..0] == [];
    assert Exec(START, []) == START;
    assert Exec(START, [a]) == Apply(START, a);
    assert Exec(START, [a, b]) == Apply(Exec(START, [a]), b);
    assert Exec(START, [a, b, c]) == Apply(Exec(START, [a, b]), c);
  }

  /** The limits, in every reachable state. */
  lemma LimitsHold(steps: seq<Step>, key: NotifyKey)
    ensures var x := Exec(START, steps);
            && |IdsOf(x.book.unwatched, key)| <= MAX_UNWATCHED_PER_CHAT
            && Total(x.book.unwatched) <= MAX_UNWATCHED_TOTAL
            && |x.waiting| <= MAX_CLICK_WAITERS
  {
    ExecOk(steps);
  }

  /** A replace uses only an id that the server gave this chat, that still has a live
      click waiter, and that no other chat can use. */
  lemma ReplaceIsSafe(steps: seq<Step>, key: NotifyKey, other: NotifyKey)
    ensures var x := Exec(START, steps);
            var id := ReplaceId(x.book, key);
            id != NEW_NOTIFICATION ==>
              && id in x.notes && x.notes[id].key == key && id in x.waiting
              && (other != key ==> ReplaceId(x.book, other) != id && !In(x.book.unwatched, other, id))
              && !In(x.book.unwatched, key, id)
  {
    ExecOk(steps);
  }

  /** After a dismiss, the chat has no open notification but those whose close failed. */
  lemma DismissClosesChat(x: Xdg, key: NotifyKey, fails: set<nat>, id: nat)
    requires XdgOk(x)
    ensures var after := Apply(x, DismissCommand(key, fails));
            id in after.open && id in after.notes && after.notes[id].key == key && !Lost(after, id) ==> id in fails
  {
    ApplyOk(x, DismissCommand(key, fails));
    DismissBook(x, key, fails);
  }

  /** After an update that replaced the watched notification, the chat shows only the
      new text, but for unwatched ids whose close failed. An update of a chat with no
      watched id opens nothing. */
  lemma UpdateLeavesOnlyNewText(x: Xdg, note: Notification, reply: Option<Reply>, fails: set<nat>, id: nat)
    requires XdgOk(x) && ReplyOk(CloseUnwatched(x, note.key, fails), note.key, reply)
    ensures var after := Apply(x, UpdateCommand(note, reply, fails));
            && (ReplaceId(x.book, note.key) == NEW_NOTIFICATION ==> after.open <= x.open)
            && (reply.Some? && reply.value.id == ReplaceId(x.book, note.key)
                && id in after.open && id in after.notes && after.notes[id].key == note.key && !Lost(after, id)
                ==> (id == reply.value.id && after.notes[id] == note) || id in fails)
  {
    CloseUnwatchedBook(x, note.key, fails);
    CloseUnwatchedOk(x, note.key, fails);
    var closed := CloseUnwatched(x, note.key, fails);
    if reply.Some? && reply.value.id == ReplaceId(x.book, note.key) {
      ShowSameOk(closed, note, reply.value);
      ShownOk(closed.book, note.key, reply.value.id);
    }
  }

  /** No id that was in the book is open and out of it. */
  ghost predicate KeepsHeld(x: Xdg, after: Xdg) {
    forall id :: id in after.open && id in x.notes && Holds(x.book, x.notes[id].key, id)
                 ==> Holds(after.book, x.notes[id].key, id)
  }

  /** The end of a click waiter keeps every open id closable exactly when its own id is
      not open, or was lost before. */
  lemma WaiterEndKeepsExactly(x: Xdg, id: nat)
    requires XdgOk(x)
    ensures KeepsHeld(x, Ended(x, id)) <==> id !in x.open || Lost(x, id)
  {
    ClosedOk(x.book, id);
    var after := Ended(x, id);
    if id in x.open && !Lost(x, id) {
      assert Holds(x.book, x.notes[id].key, id) && !Holds(after.book, x.notes[id].key, id);
    } else {
      assert forall o :: o in x.open && o in x.notes && Holds(x.book, x.notes[o].key, o) ==> o != id;
    }
  }
}
