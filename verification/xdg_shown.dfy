/** What the freedesktop backend does with the id that the server answers
    (crates/thinwire-notify/src/xdg.rs, `after_show` and `start_waiter`). */
module XdgShown {
  import opened Wrappers
  import opened Commands
  import opened IdBooks
  import opened IdLimits
  import opened XdgBackends
  import opened XdgScreens

  /** The id has a click waiter after the answer: it had one, or one of 16 is free and its
      thread starts. */
  predicate GetsWaiter(x: Xdg, reply: Reply) {
    reply.id in x.waiting || (|x.waiting| < 16 && reply.spawnOk)
  }

  /** The chat's watched id after an answered show: the new one when it has a waiter. Without
      a free waiter the older one stays; when the thread fails the chat has none. */
  lemma WatchedExactly(x: Xdg, note: Notification, reply: Reply, fails: set<nat>)
    requires XdgOk(x) && ReplyOk(x, note.key, Some(reply))
    ensures var after := Apply(x, ShowCommand(note, Some(reply), fails));
            && after.book.byKey == (if GetsWaiter(x, reply) then x.book.byKey[note.key := reply.id]
                                    else if |x.waiting| >= 16 then x.book.byKey
                                    else x.book.byKey - {note.key})
            && after.waiting == (if GetsWaiter(x, reply) then x.waiting + {reply.id} else x.waiting)
  {
    var key, id := note.key, reply.id;
    if GetsWaiter(x, reply) {
      ShownOk(x.book, key, id);
    } else if |x.waiting| >= 16 {
      AddUnwatchedOk(x.book, key, id);
    } else {
      NoThreadByKey(x, key, id);
    }
  }

  lemma NoThreadByKey(x: Xdg, key: NotifyKey, id: nat)
    requires XdgOk(x) && NewId(x, id)
    ensures AddUnwatched(Closed(Shown(x.book, key, id), id), key, id).byKey == x.book.byKey - {key}
  {
    var shown := Shown(x.book, key, id);
    ShownOk(x.book, key, id);
    ClosedOk(shown, id);
    AddUnwatchedOk(Closed(shown, id), key, id);
    NewIdWatchedNowhere(x, id);
    ClosedByKey(x.book.byKey, Closed(shown, id).byKey, key, id);
  }

  lemma NewIdWatchedNowhere(x: Xdg, id: nat)
    requires XdgOk(x) && NewId(x, id)
    ensures forall k :: k in x.book.byKey ==> x.book.byKey[k] != id
  {
  }

  lemma ClosedByKey(before: map<NotifyKey, nat>, closed: map<NotifyKey, nat>, key: NotifyKey, id: nat)
    requires forall k :: k in before ==> before[k] != id
    requires forall k :: k in closed <==> k in before[key := id] && before[key := id][k] != id
    requires forall k :: k in closed ==> closed[k] == before[key := id][k]
    ensures closed == before - {key}
  {
  }

  // ----- the id that was just shown stays

  lemma {:induction false} EvictOverOrder(b: Book)
    ensures forall e :: e in EvictOver(b).order ==> e in b.order
    decreases |b.order|
  {
    if Total(b.unwatched) > MAX_UNWATCHED_TOTAL && b.order != [] {
      EvictOverOrder(EvictOldest(b));
    }
  }

  lemma AddedOrder(b: Book, key: NotifyKey, id: nat)
    ensures forall e :: e in AddUnwatched(b, key, id).order ==> e in b.order || e == (key, id)
  {
    if !In(b.unwatched, key, id) {
      var over := EvictOver(Appended(b, key, id));
      EvictOverOrder(Appended(b, key, id));
      LiveFacts(over.order, over.unwatched);
    }
  }

  lemma AddedTotal(b: Book, key: NotifyKey, id: nat)
    requires BookOk(b)
    ensures Total(AddUnwatched(b, key, id).unwatched) <= Total(b.unwatched) + 1
  {
    AddUnwatchedOk(b, key, id);
    if !In(b.unwatched, key, id) && |IdsOf(b.unwatched, key)| == MAX_UNWATCHED_PER_CHAT {
      ChatLimitEvictsOldest(b, key, id);
      TotalSet(b.unwatched, key, b.unwatched[key][1..] + [id]);
    }
  }

  /** The server never used the id for this chat before, or there is room for it and for the
      one that it may push to the unwatched ones. */
  ghost predicate MayStay(b: Book, key: NotifyKey, id: nat) {
    (key, id) !in b.order || Total(b.unwatched) + 1 < MAX_UNWATCHED_TOTAL
  }

  lemma MayStayLater(x: Xdg, key: NotifyKey, id: nat)
    requires XdgOk(x) && NewId(x, id) && MayStay(x.book, key, id)
    ensures var closed := Closed(Shown(x.book, key, id), id);
            && BookOk(closed) && !In(closed.unwatched, key, id)
            && ((key, id) !in closed.order || Total(closed.unwatched) < MAX_UNWATCHED_TOTAL)
  {
    var shown := Shown(x.book, key, id);
    ShownOk(x.book, key, id);
    ClosedOk(shown, id);
    NotClosedTotal(shown.unwatched, id);
    if key in x.book.byKey {
      var previous := x.book.byKey[key];
      var moving := x.book.(byKey := x.book.byKey[key := id], byId := x.book.byId - {previous});
      assert previous in x.book.byId;
      AddedOrder(moving, key, previous);
      MovedTotal(x.book, key, id);
    }
  }

  lemma MovedTotal(b: Book, key: NotifyKey, id: nat)
    requires BookOk(b) && key in b.byKey && b.byKey[key] != id
    ensures Total(Shown(b, key, id).unwatched) <= Total(b.unwatched) + 1
  {
    var previous := b.byKey[key];
    var moving := b.(byKey := b.byKey[key := id], byId := b.byId - {previous});
    var same := b.(byKey := map[], byId := map[]);
    AddedTotal(same, key, previous);
    AddedSame(moving, same, key, previous);
  }

  /** The two maps of watched ids play no part in adding an unwatched one. */
  lemma AddedSame(a: Book, b: Book, key: NotifyKey, id: nat)
    requires a.unwatched == b.unwatched && a.order == b.order
    ensures AddUnwatched(a, key, id).unwatched == AddUnwatched(b, key, id).unwatched
  {
    if !In(a.unwatched, key, id) { EvictedSame(Appended(a, key, id), Appended(b, key, id)); }
  }

  lemma {:induction false} EvictedSame(a: Book, b: Book)
    requires a.unwatched == b.unwatched && a.order == b.order
    ensures EvictOver(a).unwatched == EvictOver(b).unwatched && EvictOver(a).order == EvictOver(b).order
    decreases |a.order|
  {
    if Total(a.unwatched) > MAX_UNWATCHED_TOTAL && a.order != [] { EvictedSame(EvictOldest(a), EvictOldest(b)); }
  }

  lemma ShownIsHeld(x: Xdg, note: Notification, reply: Reply)
    requires XdgOk(x) && ReplyOk(x, note.key, Some(reply)) && MayStay(x.book, note.key, reply.id)
    ensures Holds(ShowNow(x, note, Some(reply)).book, note.key, reply.id)
  {
    var key, id := note.key, reply.id;
    if GetsWaiter(x, reply) {
      ShownOk(x.book, key, id);
    } else {
      assert NewId(x, id) && !In(x.book.unwatched, key, id);
      if |x.waiting| >= 16 {
        NewestStays(x.book, key, id);
      } else {
        MayStayLater(x, key, id);
        NewestStays(Closed(Shown(x.book, key, id), id), key, id);
      }
    }
  }

  /** After an answered show the notification that was just shown is open with its content:
      no limit closes it, and its chat has it in the book. */
  lemma ShownIsOpen(x: Xdg, note: Notification, reply: Reply, fails: set<nat>)
    requires XdgOk(x) && ReplyOk(x, note.key, Some(reply)) && MayStay(x.book, note.key, reply.id)
    ensures var after := Apply(x, ShowCommand(note, Some(reply), fails));
            && reply.id in OpenOf(after, note.key) && after.notes[reply.id] == note
            && Holds(after.book, note.key, reply.id)
  {
    var step := ShowCommand(note, Some(reply), fails);
    ShownIsHeld(x, note, reply);
    ShowNowOk(x, note, Some(reply));
    assert reply.id !in PushedOut(x, step);
    StepShows(x, step, note.key);
    assert reply.id in Answered(x, step, note.key);
  }

  // ----- which older one a limit closes

  /** 16 waiters run, and the chat has 8 unwatched notifications: a show under a new id
      closes the oldest of them, and nothing else of any chat. */
  lemma NinthClosesOldest(x: Xdg, note: Notification, reply: Reply)
    requires XdgOk(x) && ReplyOk(x, note.key, Some(reply))
    requires reply.id !in x.waiting && |x.waiting| >= 16
    requires |IdsOf(x.book.unwatched, note.key)| == MAX_UNWATCHED_PER_CHAT
    ensures var ids := x.book.unwatched[note.key];
            var after := Apply(x, ShowCommand(note, Some(reply), {}));
            && after.open == x.open - {ids[0]} + {reply.id}
            && IdsOf(after.book.unwatched, note.key) == ids[1..] + [reply.id]
  {
    var key, id := note.key, reply.id;
    assert NewId(x, id) && !In(x.book.unwatched, key, id);
    ChatLimitEvictsOldest(x.book, key, id);
    var ids := x.book.unwatched[key];
    assert In(x.book.unwatched, key, ids[0]);
    assert AddUnwatched(x.book, key, id).evicted == [ids[0]];
  }

  /** The same with room in the chat and 64 unwatched ids in all: the one with the oldest
      order entry closes, of whatever chat. */
  lemma FullBookClosesOldest(x: Xdg, note: Notification, reply: Reply) returns (i: nat)
    requires XdgOk(x) && ReplyOk(x, note.key, Some(reply))
    requires reply.id !in x.waiting && |x.waiting| >= 16
    requires |IdsOf(x.book.unwatched, note.key)| < MAX_UNWATCHED_PER_CHAT
    requires Total(x.book.unwatched) == MAX_UNWATCHED_TOTAL && (note.key, reply.id) !in x.book.order
    ensures IsFirstLive(x.book.order, x.book.unwatched, i)
    ensures Apply(x, ShowCommand(note, Some(reply), {})).open == x.open - {x.book.order[i].1} + {reply.id}
  {
    var key, id := note.key, reply.id;
    assert NewId(x, id) && !In(x.book.unwatched, key, id);
    i := FullBookEvicts(x.book, key, id);
    assert In(x.book.unwatched, x.book.order[i].0, x.book.order[i].1);
    EvictedClosed(ShowNow(x, note, Some(reply)), {});
  }

  lemma FullBookEvicts(b: Book, key: NotifyKey, id: nat) returns (i: nat)
    requires BookOk(b) && b.evicted == [] && !In(b.unwatched, key, id) && (key, id) !in b.order
    requires |IdsOf(b.unwatched, key)| < MAX_UNWATCHED_PER_CHAT && Total(b.unwatched) == MAX_UNWATCHED_TOTAL
    ensures IsFirstLive(b.order, b.unwatched, i) && AddUnwatched(b, key, id).evicted == [b.order[i].1]
  {
    i := TotalLimitEvictsOldest(b, key, id);
    OldIsBefore(b, key, id, i);
    var order := b.order + [(key, id)];
    assert forall j :: 0 <= j < |b.order| ==> order[j] == b.order[j];
  }

  // ----- the order entries of an id whose close keeps failing

  /** A show that gets id 1 and no click thread, and then `n` updates that cannot close it. */
  ghost function FailingCloses(note: Notification, n: nat): seq<Step> {
    if n == 0 then [ShowCommand(note, Some(Reply(1, false)), {})]
    else FailingCloses(note, n - 1) + [UpdateCommand(note, None, {1})]
  }

  lemma FirstUnwatched(note: Notification)
    ensures Repeated(Exec(START, FailingCloses(note, 0)).book, note.key, 1, 1)
  {
    var steps := FailingCloses(note, 0);
    assert steps[..0] == [] && Exec(START, []) == START;
    var shown := Shown(EMPTY, note.key, 1);
    assert NotClosed(map[], 1) == map[];
    assert Closed(shown, 1) == EMPTY;
    assert Repeated(EMPTY.(unwatched := map[note.key := [1]], order := [(note.key, 1)]), note.key, 1, 1);
    TotalSet(map[], note.key, [1]);
    assert IdsOf(map[], note.key) + [1] == [1];
    assert Appended(EMPTY, note.key, 1).unwatched == map[note.key := [1]];
  }

  lemma UpdateRepeats(x: Xdg, note: Notification, n: nat)
    requires Repeated(x.book, note.key, 1, n)
    ensures Repeated(Apply(x, UpdateCommand(note, None, {1})).book, note.key, 1, n + 1)
  {
    assert Failed([1], {1}) == [1] by { assert [1][..0] == []; }
    assert x.book.unwatched - {note.key} == map[];
    assert [1][..0] == [];
    var out := x.book.(unwatched := map[]);
    assert AddAll(out, note.key, []) == out;
    assert AddAll(out, note.key, [1]) == AddUnwatched(out, note.key, 1);
    PutBackRepeats(x.book, note.key, 1, n);
  }

  lemma {:induction false} RunRepeats(note: Notification, n: nat)
    ensures Repeated(Exec(START, FailingCloses(note, n)).book, note.key, 1, n + 1)
  {
    if n == 0 {
      FirstUnwatched(note);
    } else {
      RunRepeats(note, n - 1);
      NextRepeats(note, n);
    }
  }

  lemma NextRepeats(note: Notification, n: nat)
    requires n > 0 && Repeated(Exec(START, FailingCloses(note, n - 1)).book, note.key, 1, n)
    ensures Repeated(Exec(START, FailingCloses(note, n)).book, note.key, 1, n + 1)
  {
    var x := Exec(START, FailingCloses(note, n - 1));
    FailingNext(note, n);
    UpdateRepeats(x, note, n);
  }

  lemma FailingNext(note: Notification, n: nat)
    requires n > 0
    ensures Exec(START, FailingCloses(note, n))
            == Apply(Exec(START, FailingCloses(note, n - 1)), UpdateCommand(note, None, {1}))
  {
    var before := FailingCloses(note, n - 1);
    assert FailingCloses(note, n)[..|before|] == before;
  }

  /** The order of the unwatched ids has no bound: each close that fails puts the id back with
      one more entry, and compaction keeps every entry of an id that is in the book. */
  lemma OrderGrowsWithoutBound(note: Notification, n: nat)
    ensures |Exec(START, FailingCloses(note, n)).book.order| == n + 1
    ensures Exec(START, FailingCloses(note, n)).book.unwatched == map[note.key := [1]]
  {
    RunRepeats(note, n);
  }
}
