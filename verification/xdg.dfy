/** The freedesktop backend: the id book, the click waiters, and the notification
    server (crates/thinwire-notify/src/xdg.rs; Desktop Notifications Specification,
    section 9). Each step is one backend command, or one event between two commands. */
module XdgBackends {
  import opened Wrappers
  import opened Commands
  import opened IdBooks

  const MAX_CLICK_WAITERS := 16

  predicate MayWait(running: nat) { running < MAX_CLICK_WAITERS }

  /** `waiting` are the ids with a click waiter. The rest is the server: the `open`
      ids, the notification last shown under each id, the `leaked` ids, whose close failed
      after a limit took them out of the book, and the `stranded` ids, whose click waiter
      ended while they were open. */
  datatype Xdg = Xdg(
    book: Book, waiting: set<nat>, open: set<nat>, notes: map<nat, Notification>, leaked: set<nat>,
    stranded: set<nat>)

  ghost const START := Xdg(EMPTY, {}, {}, map[], {}, {})

  /** The answer to `Notify`: the id, and whether a new click thread could start. */
  datatype Reply = Reply(id: nat, spawnOk: bool)

  // ----- the commands

  /** The ids whose close fails, in their order. */
  function Failed(ids: seq<nat>, fails: set<nat>): seq<nat> {
    if ids == [] then []
    else
      var rest := Failed(ids[..|ids| - 1], fails);
      if ids[|ids| - 1] in fails then rest + [ids[|ids| - 1]] else rest
  }

  ghost function CloseAll(open: set<nat>, ids: seq<nat>, fails: set<nat>): set<nat> {
    open - set i | i in ids && i !in fails
  }

  /** The server after the calls that close `ids`. */
  ghost function Closing(x: Xdg, ids: seq<nat>, fails: set<nat>): Xdg {
    x.(open := CloseAll(x.open, ids, fails), leaked := CloseAll(x.leaked, ids, fails),
       stranded := CloseAll(x.stranded, ids, fails))
  }

  function FailedWatch(watched: Option<nat>, fails: set<nat>): Option<nat> {
    if watched.Some? && watched.value in fails then watched else None
  }

  /** `dismiss_ids`: close every id of the chat; the ids that stay open go back. */
  ghost function DismissIds(x: Xdg, key: NotifyKey, fails: set<nat>): Xdg {
    var ids, watched := IdsOf(x.book.unwatched, key), WatchedOf(x.book, key);
    Closing(x, if watched.Some? then ids + [watched.value] else ids, fails).(
      book := Keep(Forget(x.book, key), key, FailedWatch(watched, fails), Failed(ids, fails)))
  }

  /** `close_unwatched`: close the unwatched ids of the chat; a failed id goes back. */
  ghost function CloseUnwatched(x: Xdg, key: NotifyKey, fails: set<nat>): Xdg {
    var ids := IdsOf(x.book.unwatched, key);
    Closing(x, ids, fails).(book := AddAll(x.book.(unwatched := x.book.unwatched - {key}), key, Failed(ids, fails)))
  }

  /** `after_show` and `start_waiter`. */
  ghost function Watch(x: Xdg, key: NotifyKey, id: nat, spawnOk: bool): Xdg {
    if id in x.waiting then x.(book := Shown(x.book, key, id))
    else if !MayWait(|x.waiting|) then x.(book := AddUnwatched(x.book, key, id))
    else if spawnOk then x.(book := Shown(x.book, key, id), waiting := x.waiting + {id})
    else x.(book := AddUnwatched(Closed(Shown(x.book, key, id), id), key, id))
  }

  /** `show_now`; no reply means the call failed. */
  ghost function ShowNow(x: Xdg, note: Notification, reply: Option<Reply>): Xdg {
    if reply.None? then x
    else
      var id := reply.value.id;
      Watch(x, note.key, id, reply.value.spawnOk).(open := x.open + {id}, notes := x.notes[id := note])
  }

  ghost function CloseEvicted(x: Xdg, fails: set<nat>): Xdg {
    var closed := Closing(x, x.book.evicted, fails);
    closed.(book := x.book.(evicted := []),
            leaked := closed.leaked + set i | i in x.book.evicted && i in fails && i in x.open)
  }

  ghost function UpdateWith(x: Xdg, note: Notification, reply: Option<Reply>, fails: set<nat>): Xdg {
    var closed := CloseUnwatched(x, note.key, fails);
    if ReplaceId(closed.book, note.key) == NEW_NOTIFICATION then closed else ShowNow(closed, note, reply)
  }

  ghost predicate InBook(b: Book, id: nat) {
    id in b.byId || exists k :: In(b.unwatched, k, id)
  }

  /** An id that the server may give to a new notification. */
  ghost predicate NewId(x: Xdg, id: nat) {
    id != NEW_NOTIFICATION && id !in x.open && id !in x.waiting && !InBook(x.book, id)
  }

  /** The assumption about the server: it answers with the replaced id, open or closed, or
      with an id that is not open and that nobody here knows. */
  ghost predicate ReplyOk(x: Xdg, key: NotifyKey, reply: Option<Reply>) {
    reply.Some? ==>
      var id := reply.value.id;
      id != NEW_NOTIFICATION && (id == ReplaceId(x.book, key) || NewId(x, id))
  }

  // ----- what the calls return

  ghost predicate UpdateWorks(x: Xdg, key: NotifyKey, reply: Option<Reply>, fails: set<nat>) {
    && (forall i :: In(x.book.unwatched, key, i) ==> i !in fails)
    && (ReplaceId(x.book, key) == NEW_NOTIFICATION || reply.Some?)
  }

  ghost predicate DismissWorks(x: Xdg, key: NotifyKey, fails: set<nat>) {
    forall i :: Holds(x.book, key, i) ==> i !in fails
  }

  datatype Step =
    | ShowCommand(note: Notification, reply: Option<Reply>, fails: set<nat>)
    | UpdateCommand(note: Notification, reply: Option<Reply>, fails: set<nat>)
    | DismissCommand(key: NotifyKey, fails: set<nat>)
    | ServerCloses(id: nat)
    | WaiterEnds(id: nat)

  /** `waiter_ended` takes the id out of the book without a look at the server. The id can be
      open then: the server showed a closed id again, or a click did not close it. */
  ghost function Ended(x: Xdg, id: nat): Xdg {
    x.(book := Closed(x.book, id), waiting := x.waiting - {id},
       stranded := if id in x.open then x.stranded + {id} else x.stranded)
  }

  ghost function ServerClosed(x: Xdg, id: nat): Xdg {
    x.(open := x.open - {id}, leaked := x.leaked - {id}, stranded := x.stranded - {id})
  }

  ghost function Apply(x: Xdg, step: Step): Xdg {
    match step
    case ShowCommand(note, reply, fails) =>
      if ReplyOk(x, note.key, reply) then CloseEvicted(ShowNow(x, note, reply), fails) else x
    case UpdateCommand(note, reply, fails) =>
      if ReplyOk(CloseUnwatched(x, note.key, fails), note.key, reply)
      then CloseEvicted(UpdateWith(x, note, reply, fails), fails) else x
    case DismissCommand(key, fails) => CloseEvicted(DismissIds(x, key, fails), fails)
    case ServerCloses(id) => ServerClosed(x, id)
    case WaiterEnds(id) => if id in x.waiting then Ended(x, id) else x
  }

  ghost function Exec(x: Xdg, steps: seq<Step>): Xdg {
    if steps == [] then x else Apply(Exec(x, steps[..|steps| - 1]), steps[|steps| - 1])
  }

  // ----- the invariant

  ghost predicate Holds(b: Book, key: NotifyKey, id: nat) {
    (key in b.byKey && b.byKey[key] == id) || In(b.unwatched, key, id)
  }

  /** Every id of the book is one that the server gave to that chat, watched or
      unwatched but not both, and a watched id has a click waiter. */
  ghost predicate Owned(x: Xdg) {
    && (forall k :: k in x.book.byKey ==>
          && x.book.byKey[k] != NEW_NOTIFICATION && x.book.byKey[k] in x.waiting
          && x.book.byKey[k] in x.notes && x.notes[x.book.byKey[k]].key == k
          && !In(x.book.unwatched, k, x.book.byKey[k]))
    && (forall k, i :: In(x.book.unwatched, k, i) ==> i != NEW_NOTIFICATION && i in x.notes && x.notes[i].key == k)
  }

  predicate Lost(x: Xdg, id: nat) {
    id in x.leaked || id in x.stranded
  }

  /** Every open id is in the book, or evicted and about to be closed, or lost. */
  ghost predicate Conserved(x: Xdg) {
    forall id :: id in x.open ==>
      id in x.notes && (Lost(x, id) || id in x.book.evicted || Holds(x.book, x.notes[id].key, id))
  }

  /** An id of the book is neither lost nor evicted. */
  ghost predicate Apart(x: Xdg) {
    && (forall k, id :: Holds(x.book, k, id) ==> id !in x.leaked && id !in x.stranded)
    && (forall k, id :: Holds(x.book, k, id) ==> id !in x.book.evicted)
  }

  ghost predicate MidOk(x: Xdg) {
    && BookOk(x.book) && Owned(x) && Conserved(x) && Apart(x) && |x.waiting| <= MAX_CLICK_WAITERS
    && x.leaked <= x.open && x.stranded <= x.open
  }

  ghost predicate XdgOk(x: Xdg) {
    MidOk(x) && x.book.evicted == []
  }

  // ----- each step keeps it

  lemma {:induction false} FailedFacts(ids: seq<nat>, fails: set<nat>)
    ensures forall i :: i in Failed(ids, fails) <==> i in ids && i in fails
    ensures |Failed(ids, fails)| <= |ids|
  {
    if ids != [] {
      var n := |ids| - 1;
      assert ids == ids[..n] + [ids[n]];
      FailedFacts(ids[..n], fails);
    }
  }

  lemma CloseEvictedOk(x: Xdg, fails: set<nat>)
    requires MidOk(x)
    ensures XdgOk(CloseEvicted(x, fails))
  {
    var after := CloseEvicted(x, fails);
    assert forall k, i :: Holds(after.book, k, i) ==> Holds(x.book, k, i);
    assert forall k, i :: In(after.book.unwatched, k, i) <==> In(x.book.unwatched, k, i);
  }

  /** The book after a dismiss: nothing is evicted, and exactly the failed ids are back. */
  ghost predicate Dismissed(before: Book, b: Book, key: NotifyKey, fails: set<nat>) {
    && BookOk(b) && b.evicted == []
    && (forall k :: k in b.byKey <==> k in before.byKey && (k != key || before.byKey[k] in fails))
    && (forall k :: k in b.byKey ==> b.byKey[k] == before.byKey[k])
    && (forall k, i :: In(b.unwatched, k, i) <==> In(before.unwatched, k, i) && (k != key || i in fails))
  }

  lemma DismissedBook(b: Book, key: NotifyKey, fails: set<nat>)
    requires BookOk(b) && b.evicted == []
    ensures var ids := Failed(IdsOf(b.unwatched, key), fails);
            Dismissed(b, Keep(Forget(b, key), key, FailedWatch(WatchedOf(b, key), fails), ids), key, fails)
  {
    var ids := Failed(IdsOf(b.unwatched, key), fails);
    ForgetOk(b, key);
    FailedFacts(IdsOf(b.unwatched, key), fails);
    FailedFit(b, key, ids);
    assert forall k, i :: In(Forget(b, key).unwatched, k, i) <==> In(b.unwatched, k, i) && k != key;
    assert forall i :: i in ids <==> In(b.unwatched, key, i) && i in fails;
    KeepOk(Forget(b, key), key, FailedWatch(WatchedOf(b, key), fails), ids);
  }

  lemma FailedFit(b: Book, key: NotifyKey, ids: seq<nat>)
    requires BookOk(b) && |ids| <= |IdsOf(b.unwatched, key)|
    ensures |ids| <= MAX_UNWATCHED_PER_CHAT
    ensures Total(Forget(b, key).unwatched) + |ids| <= MAX_UNWATCHED_TOTAL
  {
    ForgetOk(b, key);
  }

  lemma DismissBook(x: Xdg, key: NotifyKey, fails: set<nat>)
    requires XdgOk(x)
    ensures Dismissed(x.book, DismissIds(x, key, fails).book, key, fails)
  {
    DismissedBook(x.book, key, fails);
  }

  lemma DismissOk(x: Xdg, key: NotifyKey, fails: set<nat>)
    requires XdgOk(x)
    ensures XdgOk(DismissIds(x, key, fails))
  {
    DismissBook(x, key, fails);
    var after := DismissIds(x, key, fails);
    forall id | id in after.open ensures id in x.notes && (Lost(after, id) || Holds(after.book, x.notes[id].key, id)) {
      assert id in x.open;
      if !Lost(x, id) { assert Holds(x.book, x.notes[id].key, id); }
    }
    assert forall k, i :: Holds(after.book, k, i) ==> Holds(x.book, k, i);
  }

  lemma CloseUnwatchedBook(x: Xdg, key: NotifyKey, fails: set<nat>)
    requires XdgOk(x)
    ensures var b := CloseUnwatched(x, key, fails).book;
            && BookOk(b) && b.evicted == [] && b.byKey == x.book.byKey && b.byId == x.book.byId
            && (forall k, i :: In(b.unwatched, k, i) <==> In(x.book.unwatched, k, i) && (k != key || i in fails))
  {
    var ids := IdsOf(x.book.unwatched, key);
    FailedFacts(ids, fails);
    TotalSet(x.book.unwatched, key, []);
    AddAllOk(x.book.(unwatched := x.book.unwatched - {key}), key, Failed(ids, fails));
  }

  lemma CloseUnwatchedOk(x: Xdg, key: NotifyKey, fails: set<nat>)
    requires XdgOk(x)
    ensures XdgOk(CloseUnwatched(x, key, fails))
  {
    CloseUnwatchedBook(x, key, fails);
    var after := CloseUnwatched(x, key, fails);
    forall id | id in after.open ensures id in x.notes && (Lost(after, id) || Holds(after.book, x.notes[id].key, id)) {
      assert id in x.open;
      if !Lost(x, id) { assert Holds(x.book, x.notes[id].key, id); }
    }
    assert forall k, i :: Holds(after.book, k, i) ==> Holds(x.book, k, i);
  }

  /** A reply with the id of the chat's open notification: nothing new to watch. */
  lemma ShowSameOk(x: Xdg, note: Notification, reply: Reply)
    requires XdgOk(x) && reply.id == ReplaceId(x.book, note.key) && reply.id != NEW_NOTIFICATION
    ensures XdgOk(ShowNow(x, note, Some(reply)))
  {
    ShownOk(x.book, note.key, reply.id);
    var after := ShowNow(x, note, Some(reply));
    assert after.book.byKey == x.book.byKey;
    assert forall id :: id in x.notes ==> id in after.notes && after.notes[id].key == x.notes[id].key;
    assert forall k, i :: Holds(after.book, k, i) ==> Holds(x.book, k, i);
    assert Holds(x.book, note.key, reply.id);
    forall id | id in after.open
      ensures id in after.notes && (Lost(after, id) || Holds(after.book, after.notes[id].key, id))
    {
      if id != reply.id && !Lost(x, id) { assert Holds(x.book, x.notes[id].key, id); }
    }
  }

  /** What a book may look like after the server gave a new `id` to `key`. */
  ghost predicate Recorded(before: Book, b: Book, key: NotifyKey, id: nat) {
    && BookOk(b)
    && (forall k :: k in b.byKey
          ==> (k == key && b.byKey[k] == id) || (k in before.byKey && b.byKey[k] == before.byKey[k]))
    && (forall k :: k in b.byKey ==> !In(b.unwatched, k, b.byKey[k]))
    && (forall k, i :: In(b.unwatched, k, i) ==> Holds(before, k, i) || (k == key && i == id))
    && (forall k, i :: Holds(before, k, i) ==> Holds(b, k, i) || i in b.evicted)
    && (Holds(b, key, id) || id in b.evicted)
    && (forall k, i :: Holds(b, k, i) ==> i !in b.evicted)
  }

  lemma RecordedOk(x: Xdg, after: Xdg, note: Notification, id: nat)
    requires XdgOk(x) && NewId(x, id) && Recorded(x.book, after.book, note.key, id)
    requires after.waiting == x.waiting || after.waiting == x.waiting + {id}
    requires |after.waiting| <= MAX_CLICK_WAITERS
    requires note.key in after.book.byKey && after.book.byKey[note.key] == id ==> id in after.waiting
    requires after.open == x.open + {id} && after.notes == x.notes[id := note]
    requires after.leaked == x.leaked && after.stranded == x.stranded
    ensures MidOk(after)
  {
    RecordedOwned(x, after, note, id);
    forall o | o in after.open
      ensures && o in after.notes
              && (Lost(after, o) || o in after.book.evicted || Holds(after.book, after.notes[o].key, o))
    {
      if o != id && !Lost(x, o) {
        assert Holds(x.book, x.notes[o].key, o);
      }
    }
    assert forall k, i :: Holds(after.book, k, i) ==> Holds(x.book, k, i) || i == id;
  }

  lemma RecordedOwned(x: Xdg, after: Xdg, note: Notification, id: nat)
    requires Owned(x) && NewId(x, id) && Inverse(x.book) && Recorded(x.book, after.book, note.key, id)
    requires x.waiting <= after.waiting
    requires note.key in after.book.byKey && after.book.byKey[note.key] == id ==> id in after.waiting
    requires after.notes == x.notes[id := note]
    ensures Owned(after)
  {
    forall k, i | Holds(x.book, k, i) ensures i != NEW_NOTIFICATION && i != id && i in x.notes && x.notes[i].key == k {
      assert InBook(x.book, i);
    }
  }

  /** A new id with a click waiter. The id it replaces goes to the unwatched ones. */
  lemma ShownRecorded(x: Xdg, key: NotifyKey, id: nat)
    requires BookOk(x.book) && Owned(x) && NewId(x, id) && x.book.evicted == []
    ensures Recorded(x.book, Shown(x.book, key, id), key, id)
  {
    ShownOk(x.book, key, id);
    ShownApart(x, key, id);
    ShownEvicted(x, key, id);
    assert key !in x.book.byKey || x.book.byKey[key] != id by {
      if key in x.book.byKey { assert InBook(x.book, x.book.byKey[key]); }
    }
    ReplacedRecorded(x.book, Shown(x.book, key, id), key, id);
  }

  lemma ReplacedRecorded(before: Book, b: Book, key: NotifyKey, id: nat)
    requires BookOk(b) && b.byKey == before.byKey[key := id]
    requires forall k :: k in b.byKey ==> !In(b.unwatched, k, b.byKey[k])
    requires forall k, i :: In(before.unwatched, k, i) ==> In(b.unwatched, k, i) || i in b.evicted
    requires forall k, i :: In(b.unwatched, k, i) ==>
               In(before.unwatched, k, i) || (k == key && key in before.byKey && i == before.byKey[key])
    requires key in before.byKey ==> In(b.unwatched, key, before.byKey[key]) || before.byKey[key] in b.evicted
    requires forall k, i :: Holds(b, k, i) ==> i !in b.evicted
    ensures Recorded(before, b, key, id)
  {
  }

  /** No id is watched and unwatched, or in the lists of two chats. */
  ghost predicate Split(b: Book) {
    && OneChat(b.unwatched)
    && (forall k, other :: k in b.byKey ==> !In(b.unwatched, other, b.byKey[k]))
  }

  lemma OwnedSplit(x: Xdg)
    requires Owned(x)
    ensures Split(x.book)
  {
  }

  /** What joins the unwatched ids can push others out; these are in the book no more. */
  lemma AddedEvicted(b: Book, key: NotifyKey, id: nat)
    requires ListsOk(b.unwatched) && Covered(b) && Total(b.unwatched) <= MAX_UNWATCHED_TOTAL && Split(b)
    requires id !in b.evicted && forall k, i :: Holds(b, k, i) ==> i !in b.evicted && i != id
    ensures var after := AddUnwatched(b, key, id);
            forall k, i :: Holds(after, k, i) ==> i !in after.evicted
  {
    AddUnwatchedOk(b, key, id);
    assert EvictedLeft(b) by {
      forall k, i | In(b.unwatched, k, i) ensures i !in b.evicted { assert Holds(b, k, i); }
    }
    assert forall k :: In(b.unwatched, k, id) ==> Holds(b, k, id);
    AddUnwatchedLeaves(b, key, id);
    var after := AddUnwatched(b, key, id);
    forall k | k in after.byKey ensures after.byKey[k] !in after.evicted {
      assert Holds(b, k, b.byKey[k]);
    }
  }

  lemma ShownEvicted(x: Xdg, key: NotifyKey, id: nat)
    requires BookOk(x.book) && Owned(x) && NewId(x, id) && x.book.evicted == []
    ensures var b := Shown(x.book, key, id);
            forall k, i :: Holds(b, k, i) ==> i !in b.evicted
  {
    OwnedSplit(x);
    if key in x.book.byKey && x.book.byKey[key] != id {
      var previous := x.book.byKey[key];
      var moving := x.book.(byKey := x.book.byKey[key := id], byId := x.book.byId - {previous});
      assert forall k :: In(x.book.unwatched, k, id) ==> InBook(x.book, id);
      AddedEvicted(moving, key, previous);
      assert Shown(x.book, key, id).unwatched == AddUnwatched(moving, key, previous).unwatched;
    }
  }

  lemma ShownApart(x: Xdg, key: NotifyKey, id: nat)
    requires BookOk(x.book) && Owned(x) && NewId(x, id)
    ensures var b := Shown(x.book, key, id);
            forall k :: k in b.byKey ==> !In(b.unwatched, k, b.byKey[k])
  {
    ShownOk(x.book, key, id);
    var b := Shown(x.book, key, id);
    forall k | k in b.byKey ensures !In(b.unwatched, k, b.byKey[k]) {
      if k == key { assert In(x.book.unwatched, key, id) ==> InBook(x.book, id); }
    }
  }

  lemma AddedRecorded(x: Xdg, key: NotifyKey, id: nat)
    requires BookOk(x.book) && Owned(x) && NewId(x, id) && x.book.evicted == []
    ensures Recorded(x.book, AddUnwatched(x.book, key, id), key, id)
  {
    AddUnwatchedOk(x.book, key, id);
    OwnedSplit(x);
    assert forall k, i :: Holds(x.book, k, i) ==> InBook(x.book, i);
    AddedEvicted(x.book, key, id);
    var b := AddUnwatched(x.book, key, id);
    forall k | k in b.byKey ensures !In(b.unwatched, k, b.byKey[k]) {
      assert b.byKey[k] in x.book.byId;
    }
  }

  /** The click thread did not start: the new id is unwatched, and so is the one it
      replaced. */
  lemma NoThreadRecorded(x: Xdg, key: NotifyKey, id: nat)
    requires BookOk(x.book) && Owned(x) && NewId(x, id) && x.book.evicted == []
    ensures var b := AddUnwatched(Closed(Shown(x.book, key, id), id), key, id);
            Recorded(x.book, b, key, id) && key !in b.byKey
  {
    var shown := Shown(x.book, key, id);
    ShownRecorded(x, key, id);
    ShownOk(x.book, key, id);
    ClosedOk(shown, id);
    NoThreadHolds(x, shown, key, id);
    NoThreadSplit(x, shown, key, id);
    AddedEvicted(Closed(shown, id), key, id);
    AddedAfterClose(x.book, Closed(shown, id), key, id);
  }

  lemma NoThreadSplit(x: Xdg, shown: Book, key: NotifyKey, id: nat)
    requires BookOk(x.book) && Owned(x) && NewId(x, id) && Recorded(x.book, shown, key, id)
    requires shown == Shown(x.book, key, id) && x.book.evicted == []
    requires forall k, i :: Holds(Closed(shown, id), k, i) ==> Holds(x.book, k, i) && i != id
    ensures Split(Closed(shown, id)) && id !in Closed(shown, id).evicted
    ensures forall k, i :: Holds(Closed(shown, id), k, i) ==> i !in Closed(shown, id).evicted
  {
    ClosedOk(shown, id);
    OwnedSplit(x);
    var closed := Closed(shown, id);
    assert Holds(shown, key, id);
    forall k, i | Holds(closed, k, i) ensures i !in closed.evicted { assert Holds(shown, k, i); }
    ShownSplit(x, key, id);
  }

  lemma ShownSplit(x: Xdg, key: NotifyKey, id: nat)
    requires BookOk(x.book) && Owned(x) && NewId(x, id)
    ensures Split(Shown(x.book, key, id))
  {
    ShownOk(x.book, key, id);
    OwnedSplit(x);
    var b := Shown(x.book, key, id);
    assert forall k :: In(x.book.unwatched, k, id) ==> InBook(x.book, id);
  }

  lemma AddedAfterClose(before: Book, closed: Book, key: NotifyKey, id: nat)
    requires BookOk(closed) && key !in closed.byKey
    requires forall k :: k in closed.byKey ==> k in before.byKey && closed.byKey[k] == before.byKey[k]
    requires forall k :: k in closed.byKey ==> !In(closed.unwatched, k, closed.byKey[k])
    requires forall k, i :: Holds(before, k, i) ==> Holds(closed, k, i) || i in closed.evicted
    requires forall k, i :: Holds(closed, k, i) ==> Holds(before, k, i)
    requires var b := AddUnwatched(closed, key, id);
             forall k, i :: Holds(b, k, i) ==> i !in b.evicted
    ensures Recorded(before, AddUnwatched(closed, key, id), key, id) && key !in AddUnwatched(closed, key, id).byKey
  {
    AddUnwatchedOk(closed, key, id);
  }

  lemma NoThreadHolds(x: Xdg, shown: Book, key: NotifyKey, id: nat)
    requires BookOk(x.book) && NewId(x, id) && Recorded(x.book, shown, key, id)
    ensures forall k, i :: Holds(x.book, k, i) ==> i != id && (Holds(Closed(shown, id), k, i) || i in shown.evicted)
    ensures forall k, i :: Holds(Closed(shown, id), k, i) ==> Holds(x.book, k, i) && i != id
  {
    ClosedOk(shown, id);
    forall k, i | Holds(x.book, k, i) ensures i != id { assert InBook(x.book, i); }
  }

  lemma ShowNowOk(x: Xdg, note: Notification, reply: Option<Reply>)
    requires XdgOk(x) && ReplyOk(x, note.key, reply)
    ensures MidOk(ShowNow(x, note, reply))
  {
    if reply.Some? {
      var key, id := note.key, reply.value.id;
      var after := ShowNow(x, note, reply);
      if id == ReplaceId(x.book, key) {
        ShowSameOk(x, note, reply.value);
      } else if !MayWait(|x.waiting|) {
        AddedRecorded(x, key, id);
        assert after.book.byKey == x.book.byKey by { AddUnwatchedOk(x.book, key, id); }
        RecordedOk(x, after, note, id);
      } else if reply.value.spawnOk {
        ShownRecorded(x, key, id);
        RecordedOk(x, after, note, id);
      } else {
        NoThreadRecorded(x, key, id);
        RecordedOk(x, after, note, id);
      }
    }
  }

  /** The book after an answered show: the chat's own, or as it was. */
  lemma ShowNowHolds(x: Xdg, note: Notification, reply: Reply)
    requires XdgOk(x) && ReplyOk(x, note.key, Some(reply))
    ensures var b := ShowNow(x, note, Some(reply)).book;
            && (forall k :: k in b.byKey ==>
                  (k == note.key && b.byKey[k] == reply.id) || (k in x.book.byKey && b.byKey[k] == x.book.byKey[k]))
            && (forall k, i :: In(b.unwatched, k, i) ==> Holds(x.book, k, i) || (k == note.key && i == reply.id))
  {
    var key, id := note.key, reply.id;
    if id == ReplaceId(x.book, key) {
      ShownOk(x.book, key, id);
    } else if !MayWait(|x.waiting|) {
      AddedRecorded(x, key, id);
    } else if reply.spawnOk {
      ShownRecorded(x, key, id);
    } else {
      NoThreadRecorded(x, key, id);
    }
  }

  lemma WaiterEndsOk(x: Xdg, id: nat)
    requires XdgOk(x)
    ensures XdgOk(Ended(x, id))
  {
    ClosedOk(x.book, id);
    var after := Ended(x, id);
    forall o | o in after.open
      ensures o in after.notes && (Lost(after, o) || Holds(after.book, after.notes[o].key, o))
    {
      if !Lost(after, o) { assert Holds(x.book, x.notes[o].key, o); }
    }
    assert forall k, i :: Holds(after.book, k, i) ==> Holds(x.book, k, i) && i != id;
    Fewer(x.waiting, id);
  }

  lemma Fewer(ids: set<nat>, id: nat)
    ensures |ids - {id}| <= |ids|
  {
    if id in ids { assert ids == ids - {id} + {id}; } else { assert ids - {id} == ids; }
  }

  lemma UpdateOk(x: Xdg, note: Notification, reply: Option<Reply>, fails: set<nat>)
    requires XdgOk(x) && ReplyOk(CloseUnwatched(x, note.key, fails), note.key, reply)
    ensures MidOk(UpdateWith(x, note, reply, fails))
  {
    CloseUnwatchedOk(x, note.key, fails);
    ShowNowOk(CloseUnwatched(x, note.key, fails), note, reply);
  }

  lemma ApplyOk(x: Xdg, step: Step)
    requires XdgOk(x)
    ensures XdgOk(Apply(x, step))
  {
    match step {
      case ShowCommand(note, reply, fails) =>
        if ReplyOk(x, note.key, reply) {
          ShowNowOk(x, note, reply);
          CloseEvictedOk(ShowNow(x, note, reply), fails);
        }
      case UpdateCommand(note, reply, fails) =>
        if ReplyOk(CloseUnwatched(x, note.key, fails), note.key, reply) {
          UpdateOk(x, note, reply, fails);
          CloseEvictedOk(UpdateWith(x, note, reply, fails), fails);
        }
      case DismissCommand(key, fails) =>
        DismissOk(x, key, fails);
        CloseEvictedOk(DismissIds(x, key, fails), fails);
      case ServerCloses(id) => ServerClosesOk(x, id);
      case WaiterEnds(id) => WaiterEndsOk(x, id);
    }
  }

  lemma ServerClosesOk(x: Xdg, id: nat)
    requires XdgOk(x)
    ensures XdgOk(ServerClosed(x, id))
  {
  }

  lemma {:induction false} ExecOk(steps: seq<Step>)
    ensures XdgOk(Exec(START, steps))
  {
    if steps != [] {
      ExecOk(steps[..|steps| - 1]);
      ApplyOk(Exec(START, steps[..|steps| - 1]), steps[|steps| - 1]);
    }
  }

  /** One more id is closed: the server, and the ids that go back. */
  lemma ClosingNext(x: Xdg, start: Book, key: NotifyKey, ids: seq<nat>, i: nat, fails: set<nat>)
    requires i < |ids|
    ensures Closing(x, ids[..i + 1], fails) == Closing(Closing(x, ids[..i], fails), [ids[i]], fails)
    ensures Failed(ids[..i + 1], fails) == Failed(ids[..i], fails) + if ids[i] in fails then [ids[i]] else []
    ensures AddAll(start, key, Failed(ids[..i + 1], fails))
            == if ids[i] in fails then AddUnwatched(AddAll(start, key, Failed(ids[..i], fails)), key, ids[i])
               else AddAll(start, key, Failed(ids[..i], fails))
  {
    var before := Failed(ids[..i], fails);
    assert ids[..i + 1] == ids[..i] + [ids[i]] && ids[..i + 1][..i] == ids[..i];
    assert (before + [ids[i]])[..|before|] == before;
  }

  // ----- the class

  /** The backend. `fails` and `reply` are what the bus answers in one command. */
  class Backend {
    const book: IdBook
    var waiting: set<nat>
    ghost var open: set<nat>
    ghost var notes: map<nat, Notification>
    ghost var leaked: set<nat>
    ghost var stranded: set<nat>

    ghost function View(): Xdg
      reads this, book
    {
      Xdg(book.View(), waiting, open, notes, leaked, stranded)
    }

    constructor ()
      ensures fresh(book) && View() == START && XdgOk(View())
    {
      book := new IdBook();
      waiting, open, notes, leaked, stranded := {}, {}, map[], {}, {};
    }

    /** `CloseNotification`. */
    method CloseNotification(id: nat, fails: set<nat>) returns (ok: bool)
      modifies this`open, this`leaked, this`stranded
      ensures ok == (id !in fails)
      ensures View() == Closing(old(View()), [id], fails)
    {
      ok := id !in fails;
      if ok { open, leaked, stranded := open - {id}, leaked - {id}, stranded - {id}; }
    }

    /** Close `ids`, and list those that stay open. */
    method CloseIds(ids: seq<nat>, fails: set<nat>) returns (failed: seq<nat>)
      modifies this`open, this`leaked, this`stranded
      ensures failed == Failed(ids, fails)
      ensures View() == Closing(old(View()), ids, fails)
    {
      failed := [];
      for i := 0 to |ids|
        invariant failed == Failed(ids[..i], fails)
        invariant View() == Closing(old(View()), ids[..i], fails)
      {
        assert ids[..i + 1] == ids[..i] + [ids[i]] && ids[..i + 1][..i] == ids[..i];
        var ok := CloseNotification(ids[i], fails);
        if !ok { failed := failed + [ids[i]]; }
      }
      assert ids[..|ids|] == ids;
    }

    method DismissChat(key: NotifyKey, fails: set<nat>) returns (ok: bool)
      requires XdgOk(View())
      modifies this, book
      ensures View() == Apply(old(View()), DismissCommand(key, fails)) && XdgOk(View())
      ensures ok <==> DismissWorks(old(View()), key, fails)
    {
      ApplyOk(View(), DismissCommand(key, fails));
      ok := DismissOpen(key, fails);
      EvictedGo(fails);
    }

    method DismissOpen(key: NotifyKey, fails: set<nat>) returns (ok: bool)
      modifies this, book
      ensures View() == DismissIds(old(View()), key, fails)
      ensures ok <==> DismissWorks(old(View()), key, fails)
    {
      var ids, watched := book.ForgetKey(key);
      var failed := CloseIds(ids, fails);
      FailedFacts(ids, fails);
      var failedWatch: Option<nat> := None;
      if watched.Some? {
        var closed := CloseNotification(watched.value, fails);
        if !closed { failedWatch := watched; }
      }
      if failedWatch.Some? || failed != [] {
        book.KeepIds(key, failedWatch, failed);
      }
      ok := failedWatch.None? && failed == [];
      assert ok ==> forall i :: i in ids ==> i !in fails;
      assert failed != [] ==> failed[0] in fails && Holds(old(book.View()), key, failed[0]);
    }

    method CloseUnwatchedIds(key: NotifyKey, fails: set<nat>) returns (ok: bool)
      modifies this, book
      ensures View() == CloseUnwatched(old(View()), key, fails)
      ensures ok <==> forall i :: In(old(book.View()).unwatched, key, i) ==> i !in fails
    {
      var ids := book.TakeUnwatched(key);
      ok := true;
      ghost var start := book.View();
      for i := 0 to |ids|
        invariant View() == Closing(old(View()), ids[..i], fails).(book := AddAll(start, key, Failed(ids[..i], fails)))
        invariant ok <==> forall j :: 0 <= j < i ==> ids[j] !in fails
      {
        ClosingNext(old(View()), start, key, ids, i, fails);
        var closed := CloseNotification(ids[i], fails);
        if !closed {
          ok := false;
          book.ShowUnwatched(key, ids[i]);
        }
      }
      assert ids[..|ids|] == ids;
    }

    /** Close the ids that a limit took out of the book; a failure only logs. */
    method EvictedGo(fails: set<nat>)
      modifies this, book
      ensures View() == CloseEvicted(old(View()), fails)
    {
      var evicted := book.TakeEvicted();
      var failed := CloseIds(evicted, fails);
      leaked := leaked + set i | i in old(book.evicted) && i in fails && i in old(open);
    }

    /** `show_now`: record the id that the server gave, and start its click waiter. */
    method ShowChat(note: Notification, reply: Option<Reply>) returns (ok: bool)
      modifies this, book
      ensures View() == ShowNow(old(View()), note, reply) && ok == reply.Some?
    {
      if reply.None? { return false; }
      var key, id := note.key, reply.value.id;
      open, notes := open + {id}, notes[id := note];
      if id in waiting {
        book.Show(key, id);
      } else if !MayWait(|waiting|) {
        book.ShowUnwatched(key, id);
      } else {
        waiting := waiting + {id};
        book.Show(key, id);
        if !reply.value.spawnOk {
          waiting := waiting - {id};
          book.Close(id);
          book.ShowUnwatched(key, id);
        }
      }
      ok := true;
    }

    method ShowNotification(note: Notification, reply: Option<Reply>, fails: set<nat>) returns (ok: bool)
      requires XdgOk(View()) && ReplyOk(View(), note.key, reply)
      modifies this, book
      ensures View() == Apply(old(View()), ShowCommand(note, reply, fails)) && XdgOk(View()) && ok == reply.Some?
    {
      ApplyOk(View(), ShowCommand(note, reply, fails));
      ok := ShowChat(note, reply);
      EvictedGo(fails);
    }

    method UpdateNotification(note: Notification, reply: Option<Reply>, fails: set<nat>) returns (ok: bool)
      requires XdgOk(View()) && ReplyOk(CloseUnwatched(View(), note.key, fails), note.key, reply)
      modifies this, book
      ensures ok <==> UpdateWorks(old(View()), note.key, reply, fails)
      ensures View() == Apply(old(View()), UpdateCommand(note, reply, fails)) && XdgOk(View())
    {
      ApplyOk(View(), UpdateCommand(note, reply, fails));
      CloseUnwatchedBook(View(), note.key, fails);
      ok := CloseUnwatchedIds(note.key, fails);
      var current := book.ReplacedBy(note.key);
      if current != NEW_NOTIFICATION {
        var replaced := ShowChat(note, reply);
        ok := ok && replaced;
      }
      EvictedGo(fails);
    }

    /** The last step of a click waiter. */
    method WaiterEnded(id: nat)
      requires XdgOk(View()) && id in waiting
      modifies this, book
      ensures View() == Apply(old(View()), WaiterEnds(id)) && XdgOk(View())
    {
      ApplyOk(View(), WaiterEnds(id));
      book.Close(id);
      waiting := waiting - {id};
      if id in open { stranded := stranded + {id}; }
    }
  }
}
