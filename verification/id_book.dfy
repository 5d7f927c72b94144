/** The server ids that the freedesktop backend keeps, one watched id per chat and the
    unwatched ones (crates/thinwire-notify/src/xdg.rs, `IdBook`). */
module IdBooks {
  import opened Wrappers
  import opened Commands

  const MAX_UNWATCHED_PER_CHAT := 8
  const MAX_UNWATCHED_TOTAL := 64
  const NEW_NOTIFICATION := 0

  type Lists = map<NotifyKey, seq<nat>>

  datatype Book = Book(
    byKey: map<NotifyKey, nat>, byId: map<nat, NotifyKey>, unwatched: Lists,
    order: seq<(NotifyKey, nat)>, evicted: seq<nat>)

  const EMPTY := Book(map[], map[], map[], [], [])

  // ----- lists of ids

  predicate In(lists: Lists, key: NotifyKey, id: nat) {
    key in lists && id in lists[key]
  }

  function IdsOf(lists: Lists, key: NotifyKey): seq<nat> {
    if key in lists then lists[key] else []
  }

  ghost predicate NoDup(ids: seq<nat>) {
    forall i, j :: 0 <= i < j < |ids| ==> ids[i] != ids[j]
  }

  /** The list without `id`. A list of the book holds an id at most once. */
  function Without(ids: seq<nat>, id: nat): seq<nat> {
    if ids == [] then []
    else if ids[0] == id then Without(ids[1..], id)
    else [ids[0]] + Without(ids[1..], id)
  }

  lemma {:induction false} WithoutFacts(ids: seq<nat>, id: nat)
    ensures forall i :: i in Without(ids, id) <==> i in ids && i != id
    ensures NoDup(ids) ==> NoDup(Without(ids, id))
    ensures |Without(ids, id)| <= |ids|
    ensures id in ids ==> |Without(ids, id)| < |ids|
    ensures id !in ids ==> Without(ids, id) == ids
  {
    if ids != [] {
      WithoutFacts(ids[1..], id);
      assert ids == [ids[0]] + ids[1..];
      assert NoDup(ids) ==> NoDup(ids[1..]) && ids[0] !in ids[1..];
    }
  }

  /** The number of ids in all lists. */
  ghost function Total(lists: Lists): nat
    decreases |lists|
  {
    if lists == map[] then 0
    else
      var k :| k in lists;
      |lists[k]| + Total(lists - {k})
  }

  lemma {:induction false} TotalOf(lists: Lists, key: NotifyKey)
    requires key in lists
    ensures Total(lists) == |lists[key]| + Total(lists - {key})
    decreases |lists|
  {
    var k :| k in lists && Total(lists) == |lists[k]| + Total(lists - {k});
    if k != key {
      TotalOf(lists - {k}, key);
      TotalOf(lists - {key}, k);
      assert lists - {k} - {key} == lists - {key} - {k};
    }
  }

  lemma TotalSet(lists: Lists, key: NotifyKey, ids: seq<nat>)
    ensures Total(lists[key := ids]) == Total(lists) - |IdsOf(lists, key)| + |ids|
    ensures Total(lists - {key}) == Total(lists) - |IdsOf(lists, key)|
  {
    TotalOf(lists[key := ids], key);
    assert lists[key := ids] - {key} == lists - {key};
    if key in lists { TotalOf(lists, key); } else { assert lists - {key} == lists; }
  }

  lemma {:induction false} TotalZero(lists: Lists)
    requires Total(lists) > 0
    ensures exists k, i :: In(lists, k, i)
    decreases |lists|
  {
    var k :| k in lists && Total(lists) == |lists[k]| + Total(lists - {k});
    if |lists[k]| > 0 {
      assert In(lists, k, lists[k][0]);
    } else {
      TotalZero(lists - {k});
      var k', i :| In(lists - {k}, k', i);
      assert In(lists, k', i);
    }
  }

  // ----- the operations

  function Set(lists: Lists, key: NotifyKey, ids: seq<nat>): Lists {
    if ids == [] then lists - {key} else lists[key := ids]
  }

  function ReplaceId(b: Book, key: NotifyKey): nat {
    if key in b.byKey then b.byKey[key] else NEW_NOTIFICATION
  }

  /** The oldest order entry goes. Its id is evicted if it is still in the book. */
  function EvictOldest(b: Book): Book
    requires b.order != []
  {
    var (owner, oldest) := b.order[0];
    if In(b.unwatched, owner, oldest)
    then b.(unwatched := Set(b.unwatched, owner, Without(b.unwatched[owner], oldest)),
            order := b.order[1..], evicted := b.evicted + [oldest])
    else b.(order := b.order[1..])
  }

  ghost function EvictOver(b: Book): Book
    decreases |b.order|
  {
    if Total(b.unwatched) <= MAX_UNWATCHED_TOTAL || b.order == [] then b
    else EvictOver(EvictOldest(b))
  }

  /** Only the entries of ids that are still in the book. */
  function Live(order: seq<(NotifyKey, nat)>, lists: Lists): seq<(NotifyKey, nat)> {
    if order == [] then []
    else if In(lists, order[0].0, order[0].1) then [order[0]] + Live(order[1..], lists)
    else Live(order[1..], lists)
  }

  function Compact(b: Book): Book {
    if |b.order| > 2 * MAX_UNWATCHED_TOTAL then b.(order := Live(b.order, b.unwatched)) else b
  }

  /** The id at the end of its chat's list, over the limit without the oldest. */
  function Appended(b: Book, key: NotifyKey, id: nat): Book {
    var ids := IdsOf(b.unwatched, key) + [id];
    var longer := b.(order := b.order + [(key, id)]);
    if |ids| > MAX_UNWATCHED_PER_CHAT
    then longer.(unwatched := b.unwatched[key := ids[1..]], evicted := b.evicted + [ids[0]])
    else longer.(unwatched := b.unwatched[key := ids])
  }

  ghost function AddUnwatched(b: Book, key: NotifyKey, id: nat): Book {
    if In(b.unwatched, key, id) then b
    else Compact(EvictOver(Appended(b, key, id)))
  }

  ghost function AddAll(b: Book, key: NotifyKey, ids: seq<nat>): Book {
    if ids == [] then b else AddUnwatched(AddAll(b, key, ids[..|ids| - 1]), key, ids[|ids| - 1])
  }

  ghost function Shown(b: Book, key: NotifyKey, id: nat): Book {
    if key in b.byKey && b.byKey[key] != id then
      var previous := b.byKey[key];
      var moved := AddUnwatched(b.(byKey := b.byKey[key := id], byId := b.byId - {previous}), key, previous);
      moved.(byId := moved.byId[id := key])
    else b.(byKey := b.byKey[key := id], byId := b.byId[id := key])
  }

  function NotClosed(lists: Lists, id: nat): Lists {
    map k | k in lists && Without(lists[k], id) != [] :: Without(lists[k], id)
  }

  function Closed(b: Book, id: nat): Book {
    var watched := id in b.byId && b.byId[id] in b.byKey && b.byKey[b.byId[id]] == id;
    b.(byKey := if watched then b.byKey - {b.byId[id]} else b.byKey, byId := b.byId - {id},
       unwatched := NotClosed(b.unwatched, id))
  }

  function WatchedOf(b: Book, key: NotifyKey): Option<nat> {
    if key in b.byKey then Some(b.byKey[key]) else None
  }

  function Forget(b: Book, key: NotifyKey): Book {
    b.(byKey := b.byKey - {key}, byId := if key in b.byKey then b.byId - {b.byKey[key]} else b.byId,
       unwatched := b.unwatched - {key})
  }

  ghost function Keep(b: Book, key: NotifyKey, watched: Option<nat>, ids: seq<nat>): Book {
    AddAll(if watched.Some? then Shown(b, key, watched.value) else b, key, ids)
  }

  // ----- what holds after every operation

  ghost predicate Inverse(b: Book) {
    && (forall k :: k in b.byKey ==> b.byKey[k] in b.byId && b.byId[b.byKey[k]] == k)
    && (forall id :: id in b.byId ==> b.byId[id] in b.byKey && b.byKey[b.byId[id]] == id)
  }

  ghost predicate Covered(b: Book) {
    forall k: NotifyKey, id: nat :: In(b.unwatched, k, id) ==> (k, id) in b.order
  }

  ghost predicate ListsOk(lists: Lists) {
    forall k :: k in lists ==> 0 < |lists[k]| <= MAX_UNWATCHED_PER_CHAT && NoDup(lists[k])
  }

  /** At most 8 unwatched ids per chat and 64 for all chats, each with an order entry,
      and the two maps of watched ids are inverse. */
  ghost predicate BookOk(b: Book) {
    && Inverse(b)
    && ListsOk(b.unwatched)
    && Covered(b)
    && Total(b.unwatched) <= MAX_UNWATCHED_TOTAL
  }

  /** `after` has the ids of `before` and the pair (`key`, `id`), but for evicted ones,
      and nothing else. */
  ghost predicate Gains(before: Book, after: Book, key: NotifyKey, id: nat) {
    && after.byKey == before.byKey && after.byId == before.byId
    && before.evicted <= after.evicted
    && (forall k, i :: In(before.unwatched, k, i) || (k == key && i == id)
                       ==> In(after.unwatched, k, i) || i in after.evicted)
    && (forall k, i :: In(after.unwatched, k, i) ==> In(before.unwatched, k, i) || (k == key && i == id))
    && (forall i :: i in after.evicted ==> i in before.evicted || i == id || exists k :: In(before.unwatched, k, i))
  }

  lemma EvictOldestLists(b: Book)
    requires ListsOk(b.unwatched) && b.order != []
    ensures ListsOk(EvictOldest(b).unwatched) && Total(EvictOldest(b).unwatched) <= Total(b.unwatched)
  {
    var (owner, oldest) := b.order[0];
    if In(b.unwatched, owner, oldest) {
      var ids := Without(b.unwatched[owner], oldest);
      WithoutFacts(b.unwatched[owner], oldest);
      TotalSet(b.unwatched, owner, ids);
    }
  }

  lemma EvictOldestIn(b: Book)
    requires b.order != []
    ensures var after := EvictOldest(b);
            && (forall k: NotifyKey, i: nat :: In(b.unwatched, k, i)
                  ==> In(after.unwatched, k, i) || (i in after.evicted && (k, i) == b.order[0]))
            && (forall k: NotifyKey, i: nat :: In(after.unwatched, k, i)
                  ==> In(b.unwatched, k, i) && (k, i) != b.order[0])
            && (forall i :: i in after.evicted ==> i in b.evicted || exists k :: In(b.unwatched, k, i))
  {
    var (owner, oldest) := b.order[0];
    if In(b.unwatched, owner, oldest) {
      WithoutFacts(b.unwatched[owner], oldest);
    }
  }

  lemma EvictOldestOk(b: Book)
    requires ListsOk(b.unwatched) && Covered(b) && b.order != []
    ensures var after := EvictOldest(b);
            && ListsOk(after.unwatched) && Covered(after) && Total(after.unwatched) <= Total(b.unwatched)
            && after.byKey == b.byKey && after.byId == b.byId && b.evicted <= after.evicted
            && (forall k, i :: In(b.unwatched, k, i) ==> In(after.unwatched, k, i) || i in after.evicted)
            && (forall k, i :: In(after.unwatched, k, i) ==> In(b.unwatched, k, i))
            && (forall i :: i in after.evicted ==> i in b.evicted || exists k :: In(b.unwatched, k, i))
  {
    EvictOldestLists(b);
    EvictOldestIn(b);
    assert b.order == [b.order[0]] + b.order[1..];
  }

  lemma {:induction false} EvictOverOk(b: Book)
    requires ListsOk(b.unwatched) && Covered(b)
    ensures var after := EvictOver(b);
            && ListsOk(after.unwatched) && Covered(after) && Total(after.unwatched) <= MAX_UNWATCHED_TOTAL
            && after.byKey == b.byKey && after.byId == b.byId && b.evicted <= after.evicted
            && (forall k, i :: In(b.unwatched, k, i) ==> In(after.unwatched, k, i) || i in after.evicted)
            && (forall k, i :: In(after.unwatched, k, i) ==> In(b.unwatched, k, i))
            && (forall i :: i in after.evicted ==> i in b.evicted || exists k :: In(b.unwatched, k, i))
    decreases |b.order|
  {
    if Total(b.unwatched) > MAX_UNWATCHED_TOTAL {
      TotalZero(b.unwatched);
      EvictOldestOk(b);
      EvictOverOk(EvictOldest(b));
    }
  }

  lemma {:induction false} LiveFacts(order: seq<(NotifyKey, nat)>, lists: Lists)
    ensures forall e :: e in Live(order, lists) <==> e in order && In(lists, e.0, e.1)
  {
    if order != [] {
      LiveFacts(order[1..], lists);
      assert order == [order[0]] + order[1..];
    }
  }

  lemma AppendedLists(b: Book, key: NotifyKey, id: nat)
    requires ListsOk(b.unwatched) && Covered(b) && !In(b.unwatched, key, id)
    ensures ListsOk(Appended(b, key, id).unwatched) && Covered(Appended(b, key, id))
    ensures Total(Appended(b, key, id).unwatched) <= Total(b.unwatched) + 1
  {
    var ids := IdsOf(b.unwatched, key) + [id];
    var after := Appended(b, key, id);
    TotalSet(b.unwatched, key, after.unwatched[key]);
    assert ids == [ids[0]] + ids[1..];
    assert NoDup(ids) && NoDup(ids[1..]);
  }

  lemma AppendedOk(b: Book, key: NotifyKey, id: nat)
    requires ListsOk(b.unwatched) && !In(b.unwatched, key, id)
    ensures Gains(b, Appended(b, key, id), key, id)
    ensures |IdsOf(b.unwatched, key)| < MAX_UNWATCHED_PER_CHAT ==> Appended(b, key, id).evicted == b.evicted
  {
    var ids := IdsOf(b.unwatched, key) + [id];
    var after := Appended(b, key, id);
    assert ids == [ids[0]] + ids[1..];
    assert |ids| > MAX_UNWATCHED_PER_CHAT ==> In(b.unwatched, key, ids[0]);
    forall k, i | In(b.unwatched, k, i) || (k == key && i == id)
      ensures In(after.unwatched, k, i) || i in after.evicted
    {
      if k == key { assert i in ids; }
    }
  }

  lemma AddUnwatchedOk(b: Book, key: NotifyKey, id: nat)
    requires ListsOk(b.unwatched) && Covered(b) && Total(b.unwatched) <= MAX_UNWATCHED_TOTAL
    ensures var after := AddUnwatched(b, key, id);
            && ListsOk(after.unwatched) && Covered(after) && Total(after.unwatched) <= MAX_UNWATCHED_TOTAL
            && Gains(b, after, key, id)
    ensures |IdsOf(b.unwatched, key)| < MAX_UNWATCHED_PER_CHAT && Total(b.unwatched) < MAX_UNWATCHED_TOTAL
            ==> var after := AddUnwatched(b, key, id);
                after.evicted == b.evicted && Total(after.unwatched) <= Total(b.unwatched) + 1
                && |IdsOf(after.unwatched, key)| <= |IdsOf(b.unwatched, key)| + 1
  {
    if !In(b.unwatched, key, id) {
      AppendedLists(b, key, id);
      AppendedOk(b, key, id);
      var over := EvictOver(Appended(b, key, id));
      EvictOverOk(Appended(b, key, id));
      LiveFacts(over.order, over.unwatched);
    }
  }

  // ----- an evicted id is in no list

  ghost predicate OneChat(lists: Lists) {
    forall k, other, i :: In(lists, k, i) && In(lists, other, i) ==> k == other
  }

  ghost predicate EvictedLeft(b: Book) {
    forall k, i :: In(b.unwatched, k, i) ==> i !in b.evicted
  }

  lemma EvictOldestLeaves(b: Book)
    requires b.order != [] && OneChat(b.unwatched) && EvictedLeft(b)
    ensures OneChat(EvictOldest(b).unwatched) && EvictedLeft(EvictOldest(b))
  {
    EvictOldestIn(b);
  }

  lemma {:induction false} EvictOverLeaves(b: Book)
    requires OneChat(b.unwatched) && EvictedLeft(b)
    ensures EvictedLeft(EvictOver(b))
    decreases |b.order|
  {
    if Total(b.unwatched) > MAX_UNWATCHED_TOTAL && b.order != [] {
      EvictOldestLeaves(b);
      EvictOverLeaves(EvictOldest(b));
    }
  }

  lemma AppendedLeaves(b: Book, key: NotifyKey, id: nat)
    requires ListsOk(b.unwatched) && OneChat(b.unwatched) && EvictedLeft(b)
    requires id !in b.evicted && forall k :: !In(b.unwatched, k, id)
    ensures OneChat(Appended(b, key, id).unwatched) && EvictedLeft(Appended(b, key, id))
  {
    var ids := IdsOf(b.unwatched, key) + [id];
    var after := Appended(b, key, id);
    assert !In(b.unwatched, key, id) && id !in IdsOf(b.unwatched, key);
    assert ids == [ids[0]] + ids[1..];
    assert forall k, i :: In(after.unwatched, k, i) ==> In(b.unwatched, k, i) || (k == key && i == id);
    if |ids| > MAX_UNWATCHED_PER_CHAT {
      assert NoDup(b.unwatched[key]) && ids[0] == b.unwatched[key][0];
      assert In(b.unwatched, key, ids[0]) && ids[0] !in ids[1..];
      assert forall k :: !In(after.unwatched, k, ids[0]);
    }
  }

  /** An id that a limit evicts is in no list any more. */
  lemma AddUnwatchedLeaves(b: Book, key: NotifyKey, id: nat)
    requires ListsOk(b.unwatched) && OneChat(b.unwatched) && EvictedLeft(b)
    requires id !in b.evicted && forall k :: In(b.unwatched, k, id) ==> k == key
    ensures EvictedLeft(AddUnwatched(b, key, id))
  {
    if !In(b.unwatched, key, id) {
      AppendedLeaves(b, key, id);
      EvictOverLeaves(Appended(b, key, id));
    }
  }

  /** Putting ids back in the place of at least as many ids evicts nothing. */
  lemma {:induction false} AddAllOk(b: Book, key: NotifyKey, ids: seq<nat>)
    requires BookOk(b) && |IdsOf(b.unwatched, key)| + |ids| <= MAX_UNWATCHED_PER_CHAT
    requires Total(b.unwatched) + |ids| <= MAX_UNWATCHED_TOTAL
    ensures var after := AddAll(b, key, ids);
            && BookOk(after) && after.byKey == b.byKey && after.byId == b.byId && after.evicted == b.evicted
            && (forall k, i :: In(b.unwatched, k, i) || (k == key && i in ids)
                               ==> In(after.unwatched, k, i) || i in after.evicted)
            && (forall k, i :: In(after.unwatched, k, i) ==> In(b.unwatched, k, i) || (k == key && i in ids))
            && Total(after.unwatched) <= Total(b.unwatched) + |ids|
            && |IdsOf(after.unwatched, key)| <= |IdsOf(b.unwatched, key)| + |ids|
  {
    if ids != [] {
      var n := |ids| - 1;
      assert ids == ids[..n] + [ids[n]];
      AddAllOk(b, key, ids[..n]);
      AddUnwatchedOk(AddAll(b, key, ids[..n]), key, ids[n]);
    }
  }

  /** A shown id keeps the maps inverse if it is the one of the chat or in no map. A
      replaced id stays in the book, unwatched. */
  lemma ShownOk(b: Book, key: NotifyKey, id: nat)
    requires BookOk(b)
    requires id !in b.byId || (key in b.byKey && b.byKey[key] == id)
    ensures var after := Shown(b, key, id);
            && BookOk(after) && after.byKey == b.byKey[key := id]
            && b.evicted <= after.evicted
            && (forall k, i :: In(b.unwatched, k, i) ==> In(after.unwatched, k, i) || i in after.evicted)
            && (key in b.byKey && b.byKey[key] != id ==>
                  In(after.unwatched, key, b.byKey[key]) || b.byKey[key] in after.evicted)
            && (forall k, i :: In(after.unwatched, k, i) ==>
                  In(b.unwatched, k, i) || (k == key && key in b.byKey && i == b.byKey[key] && i != id))
            && (key !in b.byKey || b.byKey[key] == id ==> after.unwatched == b.unwatched && after.evicted == b.evicted)
  {
    if key in b.byKey && b.byKey[key] != id {
      var previous := b.byKey[key];
      AddUnwatchedOk(b.(byKey := b.byKey[key := id], byId := b.byId - {previous}), key, previous);
    }
  }

  lemma ClosedOk(b: Book, id: nat)
    requires BookOk(b)
    ensures var after := Closed(b, id);
            && BookOk(after) && after.evicted == b.evicted
            && (forall k :: k in after.byKey <==> k in b.byKey && b.byKey[k] != id)
            && (forall k :: k in after.byKey ==> after.byKey[k] == b.byKey[k])
            && (forall k, i :: In(after.unwatched, k, i) <==> In(b.unwatched, k, i) && i != id)
  {
    var lists := NotClosed(b.unwatched, id);
    forall k | k in b.unwatched
      ensures forall i :: i in Without(b.unwatched[k], id) <==> i in b.unwatched[k] && i != id
      ensures NoDup(Without(b.unwatched[k], id)) && |Without(b.unwatched[k], id)| <= |b.unwatched[k]|
    {
      WithoutFacts(b.unwatched[k], id);
    }
    NotClosedTotal(b.unwatched, id);
  }

  lemma NotClosedSplit(lists: Lists, id: nat, k: NotifyKey)
    requires k in lists
    ensures NotClosed(lists, id) == Set(NotClosed(lists - {k}, id), k, Without(lists[k], id))
  {
  }

  lemma {:induction false} NotClosedTotal(lists: Lists, id: nat)
    ensures Total(NotClosed(lists, id)) <= Total(lists)
    decreases |lists|
  {
    if lists == map[] {
      assert NotClosed(lists, id) == map[];
    } else {
      var k :| k in lists;
      NotClosedTotal(lists - {k}, id);
      TotalOf(lists, k);
      WithoutFacts(lists[k], id);
      NotClosedSplit(lists, id, k);
      TotalSet(NotClosed(lists - {k}, id), k, Without(lists[k], id));
    }
  }

  lemma ForgetOk(b: Book, key: NotifyKey)
    requires BookOk(b)
    ensures BookOk(Forget(b, key))
    ensures Total(Forget(b, key).unwatched) + |IdsOf(b.unwatched, key)| == Total(b.unwatched)
    ensures key in b.byKey ==> b.byKey[key] !in Forget(b, key).byId
  {
    TotalSet(b.unwatched, key, []);
  }

  /** The ids that a dismiss could not close go back, and nothing else changes. */
  lemma KeepOk(b: Book, key: NotifyKey, watched: Option<nat>, ids: seq<nat>)
    requires BookOk(b) && b.evicted == [] && key !in b.byKey && key !in b.unwatched
    requires watched.Some? ==> watched.value !in b.byId
    requires |ids| <= MAX_UNWATCHED_PER_CHAT && Total(b.unwatched) + |ids| <= MAX_UNWATCHED_TOTAL
    ensures var after := Keep(b, key, watched, ids);
            && BookOk(after) && after.evicted == []
            && after.byKey == (if watched.Some? then b.byKey[key := watched.value] else b.byKey)
            && (forall k, i :: In(after.unwatched, k, i) <==> In(b.unwatched, k, i) || (k == key && i in ids))
  {
    if watched.Some? { ShownOk(b, key, watched.value); }
    AddAllOk(if watched.Some? then Shown(b, key, watched.value) else b, key, ids);
  }

  /** The class of the source. */
  class IdBook {
    var byKey: map<NotifyKey, nat>
    var byId: map<nat, NotifyKey>
    var unwatched: Lists
    var order: seq<(NotifyKey, nat)>
    var evicted: seq<nat>

    ghost function View(): Book
      reads this
    {
      Book(byKey, byId, unwatched, order, evicted)
    }

    constructor ()
      ensures View() == EMPTY && BookOk(View())
    {
      byKey, byId, unwatched, order, evicted := map[], map[], map[], [], [];
    }

    method ReplacedBy(key: NotifyKey) returns (id: nat)
      ensures id == ReplaceId(View(), key)
    {
      id := if key in byKey then byKey[key] else NEW_NOTIFICATION;
    }

    method TotalUnwatched() returns (total: nat)
      ensures total == Total(unwatched)
    {
      total := 0;
      var left := unwatched;
      while left != map[]
        invariant total + Total(left) == Total(unwatched)
        decreases |left|
      {
        var k :| k in left;
        TotalOf(left, k);
        total := total + |left[k]|;
        left := left - {k};
      }
    }

    method ShowUnwatched(key: NotifyKey, id: nat)
      modifies this`unwatched, this`order, this`evicted
      ensures View() == AddUnwatched(old(View()), key, id)
    {
      var ids := if key in unwatched then unwatched[key] else [];
      if id in ids { return; }
      ids := ids + [id];
      order := order + [(key, id)];
      if |ids| > MAX_UNWATCHED_PER_CHAT {
        evicted := evicted + [ids[0]];
        ids := ids[1..];
      }
      unwatched := unwatched[key := ids];
      ghost var appended := View();
      assert appended == Appended(old(View()), key, id);
      var total := TotalUnwatched();
      while total > MAX_UNWATCHED_TOTAL
        invariant total == Total(unwatched)
        invariant EvictOver(View()) == EvictOver(appended)
        decreases |order|
      {
        if order == [] { break; }
        PopOldest();
        total := TotalUnwatched();
      }
      if |order| > 2 * MAX_UNWATCHED_TOTAL {
        order := Live(order, unwatched);
      }
    }

    method PopOldest()
      requires order != []
      modifies this`unwatched, this`order, this`evicted
      ensures View() == EvictOldest(old(View()))
    {
      var (owner, oldest) := order[0];
      order := order[1..];
      if owner in unwatched && oldest in unwatched[owner] {
        var ids := Without(unwatched[owner], oldest);
        unwatched := if ids == [] then unwatched - {owner} else unwatched[owner := ids];
        evicted := evicted + [oldest];
      }
    }

    method Show(key: NotifyKey, id: nat)
      modifies this
      ensures View() == Shown(old(View()), key, id)
    {
      var had := key in byKey;
      var before := if had then byKey[key] else NEW_NOTIFICATION;
      byKey := byKey[key := id];
      if had && before != id {
        byId := byId - {before};
        ShowUnwatched(key, before);
      }
      byId := byId[id := key];
    }

    method Close(id: nat)
      modifies this
      ensures View() == Closed(old(View()), id)
    {
      if id in byId {
        var key := byId[id];
        byId := byId - {id};
        if key in byKey && byKey[key] == id { byKey := byKey - {key}; }
      }
      unwatched := NotClosed(unwatched, id);
    }

    /** Forget `key` for a dismiss: its unwatched ids, and its watched one. */
    method ForgetKey(key: NotifyKey) returns (ids: seq<nat>, watched: Option<nat>)
      modifies this
      ensures View() == Forget(old(View()), key)
      ensures ids == IdsOf(old(unwatched), key) && watched == WatchedOf(old(View()), key)
    {
      watched := None;
      if key in byKey {
        watched := Some(byKey[key]);
        byId := byId - {byKey[key]};
      }
      byKey := byKey - {key};
      ids := if key in unwatched then unwatched[key] else [];
      unwatched := unwatched - {key};
    }

    method KeepIds(key: NotifyKey, watched: Option<nat>, ids: seq<nat>)
      modifies this
      ensures View() == Keep(old(View()), key, watched, ids)
    {
      if watched.Some? { Show(key, watched.value); }
      ghost var start := View();
      for i := 0 to |ids|
        invariant View() == AddAll(start, key, ids[..i])
      {
        assert ids[..i + 1][..i] == ids[..i];
        ShowUnwatched(key, ids[i]);
      }
      assert ids[..|ids|] == ids;
    }

    method TakeEvicted() returns (ids: seq<nat>)
      modifies this`evicted
      ensures ids == old(evicted) && View() == old(View()).(evicted := [])
    {
      ids, evicted := evicted, [];
    }

    method TakeUnwatched(key: NotifyKey) returns (ids: seq<nat>)
      modifies this`unwatched
      ensures ids == IdsOf(old(unwatched), key) && View() == old(View()).(unwatched := old(unwatched) - {key})
    {
      ids := if key in unwatched then unwatched[key] else [];
      unwatched := unwatched - {key};
    }
  }
}
