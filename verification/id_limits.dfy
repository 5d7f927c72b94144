/** Which unwatched id a limit of the id book pushes out
    (crates/thinwire-notify/src/xdg.rs, `show_unwatched` and `evict_over`). */
module IdLimits {
  import opened Wrappers
  import opened Commands
  import opened IdBooks

  /** A chat with 8 unwatched ids loses the oldest of them to a new one, and no other chat
      loses any. */
  lemma ChatLimitEvictsOldest(b: Book, key: NotifyKey, id: nat)
    requires BookOk(b) && !In(b.unwatched, key, id)
    requires |IdsOf(b.unwatched, key)| == MAX_UNWATCHED_PER_CHAT
    ensures var after, ids := AddUnwatched(b, key, id), b.unwatched[key];
            after.unwatched == b.unwatched[key := ids[1..] + [id]] && after.evicted == b.evicted + [ids[0]]
  {
    var ids := b.unwatched[key];
    assert (ids + [id])[1..] == ids[1..] + [id];
    TotalSet(b.unwatched, key, ids[1..] + [id]);
  }

  /** Below both limits the id joins its chat's list as the newest and nothing goes. */
  lemma RoomyAddKeepsAll(b: Book, key: NotifyKey, id: nat)
    requires BookOk(b) && !In(b.unwatched, key, id)
    requires |IdsOf(b.unwatched, key)| < MAX_UNWATCHED_PER_CHAT && Total(b.unwatched) < MAX_UNWATCHED_TOTAL
    ensures var after := AddUnwatched(b, key, id);
            && after.unwatched == b.unwatched[key := IdsOf(b.unwatched, key) + [id]]
            && after.evicted == b.evicted
  {
    TotalSet(b.unwatched, key, IdsOf(b.unwatched, key) + [id]);
  }

  /** The first entry of the order whose id is in its list. */
  ghost predicate IsFirstLive(order: seq<(NotifyKey, nat)>, lists: Lists, i: nat) {
    && i < |order| && In(lists, order[i].0, order[i].1)
    && forall j :: 0 <= j < i ==> !In(lists, order[j].0, order[j].1)
  }

  /** `lists` without one id, and without its chat when that was the last one. */
  ghost predicate LosesOnly(lists: Lists, after: Lists, key: NotifyKey, id: nat) {
    && (forall k, i: nat :: In(after, k, i) <==> In(lists, k, i) && (k, i) != (key, id))
    && (forall k :: k in after && k != key ==> k in lists && after[k] == lists[k])
    && (forall k :: k in lists && k != key ==> k in after)
  }

  lemma {:induction false} OneOverEvictsFirst(b: Book) returns (i: nat)
    requires ListsOk(b.unwatched) && Covered(b) && Total(b.unwatched) == MAX_UNWATCHED_TOTAL + 1
    ensures IsFirstLive(b.order, b.unwatched, i)
    ensures EvictOver(b).evicted == b.evicted + [b.order[i].1]
    ensures LosesOnly(b.unwatched, EvictOver(b).unwatched, b.order[i].0, b.order[i].1)
    decreases |b.order|
  {
    TotalZero(b.unwatched);
    EvictOldestOk(b);
    if In(b.unwatched, b.order[0].0, b.order[0].1) {
      i := 0;
      FirstGoes(b);
    } else {
      i := OneOverEvictsFirst(EvictOldest(b));
      assert forall j :: 0 <= j < i ==> b.order[1..][j] == b.order[j + 1];
      i := i + 1;
    }
  }

  lemma FirstGoes(b: Book)
    requires b.order != [] && In(b.unwatched, b.order[0].0, b.order[0].1)
    requires Total(b.unwatched) == MAX_UNWATCHED_TOTAL + 1
    ensures EvictOver(b) == EvictOldest(b) && EvictOver(b).evicted == b.evicted + [b.order[0].1]
    ensures LosesOnly(b.unwatched, EvictOver(b).unwatched, b.order[0].0, b.order[0].1)
  {
    var (owner, oldest) := b.order[0];
    WithoutFacts(b.unwatched[owner], oldest);
    TotalSet(b.unwatched, owner, Without(b.unwatched[owner], oldest));
  }

  /** With 64 ids in all and room in the chat, the id joins its chat's list, and then the
      one whose order entry is the oldest goes, of whatever chat. */
  lemma TotalLimitEvictsOldest(b: Book, key: NotifyKey, id: nat) returns (i: nat)
    requires BookOk(b) && !In(b.unwatched, key, id)
    requires |IdsOf(b.unwatched, key)| < MAX_UNWATCHED_PER_CHAT && Total(b.unwatched) == MAX_UNWATCHED_TOTAL
    ensures var after := AddUnwatched(b, key, id);
            var order, lists := b.order + [(key, id)], b.unwatched[key := IdsOf(b.unwatched, key) + [id]];
            && IsFirstLive(order, lists, i) && after.evicted == b.evicted + [order[i].1]
            && LosesOnly(lists, after.unwatched, order[i].0, order[i].1)
  {
    TotalSet(b.unwatched, key, IdsOf(b.unwatched, key) + [id]);
    AppendedLists(b, key, id);
    i := OneOverEvictsFirst(Appended(b, key, id));
  }

  /** So an id that was not in the book before, or for which there is room, stays. */
  lemma NewestStays(b: Book, key: NotifyKey, id: nat)
    requires BookOk(b) && !In(b.unwatched, key, id)
    requires (key, id) !in b.order || Total(b.unwatched) < MAX_UNWATCHED_TOTAL
    ensures In(AddUnwatched(b, key, id).unwatched, key, id)
  {
    if |IdsOf(b.unwatched, key)| == MAX_UNWATCHED_PER_CHAT {
      ChatLimitEvictsOldest(b, key, id);
    } else if Total(b.unwatched) < MAX_UNWATCHED_TOTAL {
      RoomyAddKeepsAll(b, key, id);
    } else {
      var i := TotalLimitEvictsOldest(b, key, id);
      OldIsBefore(b, key, id, i);
    }
  }

  /** The entry of a new id is the last one, and with a full book it is not the first live one. */
  lemma OldIsBefore(b: Book, key: NotifyKey, id: nat, i: nat)
    requires BookOk(b) && (key, id) !in b.order && Total(b.unwatched) > 0
    requires IsFirstLive(b.order + [(key, id)], b.unwatched[key := IdsOf(b.unwatched, key) + [id]], i)
    ensures i < |b.order| && b.order[i] != (key, id)
  {
    TotalZero(b.unwatched);
    var k: NotifyKey, o: nat :| In(b.unwatched, k, o);
    var j :| 0 <= j < |b.order| && b.order[j] == (k, o);
    assert (b.order + [(key, id)])[j] == (k, o);
    assert In(b.unwatched[key := IdsOf(b.unwatched, key) + [id]], k, o);
    assert j >= i;
  }

  // ----- the order entries

  /** Adding an id keeps at most 128 order entries, or only those of ids in the book. */
  lemma OrderIsShortOrLive(b: Book, key: NotifyKey, id: nat)
    requires !In(b.unwatched, key, id)
    ensures var after := AddUnwatched(b, key, id);
            |after.order| <= 128 || forall e :: e in after.order ==> In(after.unwatched, e.0, e.1)
  {
    var over := EvictOver(Appended(b, key, id));
    LiveFacts(over.order, over.unwatched);
  }

  /** A known id is not added again, and gets no second entry. */
  lemma KnownIdChangesNothing(b: Book, key: NotifyKey, id: nat)
    ensures In(b.unwatched, key, id) ==> AddUnwatched(b, key, id) == b
    ensures !In(b.unwatched, key, id) && BookOk(b) && Total(b.unwatched) < MAX_UNWATCHED_TOTAL && |b.order| < 128
            ==> AddUnwatched(b, key, id).order == b.order + [(key, id)]
  {
    if !In(b.unwatched, key, id) && BookOk(b) { AppendedLists(b, key, id); }
  }

  /** One unwatched id, with `n` entries in the order. */
  ghost predicate Repeated(b: Book, key: NotifyKey, id: nat, n: nat) {
    b == EMPTY.(unwatched := map[key := [id]], order := seq(n, _ => (key, id)))
  }

  lemma {:induction false} LiveRepeated(key: NotifyKey, id: nat, n: nat)
    ensures var order := seq(n, _ => (key, id)); Live(order, map[key := [id]]) == order
  {
    if n > 0 {
      LiveRepeated(key, id, n - 1);
      assert seq(n, _ => (key, id))[1..] == seq(n - 1, _ => (key, id));
    }
  }

  /** An id that is taken out and put back gets one more entry, and the old ones count as live. */
  lemma PutBackRepeats(b: Book, key: NotifyKey, id: nat, n: nat)
    requires Repeated(b, key, id, n)
    ensures Repeated(AddUnwatched(b.(unwatched := map[]), key, id), key, id, n + 1)
  {
    var out := b.(unwatched := map[]);
    var appended := Appended(out, key, id);
    assert IdsOf(out.unwatched, key) + [id] == [id];
    assert appended.order == seq(n + 1, _ => (key, id)) && appended.unwatched == map[key := [id]];
    TotalSet(map[], key, [id]);
    LiveRepeated(key, id, n + 1);
  }
}
