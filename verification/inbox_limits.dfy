/** What a delivery into the bounded inbox keeps (crates/thinwire-notify/src/pipe.rs). */
module InboxLimits {
  import opened Wrappers
  import opened Accounts
  import opened Commands
  import opened QueueCounts
  import opened Inboxes

  lemma PushKeys(inbox: Commands, c: NotifyCommand)
    ensures DismissKeys(Push(inbox, c)) == DismissKeys(inbox) + DismissKeys([c])
    ensures ContentKeys(Push(inbox, c)) <= ContentKeys(inbox) + ContentKeys([c])
  {
    PushCarries(inbox, c);
    PushKeepsDismiss(inbox, c);
    forall k ensures k in DismissKeys(Push(inbox, c)) <==> k in DismissKeys(inbox) + DismissKeys([c]) {
      assert k in DismissKeys(Push(inbox, c)) <==> Dismiss(k) in Push(inbox, c);
      assert k in DismissKeys(inbox) <==> Dismiss(k) in inbox;
      assert k in DismissKeys([c]) <==> Dismiss(k) == c;
    }
    forall k | k in ContentKeys(Push(inbox, c)) ensures k in ContentKeys(inbox) + ContentKeys([c]) {
      var q :| q in Push(inbox, c) && q.IsContent() && q.Key() == k;
      assert Carries(q, c) ==> c in [c] && c.Key() == k;
    }
  }

  lemma KeysSplit(commands: Commands)
    requires commands != []
    ensures var n := |commands| - 1;
            && ContentKeys(commands) == ContentKeys(commands[..n]) + ContentKeys([commands[n]])
            && DismissKeys(commands) == DismissKeys(commands[..n]) + DismissKeys([commands[n]])
  {
    var n := |commands| - 1;
    assert commands == commands[..n] + [commands[n]];
    KeysAppend(commands[..n], commands[n]);
    KeysAppend([], commands[n]);
    assert [] + [commands[n]] == [commands[n]];
    assert ContentKeys([]) == {} && DismissKeys([]) == {};
  }

  lemma {:induction false} PushAllKeys(inbox: Commands, commands: Commands)
    ensures DismissKeys(PushAll(inbox, commands)) == DismissKeys(inbox) + DismissKeys(commands)
    ensures ContentKeys(PushAll(inbox, commands)) <= ContentKeys(inbox) + ContentKeys(commands)
  {
    if commands != [] {
      var n := |commands| - 1;
      PushAllKeys(inbox, commands[..n]);
      PushKeys(PushAll(inbox, commands[..n]), commands[n]);
      KeysSplit(commands);
    }
  }

  // ----- what survives a delivery

  /** A delivery keeps all content of `keys`. */
  ghost predicate Keeps(inbox: Commands, commands: Commands, keys: set<NotifyKey>) {
    keys <= ContentKeys(PushAll(inbox, commands))
  }

  /** The dismisses that wait after the delivery. */
  ghost function DismissesAfter(inbox: Commands, commands: Commands): set<NotifyKey> {
    DismissKeys(inbox) + DismissKeys(commands)
  }

  lemma InboxDismisses(inbox: Commands)
    requires InboxOk(inbox)
    ensures Dismisses(inbox) == |DismissKeys(inbox)|
    ensures |inbox| == |DismissKeys(inbox)| + |ContentKeys(inbox)|
  {
    DistinctDismisses(inbox);
    QueueLength(inbox);
  }

  /** The content of a chat with none in the inbox goes to its end. */
  lemma NewContentAppends(inbox: Commands, c: NotifyCommand)
    requires c.IsContent() && c.Key() !in ContentKeys(inbox)
    ensures !Joins(inbox, c) && Merged(inbox, c) == inbox + [c]
  {
    NoUpdates(inbox, c.Key());
    assert forall q :: q in inbox && q.IsContent() ==> q.Key() in ContentKeys(inbox);
  }

  lemma ContentSpares(inbox: Commands, c: NotifyCommand, keys: set<NotifyKey>)
    requires InboxOk(inbox) && c.IsContent() && c.Key() !in ContentKeys(inbox)
    requires keys <= ContentKeys(inbox) && Trailing(inbox, keys)
    requires |DismissKeys(inbox)| + |keys + {c.Key()}| <= INBOX_LIMIT
    ensures keys + {c.Key()} <= ContentKeys(Push(inbox, c)) && Trailing(Push(inbox, c), keys + {c.Key()})
  {
    NewContentAppends(inbox, c);
    InboxDismisses(inbox);
    KeysAppend(inbox, c);
    TrailingAppend(inbox, c, keys);
    MergedShape(inbox, c);
    TrimSparesLast(inbox + [c], INBOX_LIMIT, keys + {c.Key()});
  }

  lemma WithoutContentKeys(commands: Commands, key: NotifyKey)
    ensures ContentKeys(WithoutContent(commands, key)) == ContentKeys(commands) - {key}
    ensures DismissKeys(WithoutContent(commands, key)) == DismissKeys(commands)
  {
    WithoutContentFacts(commands, key);
  }

  lemma DismissSpares(inbox: Commands, key: NotifyKey, keys: set<NotifyKey>)
    requires InboxOk(inbox) && key !in keys
    requires keys <= ContentKeys(inbox) && Trailing(inbox, keys)
    requires |DismissKeys(inbox) + {key}| + |keys| <= INBOX_LIMIT
    ensures keys <= ContentKeys(Push(inbox, Dismiss(key))) && Trailing(Push(inbox, Dismiss(key)), keys)
  {
    var kept := WithoutContent(inbox, key);
    WithoutContentKeys(inbox, key);
    TrailingWithout(inbox, key, keys);
    if !Joins(inbox, Dismiss(key)) {
      var longer := kept + [Dismiss(key)];
      KeysAppend(kept, Dismiss(key));
      TrailingAppend(kept, Dismiss(key), keys);
      MergedShape(inbox, Dismiss(key));
      DistinctDismisses(longer);
      TrimSparesLast(longer, INBOX_LIMIT, keys);
    }
  }

  /** The content of `keys` comes last in `commands`, each chat once, after anything else of
      its chat, and the inbox holds no content of these chats. */
  ghost predicate ComesLast(inbox: Commands, commands: Commands, keys: set<NotifyKey>) {
    && ContentLast(commands) && Trailing(commands, keys)
    && keys <= ContentKeys(commands) && keys !! ContentKeys(inbox)
  }

  /** The same for the first commands alone. */
  ghost predicate ComesLastSoFar(inbox: Commands, commands: Commands, keys: set<NotifyKey>) {
    ContentLast(commands) && Trailing(commands, keys) && keys !! ContentKeys(inbox)
  }

  lemma LastCommand(inbox: Commands, commands: Commands, keys: set<NotifyKey>)
    requires commands != [] && ComesLastSoFar(inbox, commands, keys)
    ensures var n := |commands| - 1;
            var c := commands[n];
            && ComesLastSoFar(inbox, commands[..n], keys)
            && c.Key() !in ContentKeys(commands[..n])
            && ContentKeys(commands) == ContentKeys(commands[..n]) + (if c.IsContent() then {c.Key()} else {})
            && DismissKeys(commands) == DismissKeys(commands[..n]) + (if c.Dismiss? then {c.Key()} else {})
            && (c.IsContent() && c.Key() !in keys ==> keys * ContentKeys(commands) == {})
  {
    var n := |commands| - 1;
    var c := commands[n];
    assert commands == commands[..n] + [c];
    KeysAppend(commands[..n], c);
    assert forall q :: q in commands[..n] && q.IsContent() ==> q.Key() != c.Key();
    if c.IsContent() && c.Key() !in keys {
      assert forall q :: q in commands[..n] && q.IsContent() ==> q.Key() !in keys;
    }
  }

  /** One more command, of a chat with no content in the inbox when it brings some. */
  lemma RoomStep(inbox: Commands, c: NotifyCommand, so: set<NotifyKey>, more: set<NotifyKey>)
    requires InboxOk(inbox) && so <= ContentKeys(inbox) && Trailing(inbox, so) && c.Key() !in so
    requires c.IsContent() ==> c.Key() !in ContentKeys(inbox) && more == so + {c.Key()}
    requires c.Dismiss? ==> more == so
    requires |DismissKeys(inbox) + OwnDismiss(c)| + |more| <= INBOX_LIMIT
    ensures more <= ContentKeys(Push(inbox, c)) && Trailing(Push(inbox, c), more)
  {
    if c.Dismiss? {
      DismissSpares(inbox, c.Key(), so);
    } else {
      assert DismissKeys(inbox) + OwnDismiss(c) == DismissKeys(inbox);
      ContentSpares(inbox, c, so);
    }
  }

  ghost function OwnDismiss(c: NotifyCommand): set<NotifyKey> {
    if c.Dismiss? then {c.Key()} else {}
  }

  lemma RoomLeft(inbox: Commands, commands: Commands, keys: set<NotifyKey>)
    requires commands != [] && |DismissesAfter(inbox, commands)| + |keys| <= INBOX_LIMIT
    ensures var head, c := commands[..|commands| - 1], commands[|commands| - 1];
            && |DismissesAfter(inbox, head)| + |keys| <= INBOX_LIMIT
            && |DismissKeys(PushAll(inbox, head)) + OwnDismiss(c)| + |keys * ContentKeys(commands)| <= INBOX_LIMIT
  {
    var head, c := commands[..|commands| - 1], commands[|commands| - 1];
    assert commands == head + [c];
    KeysAppend(head, c);
    PushAllKeys(inbox, head);
    SubsetSize(DismissesAfter(inbox, head), DismissesAfter(inbox, commands));
    RoomSets(DismissKeys(inbox), DismissKeys(head), OwnDismiss(c));
    SubsetSize(keys * ContentKeys(commands), keys);
  }

  lemma {:induction false} RoomKeeps(inbox: Commands, commands: Commands, keys: set<NotifyKey>)
    requires InboxOk(inbox) && ComesLastSoFar(inbox, commands, keys)
    requires |DismissesAfter(inbox, commands)| + |keys| <= INBOX_LIMIT
    ensures keys * ContentKeys(commands) <= ContentKeys(PushAll(inbox, commands))
    ensures Trailing(PushAll(inbox, commands), keys * ContentKeys(commands))
  {
    if keys * ContentKeys(commands) != {} {
      var head, c := commands[..|commands| - 1], commands[|commands| - 1];
      LastCommand(inbox, commands, keys);
      RoomLeft(inbox, commands, keys);
      RoomKeeps(inbox, head, keys);
      PushAllOk(inbox, head);
      PushAllKeys(inbox, head);
      RoomNext(inbox, head, c, keys, keys * ContentKeys(commands));
      RoomStep(PushAll(inbox, head), c, keys * ContentKeys(head), keys * ContentKeys(commands));
    }
  }

  lemma RoomNext(inbox: Commands, head: Commands, c: NotifyCommand, keys: set<NotifyKey>, more: set<NotifyKey>)
    requires more == keys * (ContentKeys(head) + (if c.IsContent() then {c.Key()} else {}))
    requires keys !! ContentKeys(inbox) && c.Key() !in ContentKeys(head) && (c.IsContent() ==> c.Key() in keys)
    requires ContentKeys(PushAll(inbox, head)) <= ContentKeys(inbox) + ContentKeys(head)
    ensures c.Key() !in keys * ContentKeys(head)
    ensures c.IsContent() ==> c.Key() !in ContentKeys(PushAll(inbox, head))
                              && more == keys * ContentKeys(head) + {c.Key()}
    ensures c.Dismiss? ==> more == keys * ContentKeys(head)
  {
  }

  lemma RoomSets(a: set<NotifyKey>, b: set<NotifyKey>, c: set<NotifyKey>)
    ensures (a + b) + c == a + (b + c)
  {
  }

  /** Once content of `keys` came, the inbox stays within its limit or holds dismisses alone. */
  lemma {:induction false} BoundedAfter(inbox: Commands, commands: Commands, keys: set<NotifyKey>)
    requires InboxOk(inbox) && ComesLastSoFar(inbox, commands, keys) && keys * ContentKeys(commands) != {}
    ensures var after := PushAll(inbox, commands);
            |after| <= INBOX_LIMIT || forall c :: c in after ==> c.Dismiss?
  {
    var n := |commands| - 1;
    var head, c := commands[..n], commands[n];
    var before := PushAll(inbox, head);
    LastCommand(inbox, commands, keys);
    if c.Dismiss? {
      BoundedAfter(inbox, head, keys);
      WithoutContentFacts(before, c.Key());
      TrimFacts(Merged(before, c), INBOX_LIMIT);
    } else {
      PushAllKeys(inbox, head);
      NewContentAppends(before, c);
      TrimFacts(before + [c], INBOX_LIMIT);
    }
  }

  /** A delivery keeps the content of `keys` exactly when it fits beside the dismisses of
      the inbox and of the delivery. */
  lemma DeliveryKeepsExactly(inbox: Commands, commands: Commands, keys: set<NotifyKey>)
    requires InboxOk(inbox) && ComesLast(inbox, commands, keys)
    ensures Keeps(inbox, commands, keys)
            <==> keys == {} || |DismissesAfter(inbox, commands)| + |keys| <= INBOX_LIMIT
  {
    if |DismissesAfter(inbox, commands)| + |keys| <= INBOX_LIMIT {
      RoomKeeps(inbox, commands, keys);
      assert keys * ContentKeys(commands) == keys;
    }
    if keys != {} && Keeps(inbox, commands, keys) {
      var after := PushAll(inbox, commands);
      assert keys * ContentKeys(commands) == keys;
      BoundedAfter(inbox, commands, keys);
      PushAllOk(inbox, commands);
      PushAllKeys(inbox, commands);
      InboxDismisses(after);
      NoContent(after);
      SubsetSize(keys, ContentKeys(after));
    }
  }
}
