/** What a queue holds in numbers: its dismisses, the chats of its content, and which
    content a limit reaches last. */
module QueueCounts {
  import opened Wrappers
  import opened Accounts
  import opened Commands

  /** The chats with a queued `Show` or `Update`. */
  ghost function ContentKeys(commands: Commands): set<NotifyKey> {
    set c | c in commands && c.IsContent() :: c.Key()
  }

  ghost function DismissKeys(commands: Commands): set<NotifyKey> {
    set c | c in commands && c.Dismiss? :: c.Key()
  }

  lemma KeysAppend(commands: Commands, c: NotifyCommand)
    ensures ContentKeys(commands + [c]) == ContentKeys(commands) + (if c.IsContent() then {c.Key()} else {})
    ensures DismissKeys(commands + [c]) == DismissKeys(commands) + (if c.Dismiss? then {c.Key()} else {})
    ensures Dismisses(commands + [c]) == Dismisses(commands) + (if c.Dismiss? then 1 else 0)
  {
    assert (commands + [c])[..|commands|] == commands;
    assert forall q :: q in commands + [c] <==> q in commands || q == c;
  }

  /** A queue in which each chat has at most one content command holds its dismisses and
      one command for each chat with content. */
  lemma {:induction false} QueueLength(commands: Commands)
    requires ContentLast(commands)
    ensures |commands| == Dismisses(commands) + |ContentKeys(commands)|
  {
    if commands != [] {
      var n := |commands| - 1;
      assert commands == commands[..n] + [commands[n]];
      KeysAppend(commands[..n], commands[n]);
      QueueLength(commands[..n]);
      assert commands[n].IsContent() ==> commands[n].Key() !in ContentKeys(commands[..n]);
    }
  }

  lemma {:induction false} DistinctDismisses(commands: Commands)
    requires forall i, j :: 0 <= i < j < |commands| && commands[i].Dismiss? ==> commands[i] != commands[j]
    ensures Dismisses(commands) == |DismissKeys(commands)|
  {
    if commands != [] {
      var n := |commands| - 1;
      assert commands == commands[..n] + [commands[n]];
      KeysAppend(commands[..n], commands[n]);
      DistinctDismisses(commands[..n]);
      assert commands[n].Dismiss? ==> commands[n] !in commands[..n];
    }
  }

  lemma NoContent(commands: Commands)
    ensures ContentKeys(commands) == {} <==> forall c :: c in commands ==> c.Dismiss?
  {
    assert forall c :: c in commands && c.IsContent() ==> c.Key() in ContentKeys(commands);
  }

  lemma WithoutUpdatesKeys(commands: Commands, key: NotifyKey)
    requires ContentLast(commands)
    ensures key in ContentKeys(commands) && FirstShow(commands, key).None?
            ==> ContentKeys(WithoutUpdates(commands, key)) == ContentKeys(commands) - {key}
    ensures key !in ContentKeys(commands) ==> ContentKeys(WithoutUpdates(commands, key)) == ContentKeys(commands)
  {
    WithoutUpdatesFacts(commands, key);
  }

  lemma {:induction false} NoUpdates(commands: Commands, key: NotifyKey)
    requires key !in ContentKeys(commands)
    ensures WithoutUpdates(commands, key) == commands
  {
    if commands != [] {
      var n := |commands| - 1;
      assert commands == commands[..n] + [commands[n]];
      KeysAppend(commands[..n], commands[n]);
      NoUpdates(commands[..n], key);
    }
  }

  lemma RemoveAtKeys(commands: Commands, at: nat)
    requires ContentLast(commands) && at < |commands| && commands[at].IsContent()
    ensures ContentKeys(RemoveAt(commands, at)) == ContentKeys(commands) - {commands[at].Key()}
  {
    var left := RemoveAt(commands, at);
    RemoveAtFacts(commands, at);
    forall k | k in ContentKeys(commands) && k != commands[at].Key() ensures k in ContentKeys(left) {
      var i :| 0 <= i < |commands| && commands[i].IsContent() && commands[i].Key() == k;
      assert left[if i < at then i else i - 1] == commands[i];
    }
    forall i | 0 <= i < |left| && left[i].IsContent() ensures left[i].Key() != commands[at].Key() {
      assert left[i] == commands[if i < at then i else i + 1];
    }
  }

  /** A limit takes exactly the dropped chats out of the queued content, and no dismiss. */
  lemma {:induction false} TrimKeys(commands: Commands, limit: nat)
    requires ContentLast(commands)
    ensures ContentKeys(Trim(commands, limit)) == ContentKeys(commands) - Dropped(commands, limit)
    ensures Dismisses(Trim(commands, limit)) == Dismisses(commands)
    ensures Dropped(commands, limit) <= ContentKeys(commands)
    decreases |commands|
  {
    if |commands| > limit && FirstContent(commands).Some? {
      var at := FirstContent(commands).value;
      RemoveAtFacts(commands, at);
      RemoveAtKeys(commands, at);
      DismissesRemove(commands, at);
      TrimKeys(RemoveAt(commands, at), limit);
      assert commands[at] in commands;
    }
  }

  lemma DropsNothing(commands: Commands, limit: nat)
    ensures Dropped(commands, limit) == {} <==> |commands| <= limit || ContentKeys(commands) == {}
  {
    FirstContentFacts(commands);
    NoContent(commands);
    if |commands| > limit && FirstContent(commands).Some? {
      var at := FirstContent(commands).value;
      assert commands[at] in commands && commands[at].Key() in Dropped(commands, limit);
    }
  }

  // ----- which content goes last

  /** The content of `keys` comes after all other content. */
  ghost predicate Trailing(commands: Commands, keys: set<NotifyKey>) {
    forall i, j :: 0 <= i < j < |commands| && commands[i].IsContent() && commands[j].IsContent()
                   ==> commands[i].Key() in keys ==> commands[j].Key() in keys
  }

  lemma TrailingAppend(commands: Commands, c: NotifyCommand, keys: set<NotifyKey>)
    requires Trailing(commands, keys)
    requires c.IsContent() ==> c.Key() !in ContentKeys(commands)
    ensures Trailing(commands + [c], if c.IsContent() then keys + {c.Key()} else keys)
  {
    var longer := commands + [c];
    var more := if c.IsContent() then keys + {c.Key()} else keys;
    forall i, j | 0 <= i < j < |longer| && longer[i].IsContent() && longer[i].Key() in more && longer[j].IsContent()
      ensures longer[j].Key() in more
    {
      assert longer[i] == commands[i] && commands[i] in commands;
    }
  }

  lemma {:induction false} TrailingWithout(commands: Commands, key: NotifyKey, keys: set<NotifyKey>)
    requires Trailing(commands, keys)
    ensures Trailing(WithoutContent(commands, key), keys) && Trailing(WithoutUpdates(commands, key), keys)
  {
    if commands != [] {
      var n := |commands| - 1;
      TrailingWithout(commands[..n], key, keys);
      WithoutContentFacts(commands[..n], key);
      WithoutUpdatesFacts(commands[..n], key);
      assert forall c :: c in commands[..n] && c.IsContent() && c.Key() in keys && commands[n].IsContent()
                         ==> commands[n].Key() in keys;
    }
  }

  lemma TrailingRemove(commands: Commands, at: nat, keys: set<NotifyKey>)
    requires Trailing(commands, keys) && at < |commands|
    ensures Trailing(RemoveAt(commands, at), keys)
  {
    var left := RemoveAt(commands, at);
    assert forall i :: 0 <= i < |left| ==> left[i] == commands[if i < at then i else i + 1];
  }

  /** A limit spares the content at the end while it and the dismisses fit. */
  lemma {:induction false} TrimSparesLast(commands: Commands, limit: nat, keys: set<NotifyKey>)
    requires ContentLast(commands) && Trailing(commands, keys) && keys <= ContentKeys(commands)
    requires Dismisses(commands) + |keys| <= limit
    ensures keys <= ContentKeys(Trim(commands, limit)) && Trailing(Trim(commands, limit), keys)
    decreases |commands|
  {
    if |commands| > limit && FirstContent(commands).Some? {
      var at := FirstContent(commands).value;
      OldestIsOther(commands, at, limit, keys);
      RemoveAtFacts(commands, at);
      RemoveAtKeys(commands, at);
      DismissesRemove(commands, at);
      TrailingRemove(commands, at, keys);
      TrimSparesLast(RemoveAt(commands, at), limit, keys);
    }
  }

  lemma OldestIsOther(commands: Commands, at: nat, limit: nat, keys: set<NotifyKey>)
    requires ContentLast(commands) && Trailing(commands, keys)
    requires Dismisses(commands) + |keys| <= limit < |commands| && FirstContent(commands) == Some(at)
    ensures commands[at].Key() !in keys
  {
    QueueLength(commands);
    FirstContentFacts(commands);
    if commands[at].Key() in keys {
      assert ContentKeys(commands) <= keys;
      SubsetSize(ContentKeys(commands), keys);
    }
  }

  lemma SubsetSize<T>(a: set<T>, b: set<T>)
    requires a <= b
    ensures |a| <= |b|
    ensures |a| == |b| ==> a == b
  {
    assert b == a + (b - a);
    assert |b| == |a| + |b - a|;
  }

  lemma {:induction false} StaysShown(screen: Screen, commands: Commands, key: NotifyKey)
    requires key in screen && Dismiss(key) !in commands
    ensures key in RunAll(screen, commands)
  {
    if commands != [] {
      var n := |commands| - 1;
      assert commands == commands[..n] + [commands[n]];
      StaysShown(screen, commands[..n], key);
    }
  }
}
