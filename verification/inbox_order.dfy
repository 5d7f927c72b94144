/** The order of the commands that wait (crates/thinwire-notify/src/pipe.rs and
    crates/thinwire-core/src/notify.rs): what keeps its place, and what a limit drops first. */
module InboxOrder {
  import opened Wrappers
  import opened Commands
  import opened Inboxes

  /** Content that joins waiting content of its chat takes its place in the queue: an update
      always, a show when a show waits. What waited as a show stays a show. */
  lemma ContentJoinsInPlace(inbox: Commands, c: NotifyCommand, at: nat)
    requires InboxOk(inbox) && c.IsContent() && at < |inbox|
    requires inbox[at].IsContent() && inbox[at].Key() == c.Key() && (c.Update? || inbox[at].Show?)
    ensures Push(inbox, c) == inbox[at := if inbox[at].Show? then Show(c.notification) else c]
  {
    OneContent(inbox, c.Key(), at);
    if c.Show? { NothingToRemove(inbox, c.Key()); }
  }

  lemma OneContent(inbox: Commands, key: NotifyKey, at: nat)
    requires ContentLast(inbox) && at < |inbox| && inbox[at].IsContent() && inbox[at].Key() == key
    ensures forall i :: 0 <= i < |inbox| && inbox[i].IsContent() && inbox[i].Key() == key ==> i == at
    ensures inbox[at].Show? ==> forall c :: c in inbox ==> !(c.Update? && c.Key() == key)
  {
  }

  lemma {:induction false} NothingToRemove(commands: Commands, key: NotifyKey)
    requires forall c :: c in commands ==> !(c.Update? && c.Key() == key)
    ensures WithoutUpdates(commands, key) == commands
  {
    if commands != [] {
      var n := |commands| - 1;
      assert commands[n] in commands;
      NothingToRemove(commands[..n], key);
      assert commands == commands[..n] + [commands[n]];
    }
  }

  /** The commands of the other chats, in their order. */
  function Others(commands: Commands, key: NotifyKey): Commands {
    if commands == [] then []
    else
      var last, before := commands[|commands| - 1], Others(commands[..|commands| - 1], key);
      if last.Key() == key then before else before + [last]
  }

  lemma {:induction false} OthersConcat(a: Commands, b: Commands, key: NotifyKey)
    ensures Others(a + b, key) == Others(a, key) + Others(b, key)
  {
    if b == [] {
      assert a + b == a;
    } else {
      assert (a + b)[..|a + b| - 1] == a + b[..|b| - 1];
      OthersConcat(a, b[..|b| - 1], key);
    }
  }

  lemma {:induction false} OthersWithout(commands: Commands, key: NotifyKey)
    ensures Others(WithoutContent(commands, key), key) == Others(commands, key)
    ensures Others(WithoutUpdates(commands, key), key) == Others(commands, key)
  {
    if commands != [] {
      var n := |commands| - 1;
      OthersWithout(commands[..n], key);
      OthersConcat(WithoutContent(commands[..n], key), [commands[n]], key);
      OthersConcat(WithoutUpdates(commands[..n], key), [commands[n]], key);
      OneOther(commands[n], key);
    }
  }

  lemma OneOther(c: NotifyCommand, key: NotifyKey)
    ensures Others([c], key) == if c.Key() == key then [] else [c]
  {
    assert [c][..0] == [];
    assert Others([], key) == [];
  }

  lemma OthersReplace(commands: Commands, at: nat, c: NotifyCommand)
    requires at < |commands| && commands[at].Key() == c.Key()
    ensures Others(commands[at := c], c.Key()) == Others(commands, c.Key())
  {
    var head, tail := commands[..at], commands[at + 1..];
    assert commands == head + [commands[at]] + tail && commands[at := c] == head + [c] + tail;
    OthersConcat(head + [c], tail, c.Key());
    OthersConcat(head, [c], c.Key());
    OthersConcat(head + [commands[at]], tail, c.Key());
    OthersConcat(head, [commands[at]], c.Key());
    OneOther(c, c.Key());
    OneOther(commands[at], c.Key());
  }

  /** A push, before the limit, leaves the other chats as they wait. A dismiss, and content
      with nothing to join, is the newest command then. */
  lemma PushKeepsOthers(inbox: Commands, c: NotifyCommand)
    requires InboxOk(inbox)
    ensures Others(Merged(inbox, c), c.Key()) == Others(inbox, c.Key())
    ensures (c.Dismiss? && c !in inbox)
            || (c.IsContent() && forall q :: q in inbox && q.IsContent() ==> q.Key() != c.Key())
            ==> Merged(inbox, c) != [] && Merged(inbox, c)[|Merged(inbox, c)| - 1] == c
  {
    var key := c.Key();
    OthersWithout(inbox, key);
    WithoutUpdatesFacts(inbox, key);
    WithoutContentFacts(inbox, key);
    OneOther(c, key);
    match c {
      case Show(_) =>
        var kept := WithoutUpdates(inbox, key);
        match FirstShow(kept, key) {
          case Some(at) => OthersReplace(kept, at, c);
          case None => OthersConcat(kept, [c], key);
        }
      case Update(n) =>
        match FirstContentOf(inbox, key) {
          case Some(at) => OthersReplace(inbox, at, if inbox[at].Show? then Show(n) else c);
          case None => OthersConcat(inbox, [c], key);
        }
      case Dismiss(_) => OthersConcat(WithoutContent(inbox, key), [c], key);
    }
  }

  /** A limit drops the oldest content first: with some content kept, all later content is. */
  lemma {:induction false} TrimDropsOldest(commands: Commands, limit: nat, i: nat, j: nat)
    requires ContentLast(commands) && i < j < |commands| && commands[i].IsContent() && commands[j].IsContent()
    ensures commands[i] in Trim(commands, limit) ==> commands[j] in Trim(commands, limit)
    decreases |commands|
  {
    if |commands| > limit {
      FirstContentFacts(commands);
      assert commands[i] in commands;
      var at := FirstContent(commands).value;
      var rest := RemoveAt(commands, at);
      RemoveAtOk(commands, at);
      if i == at {
        TrimFacts(rest, limit);
        assert commands[i] !in rest;
      } else {
        assert rest[i - 1] == commands[i] && rest[j - 1] == commands[j];
        TrimDropsOldest(rest, limit, i - 1, j - 1);
      }
    }
  }

  lemma RemoveAtOk(commands: Commands, at: nat)
    requires ContentLast(commands) && at < |commands| && commands[at].IsContent()
    ensures ContentLast(RemoveAt(commands, at)) && commands[at] !in RemoveAt(commands, at)
  {
    var rest := RemoveAt(commands, at);
    assert forall i :: 0 <= i < |rest| ==> rest[i] == commands[if i < at then i else i + 1];
  }

  /** It drops no more than the limit asks for, and no dismiss. */
  lemma {:induction false} TrimLength(commands: Commands, limit: nat)
    ensures |Trim(commands, limit)|
            == if |commands| <= limit then |commands|
               else if Dismisses(commands) <= limit then limit else Dismisses(commands)
    decreases |commands|
  {
    DismissesBound(commands);
    if |commands| > limit {
      match FirstContent(commands) {
        case None =>
          FirstContentFacts(commands);
          DismissesOnly(commands);
        case Some(at) =>
          DismissesRemove(commands, at);
          DismissesBound(RemoveAt(commands, at));
          TrimLength(RemoveAt(commands, at), limit);
      }
    }
  }
}
