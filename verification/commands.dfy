/** Notification commands, queues of them, and what they leave on an OS screen with one
    notification of each chat.
    The core queue (notify.rs) and the inbox of the worker (pipe.rs) share these. */
module Commands {
  import opened Wrappers
  import opened Accounts

  datatype MessageTopic = Forum(id: int) | Thread(id: int)

  /** One notification per chat and topic. */
  datatype NotifyKey = NotifyKey(protocol: ProtocolId, conversationId: string, topic: Option<MessageTopic>)

  datatype Notification = Notification(
    key: NotifyKey, title: string, sender: Option<string>, preview: string, count: nat)

  datatype NotifyCommand =
    | Show(notification: Notification)
    | Update(notification: Notification)
    | Dismiss(dismissed: NotifyKey)
  {
    function Key(): NotifyKey {
      match this
      case Show(n) => n.key
      case Update(n) => n.key
      case Dismiss(key) => key
    }

    predicate IsContent() { !Dismiss? }
  }

  type Commands = seq<NotifyCommand>

  /** The screen of a backend that knows a notification by its chat, as on Windows and macOS
      (crates/thinwire-notify/src/tagged.rs): the notification each chat shows. The freedesktop
      backend can show more than one of a chat; `XdgScreens` says when. */
  type Screen = map<NotifyKey, Notification>

  /** A command that such an OS carried out. A show replaces the notification of its chat, and
      an update never shows a new one. */
  function RunOne(screen: Screen, command: NotifyCommand): Screen {
    match command
    case Show(n) => screen[n.key := n]
    case Update(n) => if n.key in screen then screen[n.key := n] else screen
    case Dismiss(key) => screen - {key}
  }

  function RunAll(screen: Screen, commands: Commands): Screen {
    if commands == [] then screen
    else RunOne(RunAll(screen, commands[..|commands| - 1]), commands[|commands| - 1])
  }

  /** The newest command of `key`. */
  function LastOf(commands: Commands, key: NotifyKey): Option<NotifyCommand> {
    if commands == [] then None
    else if commands[|commands| - 1].Key() == key then Some(commands[|commands| - 1])
    else LastOf(commands[..|commands| - 1], key)
  }

  predicate HasCommandOf(commands: Commands, key: NotifyKey) {
    exists c :: c in commands && c.Key() == key
  }

  lemma {:induction false} LastOfConcat(a: Commands, b: Commands, key: NotifyKey)
    ensures LastOf(a + b, key) == if LastOf(b, key).Some? then LastOf(b, key) else LastOf(a, key)
  {
    if b == [] {
      assert a + b == a;
    } else {
      assert (a + b)[..|a + b| - 1] == a + b[..|b| - 1];
      LastOfConcat(a, b[..|b| - 1], key);
    }
  }

  lemma {:induction false} LastOfIsThere(commands: Commands, key: NotifyKey)
    ensures LastOf(commands, key).Some? <==> HasCommandOf(commands, key)
    ensures LastOf(commands, key).Some?
            ==> LastOf(commands, key).value in commands && LastOf(commands, key).value.Key() == key
  {
    if commands != [] {
      var n := |commands| - 1;
      assert commands == commands[..n] + [commands[n]];
      LastOfIsThere(commands[..n], key);
    }
  }

  /** What a chat shows in the end follows from its newest command alone. */
  lemma {:induction false} ScreenAfter(screen: Screen, commands: Commands, key: NotifyKey)
    ensures var after := RunAll(screen, commands);
            match LastOf(commands, key)
            case None => (key in after <==> key in screen) && (key in after ==> after[key] == screen[key])
            case Some(Dismiss(_)) => key !in after
            case Some(Show(n)) => key in after && after[key] == n
            case Some(Update(n)) => key in after ==> after[key] == n
  {
    if commands != [] {
      ScreenAfter(screen, commands[..|commands| - 1], key);
    }
  }

  lemma {:induction false} RunAllConcat(screen: Screen, a: Commands, b: Commands)
    ensures RunAll(screen, a + b) == RunAll(RunAll(screen, a), b)
  {
    if b == [] {
      assert a + b == a;
    } else {
      assert (a + b)[..|a + b| - 1] == a + b[..|b| - 1];
      RunAllConcat(screen, a, b[..|b| - 1]);
    }
  }

  // ----- editing a queue

  /** `retain` of everything but the `Show` and `Update` of `key`. */
  function WithoutContent(commands: Commands, key: NotifyKey): Commands {
    if commands == [] then []
    else
      var last := commands[|commands| - 1];
      var rest := WithoutContent(commands[..|commands| - 1], key);
      if last.IsContent() && last.Key() == key then rest else rest + [last]
  }

  /** `retain` of everything but the `Update` of `key`. */
  function WithoutUpdates(commands: Commands, key: NotifyKey): Commands {
    if commands == [] then []
    else
      var last := commands[|commands| - 1];
      var rest := WithoutUpdates(commands[..|commands| - 1], key);
      if last.Update? && last.Key() == key then rest else rest + [last]
  }

  /** The place of the oldest `Show` or `Update`. */
  function FirstContent(commands: Commands): (r: Option<nat>)
    ensures r.Some? ==> r.value < |commands| && commands[r.value].IsContent()
  {
    if commands == [] then None
    else if commands[0].IsContent() then Some(0)
    else
      match FirstContent(commands[1..])
      case None => None
      case Some(at) => Some(at + 1)
  }

  /** The oldest queued `Show` of `key`. */
  function FirstShow(commands: Commands, key: NotifyKey): (r: Option<nat>)
    ensures r.Some? ==> r.value < |commands| && commands[r.value].Show? && commands[r.value].Key() == key
                        && forall i :: 0 <= i < r.value ==> !(commands[i].Show? && commands[i].Key() == key)
    ensures r.None? ==> forall c :: c in commands ==> !(c.Show? && c.Key() == key)
  {
    if commands == [] then None
    else if commands[0].Show? && commands[0].Key() == key then Some(0)
    else
      match FirstShow(commands[1..], key)
      case None => None
      case Some(at) => Some(at + 1)
  }

  lemma {:induction false} FirstContentFacts(commands: Commands)
    ensures FirstContent(commands).None? <==> forall c :: c in commands ==> c.Dismiss?
    ensures FirstContent(commands).Some? ==> forall i :: 0 <= i < FirstContent(commands).value ==> commands[i].Dismiss?
  {
    if commands != [] {
      FirstContentFacts(commands[1..]);
      assert commands == [commands[0]] + commands[1..];
    }
  }

  function RemoveAt(commands: Commands, at: nat): Commands
    requires at < |commands|
  {
    commands[..at] + commands[at + 1..]
  }

  /** Over `limit`, the oldest `Show` or `Update` goes. A `Dismiss` never goes. */
  function Trim(commands: Commands, limit: nat): Commands
    decreases |commands|
  {
    if |commands| <= limit then commands
    else
      match FirstContent(commands)
      case None => commands
      case Some(at) => Trim(RemoveAt(commands, at), limit)
  }

  /** The chats whose content `Trim` drops. */
  function Dropped(commands: Commands, limit: nat): set<NotifyKey>
    decreases |commands|
  {
    if |commands| <= limit then {}
    else
      match FirstContent(commands)
      case None => {}
      case Some(at) => {commands[at].Key()} + Dropped(RemoveAt(commands, at), limit)
  }

  /** Each `Show` or `Update` is the newest command of its chat in the queue, so
      a chat has at most one. */
  ghost predicate ContentLast(commands: Commands) {
    forall i, j :: 0 <= i < j < |commands| && commands[i].IsContent() ==> commands[i].Key() != commands[j].Key()
  }

  lemma {:induction false} WithoutContentFacts(commands: Commands, key: NotifyKey)
    ensures forall c :: c in WithoutContent(commands, key) <==> c in commands && !(c.IsContent() && c.Key() == key)
    ensures ContentLast(commands) ==> ContentLast(WithoutContent(commands, key))
    ensures |WithoutContent(commands, key)| <= |commands|
  {
    if commands != [] {
      var n := |commands| - 1;
      WithoutContentFacts(commands[..n], key);
      assert commands == commands[..n] + [commands[n]];
    }
  }

  lemma {:induction false} WithoutContentLastOf(commands: Commands, key: NotifyKey, k: NotifyKey)
    ensures k != key || LastOf(commands, key) == Some(Dismiss(key))
            ==> LastOf(WithoutContent(commands, key), k) == LastOf(commands, k)
  {
    if commands != [] {
      var n := |commands| - 1;
      var rest := WithoutContent(commands[..n], key);
      WithoutContentLastOf(commands[..n], key, k);
      assert (rest + [commands[n]])[..|rest|] == rest;
    }
  }

  lemma {:induction false} WithoutUpdatesFacts(commands: Commands, key: NotifyKey)
    ensures forall c :: c in WithoutUpdates(commands, key) <==> c in commands && !(c.Update? && c.Key() == key)
    ensures ContentLast(commands) ==> ContentLast(WithoutUpdates(commands, key))
    ensures |WithoutUpdates(commands, key)| <= |commands|
  {
    if commands != [] {
      var n := |commands| - 1;
      WithoutUpdatesFacts(commands[..n], key);
      assert commands == commands[..n] + [commands[n]];
    }
  }

  lemma {:induction false} WithoutUpdatesLastOf(commands: Commands, key: NotifyKey, k: NotifyKey)
    ensures k != key || (LastOf(commands, key).Some? && !LastOf(commands, key).value.Update?)
            ==> LastOf(WithoutUpdates(commands, key), k) == LastOf(commands, k)
  {
    if commands != [] {
      var n := |commands| - 1;
      var rest := WithoutUpdates(commands[..n], key);
      WithoutUpdatesLastOf(commands[..n], key, k);
      assert (rest + [commands[n]])[..|rest|] == rest;
    }
  }

  lemma RemoveAtFacts(commands: Commands, at: nat)
    requires at < |commands| && commands[at].IsContent()
    ensures forall c :: c in RemoveAt(commands, at) ==> c in commands
    ensures forall c :: c in commands && c.Dismiss? ==> c in RemoveAt(commands, at)
    ensures ContentLast(commands) ==> ContentLast(RemoveAt(commands, at))
  {
    var after := RemoveAt(commands, at);
    forall c | c in commands && c.Dismiss? ensures c in after {
      var i :| 0 <= i < |commands| && commands[i] == c;
      assert i < at ==> after[i] == c;
      assert i > at ==> after[i - 1] == c;
    }
  }

  lemma RemoveAtLastOf(commands: Commands, at: nat, k: NotifyKey)
    requires at < |commands| && commands[at].IsContent()
    ensures commands[at].Key() != k || LastOf(commands, k) == Some(Dismiss(k))
            ==> LastOf(RemoveAt(commands, at), k) == LastOf(commands, k)
    ensures LastOf(commands, k).Some? || commands[at].Key() != k
  {
    var head, tail := commands[..at], commands[at + 1..];
    assert commands == head + ([commands[at]] + tail);
    LastOfConcat(head, [commands[at]] + tail, k);
    LastOfConcat([commands[at]], tail, k);
    LastOfConcat(head, tail, k);
  }

  /** Trimming drops content only: never a `Dismiss`, and at most as much as the
      limit asks. */
  lemma {:induction false} TrimFacts(commands: Commands, limit: nat)
    ensures forall c :: c in Trim(commands, limit) ==> c in commands
    ensures forall c :: c in commands && c.Dismiss? ==> c in Trim(commands, limit)
    ensures ContentLast(commands) ==> ContentLast(Trim(commands, limit))
    ensures |Trim(commands, limit)| <= limit || forall c :: c in Trim(commands, limit) ==> c.Dismiss?
    ensures |Trim(commands, limit)| <= |commands|
    ensures forall k :: k in Dropped(commands, limit) ==> exists c :: c in commands && c.IsContent() && c.Key() == k
    decreases |commands|
  {
    FirstContentFacts(commands);
    if |commands| > limit && FirstContent(commands).Some? {
      var at := FirstContent(commands).value;
      RemoveAtFacts(commands, at);
      TrimFacts(RemoveAt(commands, at), limit);
      forall k | k in Dropped(commands, limit)
        ensures exists c :: c in commands && c.IsContent() && c.Key() == k
      {
        if k == commands[at].Key() {
          assert commands[at] in commands;
        } else {
          assert k in Dropped(RemoveAt(commands, at), limit);
          var c :| c in RemoveAt(commands, at) && c.IsContent() && c.Key() == k;
          assert c in commands;
        }
      }
    }
  }

  lemma {:induction false} TrimLastOf(commands: Commands, limit: nat, k: NotifyKey)
    ensures k !in Dropped(commands, limit) || LastOf(commands, k) == Some(Dismiss(k))
            ==> LastOf(Trim(commands, limit), k) == LastOf(commands, k)
    ensures k in Dropped(commands, limit) ==> LastOf(commands, k).Some?
    decreases |commands|
  {
    if |commands| > limit && FirstContent(commands).Some? {
      var at := FirstContent(commands).value;
      RemoveAtLastOf(commands, at, k);
      TrimLastOf(RemoveAt(commands, at), limit, k);
      if k in Dropped(RemoveAt(commands, at), limit) {
        var kept := LastOf(RemoveAt(commands, at), k).value;
        LastOfIsThere(RemoveAt(commands, at), k);
        RemoveAtFacts(commands, at);
        LastOfIsThere(commands, k);
      }
    }
  }

  function Dismisses(commands: Commands): nat {
    if commands == [] then 0
    else (if commands[|commands| - 1].Dismiss? then 1 else 0) + Dismisses(commands[..|commands| - 1])
  }

  lemma {:induction false} DismissesConcat(a: Commands, b: Commands)
    ensures Dismisses(a + b) == Dismisses(a) + Dismisses(b)
  {
    if b == [] {
      assert a + b == a;
    } else {
      assert (a + b)[..|a + b| - 1] == a + b[..|b| - 1];
      DismissesConcat(a, b[..|b| - 1]);
    }
  }

  lemma {:induction false} DismissesOnly(commands: Commands)
    requires forall c :: c in commands ==> c.Dismiss?
    ensures Dismisses(commands) == |commands|
  {
    if commands != [] { DismissesOnly(commands[..|commands| - 1]); }
  }

  lemma {:induction false} DismissesBound(commands: Commands)
    ensures Dismisses(commands) <= |commands|
  {
    if commands != [] { DismissesBound(commands[..|commands| - 1]); }
  }

  lemma DismissesRemove(commands: Commands, at: nat)
    requires at < |commands| && commands[at].IsContent()
    ensures Dismisses(RemoveAt(commands, at)) == Dismisses(commands)
  {
    var head, tail := commands[..at], commands[at + 1..];
    assert commands == head + [commands[at]] + tail;
    DismissesConcat(head + [commands[at]], tail);
    DismissesConcat(head, [commands[at]]);
    DismissesConcat(head, tail);
  }

  lemma {:induction false} FirstContentAppend(commands: Commands, c: NotifyCommand)
    requires c.IsContent()
    ensures FirstContent(commands + [c])
            == if FirstContent(commands).Some? then FirstContent(commands) else Some(|commands|)
  {
    if commands != [] {
      assert (commands + [c])[1..] == commands[1..] + [c];
      FirstContentAppend(commands[1..], c);
    }
  }

  /** Trimming keeps the newest content exactly when fewer dismisses than the limit
      come before it. */
  lemma {:induction false} TrimKeepsNewest(commands: Commands, c: NotifyCommand, limit: nat)
    requires c.IsContent()
    ensures var kept := Trim(commands + [c], limit);
            (kept != [] && kept[|kept| - 1] == c) <==> Dismisses(commands) < limit
    decreases |commands|
  {
    DismissesBound(commands);
    if |commands| >= limit {
      FirstContentAppend(commands, c);
      match FirstContent(commands) {
        case Some(at) =>
          assert RemoveAt(commands + [c], at) == RemoveAt(commands, at) + [c];
          DismissesRemove(commands, at);
          TrimKeepsNewest(RemoveAt(commands, at), c, limit);
        case None =>
          assert RemoveAt(commands + [c], |commands|) == commands;
          FirstContentFacts(commands);
          DismissesOnly(commands);
          assert commands != [] ==> commands[|commands| - 1] in commands;
      }
    }
  }
}
