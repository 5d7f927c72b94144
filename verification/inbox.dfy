/** The inbox of the notification worker (crates/thinwire-notify/src/pipe.rs). */
module Inboxes {
  import opened Wrappers
  import opened Commands

  const INBOX_LIMIT := 64

  /** The oldest queued `Show` or `Update` of `key`. */
  function FirstContentOf(commands: Commands, key: NotifyKey): (r: Option<nat>)
    ensures r.Some? ==> r.value < |commands| && commands[r.value].IsContent() && commands[r.value].Key() == key
    ensures r.None? ==> forall c :: c in commands ==> !(c.IsContent() && c.Key() == key)
  {
    if commands == [] then None
    else if commands[0].IsContent() && commands[0].Key() == key then Some(0)
    else
      match FirstContentOf(commands[1..], key)
      case None => None
      case Some(at) => Some(at + 1)
  }

  /** The command joins a queued one of its chat, so the queue does not grow. */
  predicate Joins(inbox: Commands, command: NotifyCommand) {
    match command
    case Show(_) => FirstShow(WithoutUpdates(inbox, command.Key()), command.Key()).Some?
    case Update(_) => FirstContentOf(inbox, command.Key()).Some?
    case Dismiss(_) => HasDismiss(WithoutContent(inbox, command.Key()), command.Key())
  }

  predicate HasDismiss(commands: Commands, key: NotifyKey) {
    Dismiss(key) in commands
  }

  /** The inbox and one more command of a chat, before the limit. */
  function Merged(inbox: Commands, command: NotifyCommand): Commands {
    var key := command.Key();
    match command
    case Show(_) =>
      var kept := WithoutUpdates(inbox, key);
      (match FirstShow(kept, key)
       case Some(at) => kept[at := command]
       case None => kept + [command])
    case Update(n) =>
      (match FirstContentOf(inbox, key)
       case Some(at) => inbox[at := if inbox[at].Show? then Show(n) else command]
       case None => inbox + [command])
    case Dismiss(_) =>
      var kept := WithoutContent(inbox, key);
      if HasDismiss(kept, key) then kept else kept + [command]
  }

  function Push(inbox: Commands, command: NotifyCommand): Commands {
    if Joins(inbox, command) then Merged(inbox, command) else Trim(Merged(inbox, command), INBOX_LIMIT)
  }

  function LostByPush(inbox: Commands, command: NotifyCommand): set<NotifyKey> {
    if Joins(inbox, command) then {} else Dropped(Merged(inbox, command), INBOX_LIMIT)
  }

  function PushAll(inbox: Commands, commands: Commands): Commands {
    if commands == [] then inbox
    else Push(PushAll(inbox, commands[..|commands| - 1]), commands[|commands| - 1])
  }

  /** The chats whose content the limit dropped, until a later `Show` or `Dismiss`
      of the chat makes good for it. */
  function Owing(inbox: Commands, commands: Commands): set<NotifyKey> {
    if commands == [] then {}
    else
      var n := |commands| - 1;
      var before := Owing(inbox, commands[..n]);
      (if commands[n].Update? then before else before - {commands[n].Key()})
      + LostByPush(PushAll(inbox, commands[..n]), commands[n])
  }

  /** A chat waits with at most one `Dismiss`, and at most one `Show` or `Update`
      after it. */
  ghost predicate InboxOk(inbox: Commands) {
    && ContentLast(inbox)
    && OneDismiss(inbox)
    && |inbox| - Dismisses(inbox) <= INBOX_LIMIT
  }

  ghost predicate OneDismiss(inbox: Commands) {
    forall i, j :: 0 <= i < j < |inbox| && inbox[i].Dismiss? ==> inbox[i] != inbox[j]
  }

  // ----- counting

  lemma DismissesReplace(commands: Commands, at: nat, c: NotifyCommand)
    requires at < |commands| && commands[at].IsContent() && c.IsContent()
    ensures Dismisses(commands[at := c]) == Dismisses(commands)
  {
    var head, tail := commands[..at], commands[at + 1..];
    assert commands == head + [commands[at]] + tail && commands[at := c] == head + [c] + tail;
    DismissesConcat(head + [commands[at]], tail);
    DismissesConcat(head, [commands[at]]);
    DismissesConcat(head + [c], tail);
    DismissesConcat(head, [c]);
  }

  lemma {:induction false} DismissesWithout(commands: Commands, key: NotifyKey)
    ensures Dismisses(WithoutContent(commands, key)) == Dismisses(commands)
    ensures Dismisses(WithoutUpdates(commands, key)) == Dismisses(commands)
  {
    if commands != [] {
      var n := |commands| - 1;
      DismissesWithout(commands[..n], key);
      DismissesConcat(WithoutContent(commands[..n], key), [commands[n]]);
      DismissesConcat(WithoutUpdates(commands[..n], key), [commands[n]]);
    }
  }

  // ----- the shape of the inbox

  lemma {:induction false} WithoutKeepsOneDismiss(commands: Commands, key: NotifyKey)
    requires OneDismiss(commands)
    ensures OneDismiss(WithoutContent(commands, key)) && OneDismiss(WithoutUpdates(commands, key))
  {
    if commands != [] {
      var n := |commands| - 1;
      WithoutKeepsOneDismiss(commands[..n], key);
      WithoutContentFacts(commands[..n], key);
      WithoutUpdatesFacts(commands[..n], key);
      assert commands[n].Dismiss? ==> commands[n] !in commands[..n];
    }
  }

  lemma {:induction false} TrimKeepsOneDismiss(commands: Commands, limit: nat)
    requires OneDismiss(commands)
    ensures OneDismiss(Trim(commands, limit))
    decreases |commands|
  {
    if |commands| > limit && FirstContent(commands).Some? {
      TrimKeepsOneDismiss(RemoveAt(commands, FirstContent(commands).value), limit);
    }
  }

  /** Putting content of the same chat in the place of queued content keeps the shape. */
  lemma ReplaceOk(commands: Commands, at: nat, c: NotifyCommand)
    requires ContentLast(commands) && OneDismiss(commands)
    requires at < |commands| && commands[at].IsContent() && c.IsContent() && c.Key() == commands[at].Key()
    ensures ContentLast(commands[at := c]) && OneDismiss(commands[at := c])
    ensures LastOf(commands[at := c], c.Key()) == Some(c)
  {
    var head, tail := commands[..at], commands[at + 1..];
    assert commands[at := c] == head + ([c] + tail);
    LastOfConcat(head, [c] + tail, c.Key());
    LastOfConcat([c], tail, c.Key());
    LastOfIsThere(tail, c.Key());
  }

  lemma AppendOk(commands: Commands, c: NotifyCommand)
    requires ContentLast(commands) && OneDismiss(commands)
    requires forall q :: q in commands && q.Key() == c.Key() ==> q.Dismiss? && c.IsContent()
    ensures ContentLast(commands + [c]) && OneDismiss(commands + [c])
  {
    var longer := commands + [c];
    forall i, j | 0 <= i < j < |longer|
      ensures longer[i].IsContent() ==> longer[i].Key() != longer[j].Key()
      ensures longer[i].Dismiss? ==> longer[i] != longer[j]
    {
      assert longer[i] == commands[i] && commands[i] in commands;
    }
  }

  lemma MergedShape(inbox: Commands, c: NotifyCommand)
    requires InboxOk(inbox)
    ensures ContentLast(Merged(inbox, c)) && OneDismiss(Merged(inbox, c))
    ensures Joins(inbox, c) ==> |Merged(inbox, c)| - Dismisses(Merged(inbox, c)) <= INBOX_LIMIT
    ensures |Merged(inbox, c)| <= |inbox| + 1
  {
    var key := c.Key();
    WithoutContentFacts(inbox, key);
    WithoutUpdatesFacts(inbox, key);
    WithoutKeepsOneDismiss(inbox, key);
    DismissesWithout(inbox, key);
    match c {
      case Show(_) =>
        var kept := WithoutUpdates(inbox, key);
        match FirstShow(kept, key) {
          case Some(at) =>
            ReplaceOk(kept, at, c);
            DismissesReplace(kept, at, c);
          case None => AppendOk(kept, c);
        }
      case Update(n) =>
        match FirstContentOf(inbox, key) {
          case Some(at) =>
            var put := if inbox[at].Show? then Show(n) else c;
            ReplaceOk(inbox, at, put);
            DismissesReplace(inbox, at, put);
          case None => AppendOk(inbox, c);
        }
      case Dismiss(_) =>
        var kept := WithoutContent(inbox, key);
        if !HasDismiss(kept, key) { AppendOk(kept, c); }
    }
  }

  lemma {:induction false} TrimDismisses(commands: Commands, limit: nat)
    ensures Dismisses(Trim(commands, limit)) == Dismisses(commands)
    decreases |commands|
  {
    if |commands| > limit && FirstContent(commands).Some? {
      DismissesRemove(commands, FirstContent(commands).value);
      TrimDismisses(RemoveAt(commands, FirstContent(commands).value), limit);
    }
  }

  lemma {:induction false} TrimContents(commands: Commands, limit: nat)
    ensures |Trim(commands, limit)| - Dismisses(Trim(commands, limit)) <= limit
  {
    TrimFacts(commands, limit);
    if |Trim(commands, limit)| > limit { DismissesOnly(Trim(commands, limit)); }
  }

  lemma PushOk(inbox: Commands, c: NotifyCommand)
    requires InboxOk(inbox)
    ensures InboxOk(Push(inbox, c))
  {
    MergedShape(inbox, c);
    TrimFacts(Merged(inbox, c), INBOX_LIMIT);
    TrimKeepsOneDismiss(Merged(inbox, c), INBOX_LIMIT);
    TrimContents(Merged(inbox, c), INBOX_LIMIT);
  }

  lemma {:induction false} PushAllOk(inbox: Commands, commands: Commands)
    requires InboxOk(inbox)
    ensures InboxOk(PushAll(inbox, commands))
  {
    if commands != [] {
      PushAllOk(inbox, commands[..|commands| - 1]);
      PushOk(PushAll(inbox, commands[..|commands| - 1]), commands[|commands| - 1]);
    }
  }

  // ----- what a push adds and takes out

  /** `q` carries what `c` says: the same dismiss, or the text of `c` for its chat. */
  predicate Carries(q: NotifyCommand, c: NotifyCommand) {
    if c.Dismiss? then q == c else q.IsContent() && q.notification == c.notification
  }

  /** A merge adds nothing but the new command, and takes out content of its chat only. */
  lemma MergedFacts(inbox: Commands, c: NotifyCommand)
    ensures forall q :: q in Merged(inbox, c) ==> q in inbox || Carries(q, c)
    ensures forall q :: q in inbox && (q.Dismiss? || q.Key() != c.Key()) ==> q in Merged(inbox, c)
    ensures c.Dismiss? ==> c in Merged(inbox, c)
  {
    var key := c.Key();
    WithoutContentFacts(inbox, key);
    WithoutUpdatesFacts(inbox, key);
    if c.Show? && FirstShow(WithoutUpdates(inbox, key), key).Some? {
      ReplacedFacts(WithoutUpdates(inbox, key), FirstShow(WithoutUpdates(inbox, key), key).value, c);
    }
    if c.Update? && FirstContentOf(inbox, key).Some? {
      var at := FirstContentOf(inbox, key).value;
      ReplacedFacts(inbox, at, if inbox[at].Show? then Show(c.notification) else c);
    }
  }

  lemma ReplacedFacts(commands: Commands, at: nat, c: NotifyCommand)
    requires at < |commands|
    ensures forall q :: q in commands[at := c] ==> q in commands || q == c
    ensures forall q :: q in commands && q != commands[at] ==> q in commands[at := c]
  {
    forall q | q in commands && q != commands[at] ensures q in commands[at := c] {
      var i :| 0 <= i < |commands| && commands[i] == q;
      assert commands[at := c][i] == q;
    }
  }

  lemma PushCarries(inbox: Commands, c: NotifyCommand)
    ensures forall q :: q in Push(inbox, c) ==> q in inbox || Carries(q, c)
  {
    MergedFacts(inbox, c);
    TrimFacts(Merged(inbox, c), INBOX_LIMIT);
  }

  /** No push ever drops a queued dismiss. */
  lemma PushKeepsDismiss(inbox: Commands, c: NotifyCommand)
    ensures forall q :: q in inbox && q.Dismiss? ==> q in Push(inbox, c)
    ensures c.Dismiss? ==> c in Push(inbox, c)
  {
    MergedFacts(inbox, c);
    TrimFacts(Merged(inbox, c), INBOX_LIMIT);
  }

  lemma {:induction false} PushAllCarries(inbox: Commands, commands: Commands)
    ensures forall q :: q in PushAll(inbox, commands) ==> q in inbox || exists c :: c in commands && Carries(q, c)
  {
    if commands != [] {
      var n := |commands| - 1;
      PushAllCarries(inbox, commands[..n]);
      PushCarries(PushAll(inbox, commands[..n]), commands[n]);
      assert commands == commands[..n] + [commands[n]];
    }
  }

  // ----- merging keeps the meaning

  function At(screen: Screen, key: NotifyKey): Option<Notification> {
    if key in screen then Some(screen[key]) else None
  }

  lemma {:induction false} WithoutContentSame(screen: Screen, commands: Commands, key: NotifyKey, k: NotifyKey)
    requires k != key
    ensures At(RunAll(screen, WithoutContent(commands, key)), k) == At(RunAll(screen, commands), k)
  {
    if commands != [] {
      var n := |commands| - 1;
      WithoutContentSame(screen, commands[..n], key, k);
      RunAppend(screen, WithoutContent(commands[..n], key), commands[n]);
    }
  }

  lemma {:induction false} WithoutUpdatesSame(screen: Screen, commands: Commands, key: NotifyKey, k: NotifyKey)
    requires k != key
    ensures At(RunAll(screen, WithoutUpdates(commands, key)), k) == At(RunAll(screen, commands), k)
  {
    if commands != [] {
      var n := |commands| - 1;
      WithoutUpdatesSame(screen, commands[..n], key, k);
      RunAppend(screen, WithoutUpdates(commands[..n], key), commands[n]);
    }
  }

  /** The chat `k` does not notice what commands of other chats do to the screen. */
  lemma {:induction false} SameStart(a: Screen, b: Screen, commands: Commands, k: NotifyKey)
    requires At(a, k) == At(b, k)
    ensures At(RunAll(a, commands), k) == At(RunAll(b, commands), k)
  {
    if commands != [] { SameStart(a, b, commands[..|commands| - 1], k); }
  }

  lemma {:induction false} FewerStart(a: Screen, b: Screen, commands: Commands, k: NotifyKey)
    requires k in a ==> k in b
    ensures k in RunAll(a, commands) ==> k in RunAll(b, commands)
  {
    if commands != [] { FewerStart(a, b, commands[..|commands| - 1], k); }
  }

  lemma RunSplit(screen: Screen, head: Commands, c: NotifyCommand, tail: Commands)
    ensures RunAll(screen, head + [c] + tail) == RunAll(RunOne(RunAll(screen, head), c), tail)
  {
    RunAllConcat(screen, head + [c], tail);
    RunAllConcat(screen, head, [c]);
    assert [c][..0] == [];
  }

  /** Replacing a queued command by one of the same chat changes no other chat. */
  lemma ReplaceSame(screen: Screen, commands: Commands, at: nat, c: NotifyCommand, k: NotifyKey)
    requires at < |commands| && c.Key() == commands[at].Key()
    ensures k != c.Key() ==> At(RunAll(screen, commands[at := c]), k) == At(RunAll(screen, commands), k)
    ensures k == c.Key() && c.Update? && commands[at].Update?
            ==> (k in RunAll(screen, commands[at := c]) <==> k in RunAll(screen, commands))
  {
    var head, tail := commands[..at], commands[at + 1..];
    var before := RunAll(screen, head);
    assert commands == head + [commands[at]] + tail && commands[at := c] == head + [c] + tail;
    RunSplit(screen, head, c, tail);
    RunSplit(screen, head, commands[at], tail);
    var one, other := RunOne(before, c), RunOne(before, commands[at]);
    if k != c.Key() {
      SameStart(one, other, tail, k);
    } else {
      if c.Update? && commands[at].Update? {
        FewerStart(one, other, tail, k);
        FewerStart(other, one, tail, k);
      }
    }
  }

  lemma RunAppend(screen: Screen, commands: Commands, c: NotifyCommand)
    ensures RunAll(screen, commands + [c]) == RunOne(RunAll(screen, commands), c)
  {
    assert (commands + [c])[..|commands|] == commands;
  }

  lemma MergedShowMeaning(screen: Screen, inbox: Commands, c: NotifyCommand, k: NotifyKey)
    requires InboxOk(inbox) && c.Show?
    ensures At(RunAll(screen, Merged(inbox, c)), k) == At(RunOne(RunAll(screen, inbox), c), k)
  {
    var key := c.Key();
    var kept := WithoutUpdates(inbox, key);
    WithoutUpdatesFacts(inbox, key);
    WithoutKeepsOneDismiss(inbox, key);
    if k != key { WithoutUpdatesSame(screen, inbox, key, k); }
    match FirstShow(kept, key) {
      case Some(at) =>
        ReplaceSame(screen, kept, at, c, k);
        ReplaceOk(kept, at, c);
        ScreenAfter(screen, kept[at := c], key);
      case None => RunAppend(screen, kept, c);
    }
  }

  lemma MergedUpdateMeaning(screen: Screen, inbox: Commands, c: NotifyCommand, k: NotifyKey)
    requires InboxOk(inbox) && c.Update?
    ensures At(RunAll(screen, Merged(inbox, c)), k) == At(RunOne(RunAll(screen, inbox), c), k)
  {
    match FirstContentOf(inbox, c.Key()) {
      case Some(at) =>
        var put := if inbox[at].Show? then Show(c.notification) else c;
        ReplaceSame(screen, inbox, at, put, k);
        ReplaceOk(inbox, at, put);
        ReplaceOk(inbox, at, inbox[at]);
        assert inbox[at := inbox[at]] == inbox;
        ScreenAfter(screen, inbox[at := put], c.Key());
        ScreenAfter(screen, inbox, c.Key());
      case None => RunAppend(screen, inbox, c);
    }
  }

  lemma MergedDismissMeaning(screen: Screen, inbox: Commands, c: NotifyCommand, k: NotifyKey)
    requires c.Dismiss?
    ensures At(RunAll(screen, Merged(inbox, c)), k) == At(RunOne(RunAll(screen, inbox), c), k)
  {
    var key := c.Key();
    var kept := WithoutContent(inbox, key);
    if k != key { WithoutContentSame(screen, inbox, key, k); }
    RunAppend(screen, kept, c);
    if HasDismiss(kept, key) {
      WithoutContentFacts(inbox, key);
      LastOfIsThere(kept, key);
      ScreenAfter(screen, kept, key);
    }
  }

  /** Merging a command into the inbox leaves the same screen as running the command after
      the inbox, where a show replaces the notification of its chat. */
  lemma MergedMeaning(screen: Screen, inbox: Commands, c: NotifyCommand, k: NotifyKey)
    requires InboxOk(inbox)
    ensures At(RunAll(screen, Merged(inbox, c)), k) == At(RunOne(RunAll(screen, inbox), c), k)
  {
    match c
    case Show(_) => MergedShowMeaning(screen, inbox, c, k);
    case Update(_) => MergedUpdateMeaning(screen, inbox, c, k);
    case Dismiss(_) => MergedDismissMeaning(screen, inbox, c, k);
  }

  /** `n` is what the chat showed at the start, or the text of one of its commands. */
  ghost predicate TextOf(screen: Screen, commands: Commands, k: NotifyKey, n: Notification) {
    || (k in screen && n == screen[k])
    || (exists c :: c in commands && c.IsContent() && c.Key() == k && c.notification == n)
  }

  lemma TextOfMore(screen: Screen, fewer: Commands, more: Commands, k: NotifyKey, n: Notification)
    requires TextOf(screen, fewer, k, n) && forall c :: c in fewer ==> c in more
    ensures TextOf(screen, more, k, n)
  {
  }

  lemma {:induction false} ShownTextOf(screen: Screen, commands: Commands, k: NotifyKey)
    requires k in RunAll(screen, commands)
    ensures TextOf(screen, commands, k, RunAll(screen, commands)[k])
  {
    if commands != [] {
      var head, c := commands[..|commands| - 1], commands[|commands| - 1];
      assert c in commands;
      if !(c.IsContent() && c.Key() == k) {
        ShownTextOf(screen, head, k);
        TextOfMore(screen, head, commands, k, RunAll(screen, head)[k]);
      }
    }
  }

  /** A limit that drops content of a chat takes it off the screen, or leaves what it showed
      at the start or the text of one of its commands. It changes no other chat. */
  lemma TrimMeaning(screen: Screen, commands: Commands, limit: nat, k: NotifyKey)
    ensures k in RunAll(screen, Trim(commands, limit)) ==>
              k in RunAll(screen, commands) && TextOf(screen, commands, k, RunAll(screen, Trim(commands, limit))[k])
    ensures k !in Dropped(commands, limit)
            ==> At(RunAll(screen, Trim(commands, limit)), k) == At(RunAll(screen, commands), k)
  {
    TrimChats(screen, commands, limit, k);
    TrimFacts(commands, limit);
    if k in RunAll(screen, Trim(commands, limit)) {
      ShownTextOf(screen, Trim(commands, limit), k);
      TextOfMore(screen, Trim(commands, limit), commands, k, RunAll(screen, Trim(commands, limit))[k]);
    }
  }

  lemma {:induction false} TrimChats(screen: Screen, commands: Commands, limit: nat, k: NotifyKey)
    ensures k in RunAll(screen, Trim(commands, limit)) ==> k in RunAll(screen, commands)
    ensures k !in Dropped(commands, limit)
            ==> At(RunAll(screen, Trim(commands, limit)), k) == At(RunAll(screen, commands), k)
    decreases |commands|
  {
    if |commands| > limit && FirstContent(commands).Some? {
      var at := FirstContent(commands).value;
      var head, c, tail := commands[..at], commands[at], commands[at + 1..];
      assert commands == head + [c] + tail;
      RunSplit(screen, head, c, tail);
      RunAllConcat(screen, head, tail);
      var before := RunAll(screen, head);
      FewerStart(before, RunOne(before, c), tail, k);
      if k != c.Key() { SameStart(before, RunOne(before, c), tail, k); }
      TrimChats(screen, RemoveAt(commands, at), limit, k);
    }
  }

  lemma PushMeaning(screen: Screen, inbox: Commands, c: NotifyCommand, k: NotifyKey)
    requires InboxOk(inbox)
    ensures k !in LostByPush(inbox, c)
            ==> At(RunAll(screen, Push(inbox, c)), k) == At(RunOne(RunAll(screen, inbox), c), k)
    ensures k in RunAll(screen, Push(inbox, c)) ==> k in RunOne(RunAll(screen, inbox), c)
  {
    MergedMeaning(screen, inbox, c, k);
    TrimChats(screen, Merged(inbox, c), INBOX_LIMIT, k);
  }

  lemma RunOneSame(a: Screen, b: Screen, c: NotifyCommand, k: NotifyKey)
    ensures At(a, k) == At(b, k) || (c.Key() == k && !c.Update?) ==> At(RunOne(a, c), k) == At(RunOne(b, c), k)
    ensures (k in a ==> k in b) ==> (k in RunOne(a, c) ==> k in RunOne(b, c))
  {
  }

  /** One more command, into the inbox and onto the screen of the raw sequence. */
  lemma PushBeside(screen: Screen, queued: Commands, raw: Screen, c: NotifyCommand, k: NotifyKey)
    requires InboxOk(queued) && (k in RunAll(screen, queued) ==> k in raw)
    ensures k in RunAll(screen, Push(queued, c)) ==> k in RunOne(raw, c)
    ensures k !in LostByPush(queued, c) && (At(RunAll(screen, queued), k) == At(raw, k) || (c.Key() == k && !c.Update?))
            ==> At(RunAll(screen, Push(queued, c)), k) == At(RunOne(raw, c), k)
  {
    PushMeaning(screen, queued, c, k);
    RunOneSame(RunAll(screen, queued), raw, c, k);
  }

  lemma RunLast(screen: Screen, inbox: Commands, commands: Commands)
    requires commands != []
    ensures var n := |commands| - 1;
            RunAll(screen, inbox + commands) == RunOne(RunAll(screen, inbox + commands[..n]), commands[n])
  {
    var n := |commands| - 1;
    assert inbox + commands == (inbox + commands[..n]) + [commands[n]];
    RunAppend(screen, inbox + commands[..n], commands[n]);
  }

  lemma {:induction false} InboxChats(screen: Screen, inbox: Commands, commands: Commands, k: NotifyKey)
    requires InboxOk(inbox)
    ensures k !in Owing(inbox, commands)
            ==> At(RunAll(screen, PushAll(inbox, commands)), k) == At(RunAll(screen, inbox + commands), k)
    ensures k in RunAll(screen, PushAll(inbox, commands)) ==> k in RunAll(screen, inbox + commands)
  {
    if commands == [] {
      assert inbox + commands == inbox;
    } else {
      var n := |commands| - 1;
      var queued := PushAll(inbox, commands[..n]);
      InboxChats(screen, inbox, commands[..n], k);
      PushAllOk(inbox, commands[..n]);
      RunLast(screen, inbox, commands);
      PushBeside(screen, queued, RunAll(screen, inbox + commands[..n]), commands[n], k);
    }
  }

  /** For every command sequence, start inbox and start screen, where a show replaces the
      notification of its chat: the inbox leaves each chat as the raw sequence does, unless the
      limit dropped the chat's content and nothing since made good for it. Such a chat shows
      only where the raw one does, and then what it showed at the start or the text of one of
      its commands. */
  lemma InboxRefinesRaw(screen: Screen, inbox: Commands, commands: Commands, k: NotifyKey)
    requires InboxOk(inbox)
    ensures k !in Owing(inbox, commands)
            ==> At(RunAll(screen, PushAll(inbox, commands)), k) == At(RunAll(screen, inbox + commands), k)
    ensures k in RunAll(screen, PushAll(inbox, commands)) ==>
              && k in RunAll(screen, inbox + commands)
              && TextOf(screen, inbox + commands, k, RunAll(screen, PushAll(inbox, commands))[k])
  {
    InboxChats(screen, inbox, commands, k);
    var queued := PushAll(inbox, commands);
    if k in RunAll(screen, queued) {
      ShownTextOf(screen, queued, k);
      PushAllCarries(inbox, commands);
      TextCarried(screen, queued, inbox, commands, k, RunAll(screen, queued)[k]);
    }
  }

  lemma TextCarried(screen: Screen, queued: Commands, inbox: Commands, commands: Commands,
                    k: NotifyKey, n: Notification)
    requires TextOf(screen, queued, k, n)
    requires forall q :: q in queued ==> q in inbox || exists c :: c in commands && Carries(q, c)
    ensures TextOf(screen, inbox + commands, k, n)
  {
    if !(k in screen && n == screen[k]) {
      var q :| q in queued && q.IsContent() && q.Key() == k && q.notification == n;
      if q in inbox {
        assert q in inbox + commands;
      } else {
        var c :| c in commands && Carries(q, c);
        assert c in inbox + commands && c.IsContent() && c.Key() == k && c.notification == n;
      }
    }
  }

  // ----- retries

  predicate Retries(inbox: Commands, key: NotifyKey) {
    !HasCommandOf(inbox, key)
  }

  function RetryDismiss(inbox: Commands, key: NotifyKey): Commands {
    if Retries(inbox, key) then inbox + [Dismiss(key)] else inbox
  }

  lemma RetryOk(inbox: Commands, key: NotifyKey)
    requires InboxOk(inbox)
    ensures InboxOk(RetryDismiss(inbox, key))
  {
    if Retries(inbox, key) {
      AppendOk(inbox, Dismiss(key));
      DismissesConcat(inbox, [Dismiss(key)]);
    }
  }

  lemma PopOk(inbox: Commands)
    requires InboxOk(inbox) && inbox != []
    ensures InboxOk(inbox[1..])
  {
    assert inbox == [inbox[0]] + inbox[1..];
    DismissesConcat([inbox[0]], inbox[1..]);
  }

  class Inbox {
    var commands: Commands

    constructor ()
      ensures commands == [] && InboxOk(commands)
    {
      commands := [];
    }

    method PushCommand(command: NotifyCommand)
      requires InboxOk(commands)
      modifies this
      ensures commands == Push(old(commands), command) && InboxOk(commands)
    {
      PushOk(commands, command);
      var key := command.Key();
      match command {
        case Show(_) =>
          commands := WithoutUpdates(commands, key);
          var slot := FirstShow(commands, key);
          if slot.Some? {
            commands := commands[slot.value := command];
            return;
          }
        case Update(notification) =>
          var slot := FirstContentOf(commands, key);
          if slot.Some? {
            var put := if commands[slot.value].Show? then Show(notification) else command;
            commands := commands[slot.value := put];
            return;
          }
        case Dismiss(_) =>
          commands := WithoutContent(commands, key);
          if Dismiss(key) in commands { return; }
      }
      commands := commands + [command];
      while |commands| > INBOX_LIMIT
        invariant Trim(commands, INBOX_LIMIT) == Push(old(commands), command)
        decreases |commands|
      {
        var index := FirstContent(commands);
        if index.None? { break; }
        commands := RemoveAt(commands, index.value);
      }
    }

    method RetryDismissOf(key: NotifyKey) returns (queued: bool)
      requires InboxOk(commands)
      modifies this
      ensures commands == RetryDismiss(old(commands), key) && InboxOk(commands)
      ensures queued == Retries(old(commands), key)
    {
      RetryOk(commands, key);
      if exists c :: c in commands && c.Key() == key { return false; }
      commands := commands + [Dismiss(key)];
      queued := true;
    }

    method Pop() returns (command: Option<NotifyCommand>)
      requires InboxOk(commands)
      modifies this
      ensures InboxOk(commands)
      ensures old(commands) == [] ==> command == None && commands == []
      ensures old(commands) != [] ==> command == Some(old(commands[0])) && commands == old(commands[1..])
    {
      if commands == [] { return None; }
      PopOk(commands);
      command := Some(commands[0]);
      commands := commands[1..];
    }
  }
}
