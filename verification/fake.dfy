/** The fake adapter and the host that hands it commands, judged against the contract
    (crates/thinwire-protocol/src/fake.rs, host.rs). */
module Fakes {
  import opened Wrappers
  import opened Accounts
  import opened Contracts

  const OWN := ProtocolId(ProtocolKind.Telegram, 0)
  const FAKE_CHAT := "fake:chat"

  /** The commands that the fake or the host tells apart; the others are `Refusal`. */
  datatype AdapterCommand =
    | Connect(protocol: ProtocolId)
    | Disconnect(protocol: ProtocolId)
    | OpenChat(protocol: ProtocolId, conversationId: string)
    | SendText(protocol: ProtocolId, conversationId: string, body: string, request: nat)
    | ResendMessage(protocol: ProtocolId, conversationId: string, messageId: string, request: nat)
    | Shutdown(protocol: ProtocolId)
    | ViewChat(protocol: ProtocolId, viewed: Option<string>)
    | ViewTopic(protocol: ProtocolId, conversationId: string)
    | TelegramLogin(epoch: nat)
    | Refusal

  const STARTED: Events := [Status(OWN, Ready, "fake adapter ready"), Account(OWN, Linked)]
  const REFUSED := Status(OWN, Failed, "fake adapter does not handle this command")

  /** What one command, handed over by the host, adds to the stream. */
  function Emits(command: AdapterCommand): Events {
    match command
    case Shutdown(_) => [Stopped(OWN)]
    case ViewChat(_, _) => []
    case ViewTopic(_, _) => []
    case TelegramLogin(_) => [Quiet(Login)]
    case Refusal => [REFUSED]
    case _ =>
      if command.protocol != OWN then [REFUSED]
      else
        match command
        case Connect(_) =>
          [ConversationUpsert(OWN, FAKE_CHAT, true, false), MessageReceived(OWN, FAKE_CHAT, "fake:chat:1")]
        case Disconnect(_) => [Status(OWN, Stubbed, "fake adapter disconnected"), Account(OWN, Unlinked)]
        case OpenChat(_, chat) =>
          [if chat == FAKE_CHAT then HistoryLoaded(OWN, chat)
           else CommandFailed(OWN, Some(chat), "The fake adapter has no such chat.")]
        case SendText(_, chat, _, request) => [SendAccepted(OWN, chat, request)]
        case ResendMessage(_, chat, _, request) => [SendRejected(OWN, chat, request)]
  }

  /** The whole stream of a run: the start, then the commands in order. */
  function Trace(commands: seq<AdapterCommand>): Events {
    if commands == [] then STARTED else Trace(commands[..|commands| - 1]) + Emits(commands[|commands| - 1])
  }

  // ----- the adapter and the host

  class EventChannel {
    var sent: Events

    constructor ()
      ensures sent == []
    {
      sent := [];
    }

    method Send(event: AdapterEvent)
      modifies this
      ensures sent == old(sent) + [event]
    {
      sent := sent + [event];
    }
  }

  class FakeAdapter {
    var started: bool

    constructor ()
      ensures !started
    {
      started := false;
    }

    method Start(events: EventChannel)
      modifies this, events
      ensures started && events.sent == old(events.sent) + STARTED
    {
      started := true;
      events.Send(Status(OWN, Ready, "fake adapter ready"));
      events.Send(Account(OWN, Linked));
    }

    /** False: the adapter does not handle the command, and sends nothing. */
    method Handle(command: AdapterCommand, events: EventChannel) returns (ok: bool)
      modifies events
      ensures ok ==> events.sent == old(events.sent) + Emits(command)
      ensures !ok ==> events.sent == old(events.sent)
      ensures ok <==> (command.Connect? || command.Disconnect? || command.OpenChat? || command.SendText?
                       || command.ResendMessage?) && command.protocol == OWN
    {
      if command.TelegramLogin? || command.Refusal? || command.protocol != OWN { return false; }
      ok := true;
      match command {
        case Connect(_) =>
          events.Send(ConversationUpsert(OWN, FAKE_CHAT, true, false));
          events.Send(MessageReceived(OWN, FAKE_CHAT, "fake:chat:1"));
        case Disconnect(_) =>
          events.Send(Status(OWN, Stubbed, "fake adapter disconnected"));
          events.Send(Account(OWN, Unlinked));
        case OpenChat(_, chat) =>
          if chat == FAKE_CHAT {
            events.Send(HistoryLoaded(OWN, chat));
          } else {
            events.Send(CommandFailed(OWN, Some(chat), "The fake adapter has no such chat."));
          }
        case SendText(_, chat, _, request) => events.Send(SendAccepted(OWN, chat, request));
        case ResendMessage(_, chat, _, request) => events.Send(SendRejected(OWN, chat, request));
        case _ => ok := false;
      }
    }

    /** The host: the shutdown and the viewed chat go to the adapter's own methods, and a
        refused command becomes a status, under its epoch for a login step. */
    method Dispatch(command: AdapterCommand, events: EventChannel)
      modifies events
      ensures events.sent == old(events.sent) + Emits(command)
    {
      match command {
        case Shutdown(_) => events.Send(Stopped(OWN));
        case ViewChat(_, _) =>
        case ViewTopic(_, _) =>
        case _ =>
          var ok := Handle(command, events);
          if !ok {
            events.Send(if command.TelegramLogin? then Quiet(Login) else REFUSED);
          }
      }
    }
  }

  method RunFake(commands: seq<AdapterCommand>) returns (events: Events)
    ensures events == Trace(commands)
  {
    var channel := new EventChannel();
    var adapter := new FakeAdapter();
    adapter.Start(channel);
    for i := 0 to |commands|
      invariant channel.sent == Trace(commands[..i])
    {
      assert commands[..i + 1][..i] == commands[..i];
      adapter.Dispatch(commands[i], channel);
    }
    assert commands[..|commands|] == commands;
    events := channel.sent;
  }

  // ----- what a run has in its stream

  /** The fake or the host refuses the command. */
  predicate IsRefused(c: AdapterCommand) {
    c.Refusal?
    || ((c.Connect? || c.Disconnect? || c.OpenChat? || c.SendText? || c.ResendMessage?) && c.protocol != OWN)
  }

  /** The command asks for this event. */
  predicate Asks(c: AdapterCommand, event: AdapterEvent) {
    match event
    case SendAccepted(p, chat, request) =>
      c.SendText? && c.protocol == p == OWN && c.conversationId == chat && c.request == request
    case SendRejected(p, chat, request) =>
      c.ResendMessage? && c.protocol == p == OWN && c.conversationId == chat && c.request == request
    case HistoryLoaded(p, chat) => c == OpenChat(OWN, chat) && p == OWN && chat == FAKE_CHAT
    case CommandFailed(p, chat, detail) =>
      && c.OpenChat? && c.protocol == p == OWN && chat == Some(c.conversationId) && c.conversationId != FAKE_CHAT
      && detail == "The fake adapter has no such chat."
    case ConversationUpsert(p, row, writable, placeholder) =>
      c == Connect(OWN) && p == OWN && row == FAKE_CHAT && writable && !placeholder
    case MessageReceived(p, chat, id) => c == Connect(OWN) && p == OWN && chat == FAKE_CHAT && id == "fake:chat:1"
    case Account(p, state) => c == Disconnect(OWN) && p == OWN && state == Unlinked
    case Status(_, _, _) =>
      (c == Disconnect(OWN) && event == Status(OWN, Stubbed, "fake adapter disconnected"))
      || (IsRefused(c) && event == REFUSED)
    case Stopped(p) => c.Shutdown? && p == OWN
    case Quiet(quiet) => c.TelegramLogin? && quiet == Login
    case _ => false
  }

  lemma EmitsExactly(c: AdapterCommand, event: AdapterEvent)
    ensures event in Emits(c) <==> Asks(c, event)
  {
  }

  /** Every run: an event is in the stream exactly when it is one of the two of the start or a
      command of the run asks for it. A send is accepted, and a resend rejected, under the
      chat and the request of the command. */
  lemma {:induction false} TraceHasExactly(commands: seq<AdapterCommand>, event: AdapterEvent)
    ensures event in Trace(commands) <==> event in STARTED || exists c :: c in commands && Asks(c, event)
  {
    if commands != [] {
      var before, last := commands[..|commands| - 1], commands[|commands| - 1];
      assert commands == before + [last];
      TraceHasExactly(before, event);
      EmitsExactly(last, event);
    }
  }

  /** The row of the chat comes right before its message. */
  lemma {:induction false} RowBeforeMessage(commands: seq<AdapterCommand>, at: nat)
    requires at < |Trace(commands)| && Trace(commands)[at].MessageReceived?
    ensures at > 0 && Trace(commands)[at - 1] == ConversationUpsert(OWN, FAKE_CHAT, true, false)
  {
    if commands != [] {
      var before, last := commands[..|commands| - 1], commands[|commands| - 1];
      if at < |Trace(before)| {
        RowBeforeMessage(before, at);
      } else {
        assert Trace(commands)[at] == Emits(last)[at - |Trace(before)|];
        EmitsExactly(last, Trace(commands)[at]);
      }
    }
  }

  // ----- which runs conform

  predicate IsAnswered(command: AdapterCommand) {
    (command.SendText? || command.ResendMessage?) && command.protocol == OWN
  }

  /** The command makes an inbox event, which needs the linked session. */
  predicate NeedsSession(command: AdapterCommand) {
    IsAnswered(command) || command == Connect(OWN) || command == OpenChat(OWN, FAKE_CHAT)
  }

  /** What the callers owe: each request is sent once, for the chat on record, and nothing
      that needs the session comes after a disconnect. */
  ghost predicate FairTo(requests: map<nat, string>, commands: seq<AdapterCommand>, i: nat)
    requires i < |commands|
  {
    && (IsAnswered(commands[i]) ==>
          && commands[i].request in requests && requests[commands[i].request] == commands[i].conversationId
          && forall j :: 0 <= j < i && IsAnswered(commands[j]) ==> commands[j].request != commands[i].request)
    && (NeedsSession(commands[i]) ==> Disconnect(OWN) !in commands[..i])
  }

  ghost predicate Fair(requests: map<nat, string>, commands: seq<AdapterCommand>) {
    forall i :: 0 <= i < |commands| ==> FairTo(requests, commands, i)
  }

  /** A longer stream conforms when the shorter one does and the new events do. */
  lemma ConformsConcat(terms: Terms, a: Events, b: Events)
    ensures Conforms(terms, a + b) <==>
            Conforms(terms, a) && NewFollow(terms, a, b)
  {
    forall at | 0 <= at < |a| ensures FollowsRules(terms, a + b, at) <==> FollowsRules(terms, a, at) {
      SamePrefix(terms, a, b, at);
    }
  }

  lemma SamePrefix(terms: Terms, a: Events, b: Events, at: nat)
    requires at < |a|
    ensures FollowsRules(terms, a + b, at) <==> FollowsRules(terms, a, at)
  {
    LinkedPrefix(a, b, at);
    AnsweredPrefix(a, b, at);
  }

  lemma LinkedPrefix(a: Events, b: Events, at: nat)
    requires at <= |a|
    ensures LinkedAt(a + b, at) == LinkedAt(a, at)
  {
    assert forall i :: 0 <= i < at ==> (a + b)[i] == a[i];
    assert forall i :: 0 <= i < at ==> (StaysLinked(a + b, i, at) <==> StaysLinked(a, i, at));
  }

  lemma AnsweredPrefix(a: Events, b: Events, at: nat)
    requires at <= |a|
    ensures forall request :: AnsweredBefore(a + b, request, at) == AnsweredBefore(a, request, at)
  {
    assert forall i :: 0 <= i < at ==> (a + b)[i] == a[i];
  }

  /** The session lasts until the first disconnect. */
  lemma {:induction false} TraceLinked(commands: seq<AdapterCommand>)
    ensures LinkedAt(Trace(commands), |Trace(commands)|) <==> Disconnect(OWN) !in commands
  {
    if commands == [] {
      assert StaysLinked(STARTED, 1, 2);
    } else {
      var before, last := commands[..|commands| - 1], commands[|commands| - 1];
      TraceLinked(before);
      assert commands == before + [last];
      LinkedAfter(Trace(before), Emits(last));
      assert last == Disconnect(OWN) ==> Emits(last)[1] == Account(OWN, Unlinked);
    }
  }

  /** Events with no account event but a last unlink. */
  lemma LinkedAfter(a: Events, b: Events)
    requires |b| <= 2 && forall i :: 0 <= i < |b| ==> b[i].Account? ==> i == |b| - 1 && b[i].state == Unlinked
    ensures LinkedAt(a + b, |a + b|) <==> LinkedAt(a, |a|) && forall i :: 0 <= i < |b| ==> !b[i].Account?
  {
    LinkedPrefix(a, b, |a|);
    if b != [] { LinkedNext(a + b, |a|); }
    if |b| == 2 { LinkedNext(a + b, |a| + 1); }
  }

  ghost predicate AskedIn(commands: seq<AdapterCommand>, request: nat) {
    exists i :: 0 <= i < |commands| && IsAnswered(commands[i]) && commands[i].request == request
  }

  lemma AnsweredConcat(a: Events, b: Events, request: nat)
    ensures AnsweredBefore(a + b, request, |a + b|) <==>
            AnsweredBefore(a, request, |a|) || AnsweredBefore(b, request, |b|)
  {
    assert forall i :: 0 <= i < |a| ==> (a + b)[i] == a[i];
    assert forall i :: 0 <= i < |b| ==> b[i] == (a + b)[i + |a|];
  }

  lemma EmitsAnswers(command: AdapterCommand, request: nat)
    ensures AnsweredBefore(Emits(command), request, |Emits(command)|)
            <==> IsAnswered(command) && command.request == request
  {
    if IsAnswered(command) { assert Emits(command)[0].Answers(command.request); }
  }

  lemma AskedSnoc(before: seq<AdapterCommand>, last: AdapterCommand, request: nat)
    ensures AskedIn(before + [last], request)
            <==> AskedIn(before, request) || (IsAnswered(last) && last.request == request)
  {
    var all := before + [last];
    assert all[|before|] == last;
    assert forall i :: 0 <= i < |before| ==> before[i] == all[i];
  }

  lemma {:induction false} TraceAnswered(commands: seq<AdapterCommand>, request: nat)
    ensures AnsweredBefore(Trace(commands), request, |Trace(commands)|) <==> AskedIn(commands, request)
  {
    if commands != [] {
      var before, last := commands[..|commands| - 1], commands[|commands| - 1];
      assert commands == before + [last];
      TraceAnswered(before, request);
      AnsweredConcat(Trace(before), Emits(last), request);
      EmitsAnswers(last, request);
      AskedSnoc(before, last, request);
    }
  }

  /** What one event of a command needs of the stream before the command. */
  ghost predicate MayEmit(terms: Terms, a: Events, command: AdapterCommand) {
    && (NeedsSession(command) ==> LinkedAt(a, |a|))
    && (IsAnswered(command) ==>
          && command.request in terms.requests && terms.requests[command.request] == command.conversationId
          && !AnsweredBefore(a, command.request, |a|))
  }

  /** The rules for one event, given the session and whether its request is answered. */
  ghost predicate EventOk(terms: Terms, event: AdapterEvent, linked: bool, answered: bool) {
    && (event.EventProtocol().Some? ==> event.EventProtocol().value == terms.protocol)
    && (event.InboxProtocol().Some? ==> linked)
    && (event.ConversationUpsert? && event.writable ==> !event.placeholder && terms.sendsText)
    && (event.AnswerOf().Some? ==>
          && event.AnswerOf().value.0 in terms.requests
          && terms.requests[event.AnswerOf().value.0] == event.AnswerOf().value.1 && !answered)
    && (event.Pairs() ==> event.generation in terms.generations)
  }

  lemma EmitNames(command: AdapterCommand, i: nat)
    requires i < |Emits(command)|
    ensures Emits(command)[i].EventProtocol().Some? ==> Emits(command)[i].EventProtocol() == Some(OWN)
    ensures Emits(command)[i].ConversationUpsert? ==> !Emits(command)[i].placeholder
    ensures !Emits(command)[i].Pairs()
  {
    if i > 0 { assert i == 1 && (command == Connect(OWN) || command == Disconnect(OWN)); }
  }

  lemma EmitShape(command: AdapterCommand, i: nat)
    requires i < |Emits(command)|
    ensures Emits(command)[i].InboxProtocol().Some? <==> NeedsSession(command)
    ensures Emits(command)[i].AnswerOf() ==
            if IsAnswered(command) then Some((command.request, command.conversationId)) else None
  {
    if i > 0 { assert i == 1 && (command == Connect(OWN) || command == Disconnect(OWN)); }
  }

  lemma EmitOk(terms: Terms, command: AdapterCommand, i: nat, linked: bool, answered: bool)
    requires terms.protocol == OWN && terms.sendsText && i < |Emits(command)|
    ensures EventOk(terms, Emits(command)[i], linked, answered) <==>
            && (NeedsSession(command) ==> linked)
            && (IsAnswered(command) ==>
                  command.request in terms.requests && terms.requests[command.request] == command.conversationId
                  && !answered)
  {
    EmitShape(command, i);
    EmitNames(command, i);
  }

  lemma EventFollows(terms: Terms, a: Events, command: AdapterCommand, i: nat)
    requires terms.protocol == OWN && terms.sendsText && i < |Emits(command)|
    ensures FollowsRules(terms, a + Emits(command), |a| + i) <==> MayEmit(terms, a, command)
  {
    var b := Emits(command);
    var answered := IsAnswered(command) && AnsweredBefore(a, command.request, |a|);
    assert (a + b)[|a| + i] == b[i];
    EmitOk(terms, command, i, LinkedAt(a, |a|), answered);
    LinkedPrefix(a, b, |a|);
    AnsweredPrefix(a, b, |a|);
    if i > 0 {
      assert i == 1 && (a + b)[|a|] == b[0];
      LinkedNext(a + b, |a|);
    }
    assert b[i].AnswerOf().Some? ==> i == 0 && IsAnswered(command) && b[i].AnswerOf().value.0 == command.request;
    assert FollowsRules(terms, a + b, |a| + i) <==> EventOk(terms, b[i], LinkedAt(a, |a|), answered);
  }

  /** The events after `a` follow the rules. */
  ghost predicate NewFollow(terms: Terms, a: Events, b: Events) {
    forall at :: |a| <= at < |a + b| ==> FollowsRules(terms, a + b, at)
  }

  lemma NewFollowYes(terms: Terms, a: Events, command: AdapterCommand)
    requires terms.protocol == OWN && terms.sendsText && MayEmit(terms, a, command)
    ensures NewFollow(terms, a, Emits(command))
  {
    forall at | |a| <= at < |a + Emits(command)| ensures FollowsRules(terms, a + Emits(command), at) {
      EventFollows(terms, a, command, at - |a|);
    }
  }

  lemma NewFollowNo(terms: Terms, a: Events, command: AdapterCommand)
    requires terms.protocol == OWN && terms.sendsText && !MayEmit(terms, a, command)
    ensures !NewFollow(terms, a, Emits(command))
  {
    assert Emits(command) != [];
    EventFollows(terms, a, command, 0);
    assert !FollowsRules(terms, a + Emits(command), |a|);
  }

  /** The events of one more command follow the rules exactly when it is fair. */
  lemma LastFollows(terms: Terms, before: seq<AdapterCommand>, last: AdapterCommand)
    requires terms.protocol == OWN && terms.sendsText
    ensures NewFollow(terms, Trace(before), Emits(last)) <==> FairTo(terms.requests, before + [last], |before|)
  {
    FairExactly(terms, before, last);
    if MayEmit(terms, Trace(before), last) {
      NewFollowYes(terms, Trace(before), last);
    } else {
      NewFollowNo(terms, Trace(before), last);
    }
  }

  lemma FairExactly(terms: Terms, before: seq<AdapterCommand>, last: AdapterCommand)
    ensures MayEmit(terms, Trace(before), last) <==> FairTo(terms.requests, before + [last], |before|)
  {
    var all := before + [last];
    assert all[..|before|] == before && all[|before|] == last;
    TraceLinked(before);
    if IsAnswered(last) {
      TraceAnswered(before, last.request);
      assert forall j :: 0 <= j < |before| ==> all[j] == before[j];
    }
  }

  lemma FairSnoc(requests: map<nat, string>, before: seq<AdapterCommand>, last: AdapterCommand)
    ensures Fair(requests, before + [last]) <==> Fair(requests, before) && FairTo(requests, before + [last], |before|)
  {
    var all := before + [last];
    forall i | 0 <= i < |before| ensures FairTo(requests, all, i) <==> FairTo(requests, before, i) {
      assert before[..i] == all[..i] && before[i] == all[i];
      assert forall j :: 0 <= j < i ==> before[j] == all[j];
    }
  }

  /** A run of the fake adapter conforms exactly when its callers are fair to it. */
  lemma {:induction false} FakeConformsExactly(terms: Terms, commands: seq<AdapterCommand>)
    requires terms.protocol == OWN && terms.sendsText
    ensures Conforms(terms, Trace(commands)) <==> Fair(terms.requests, commands)
  {
    if commands != [] {
      var before, last := commands[..|commands| - 1], commands[|commands| - 1];
      assert commands == before + [last];
      FakeConformsExactly(terms, before);
      ConformsConcat(terms, Trace(before), Emits(last));
      LastFollows(terms, before, last);
      FairSnoc(terms.requests, before, last);
    }
  }

  /** So the checker reports nothing about a run exactly when its callers are fair. */
  method CheckFake(commands: seq<AdapterCommand>, requests: map<nat, string>, generations: set<nat>)
    returns (found: seq<Violation>)
    ensures found == [] <==> Fair(requests, commands)
  {
    var events := RunFake(commands);
    found := Violations(Terms(OWN, true, requests, generations), events);
    FakeConformsExactly(Terms(OWN, true, requests, generations), commands);
  }
}
