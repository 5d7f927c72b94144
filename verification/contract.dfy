/** The rules for the event stream of one adapter, and the checker that reports each
    break of them (crates/thinwire-protocol/src/contract.rs, adapter.rs). */
module Contracts {
  import opened Wrappers
  import opened Accounts

  datatype AccountState = Unlinked | Linking | Linked

  datatype AdapterStatus = Stubbed | Connecting | Ready | Refused | Failed

  /** The inbox events of which no rule reads more than the protocol. */
  datatype InboxKind =
    | TopicUpsert | ConversationRemoved | MessageReplaced | MessageBody | MessageEdited
    | MessageMedia | MessageLinks | PhotoReady | PhotoFailed | VoiceReady | VoiceFailed
    | VideoReady | VideoFailed | FileReady | FileFailed | ChatAvatar | MessageReactions
    | MessagesRemoved | MessageDelivery | OutboxRead | ChatListLoaded | OlderHistoryLoaded

  /** The events of which no rule reads a field. */
  datatype QuietKind =
    | StoreAccess | TelegramAuth | TelegramAuthRejected | TelegramDataReset | TelegramSessionEnded
    | AccountEnded | Login | TelegramCodeSent | FlushSecrets | FromAccount

  datatype AdapterEvent =
    | Status(protocol: ProtocolId, status: AdapterStatus, detail: string)
    | Stopped(protocol: ProtocolId)
    | Account(protocol: ProtocolId, state: AccountState)
    | CommandFailed(protocol: ProtocolId, failedChat: Option<string>, detail: string)
    | Notice(protocol: ProtocolId, text: string)
    | Helper(protocol: ProtocolId)
    | ConversationUpsert(protocol: ProtocolId, row: string, writable: bool, placeholder: bool)
    | MessageReceived(protocol: ProtocolId, conversationId: string, messageId: string)
    | HistoryLoaded(protocol: ProtocolId, conversationId: string)
    | SendAccepted(protocol: ProtocolId, conversationId: string, request: nat)
    | SendRejected(protocol: ProtocolId, conversationId: string, request: nat)
    | OtherInbox(protocol: ProtocolId, kind: InboxKind)
    | WhatsAppQr(generation: nat)
    | WhatsAppPairCode(generation: nat)
    | SignalQr(generation: nat)
    | Quiet(quiet: QuietKind)
  {
    function InboxProtocol(): Option<ProtocolId> {
      if ConversationUpsert? || MessageReceived? || HistoryLoaded? || SendAccepted? || SendRejected? || OtherInbox?
      then Some(protocol) else None
    }

    function EventProtocol(): Option<ProtocolId> {
      if Status? || Stopped? || Account? || CommandFailed? || Notice? || Helper? then Some(protocol)
      else InboxProtocol()
    }

    /** The request and the chat of a send answer. */
    function AnswerOf(): Option<(nat, string)> {
      match this
      case SendAccepted(_, chat, request) => Some((request, chat))
      case SendRejected(_, chat, request) => Some((request, chat))
      case _ => None
    }

    predicate Pairs() { WhatsAppQr? || WhatsAppPairCode? || SignalQr? }

    predicate Answers(request: nat) {
      (SendAccepted? || SendRejected?) && this.request == request
    }

    /** An event of the inbox: it needs the linked session. */
    predicate IsInbox() {
      ConversationUpsert? || MessageReceived? || HistoryLoaded? || SendAccepted? || SendRejected? || OtherInbox?
    }

    /** An event that names a protocol. */
    predicate NamesProtocol() { !WhatsAppQr? && !WhatsAppPairCode? && !SignalQr? && !Quiet? }
  }

  type Events = seq<AdapterEvent>

  /** What the stream is judged against: the adapter's own protocol, whether it sends
      text, the requests that were sent with their chats, and the pairings asked for. */
  datatype Terms = Terms(protocol: ProtocolId, sendsText: bool, requests: map<nat, string>, generations: set<nat>)

  datatype Violation =
    | NamesOther(at: nat, named: ProtocolId)
    | NoSession(at: nat)
    | PlaceholderWritable(at: nat, row: string)
    | WritableWithoutText(at: nat, row: string)
    | NotSent(at: nat, request: nat)
    | OtherChat(at: nat, request: nat, chat: string, sent: string)
    | SecondAnswer(at: nat, request: nat)
    | UnknownPairing(at: nat, generation: nat)

  // ----- the rules

  /** An account event says linked, and no later one before `at` says unlinked. */
  ghost predicate LinkedAt(events: Events, at: nat)
    requires at <= |events|
  {
    exists i :: 0 <= i < at && events[i].Account? && events[i].state == Linked && StaysLinked(events, i, at)
  }

  ghost predicate StaysLinked(events: Events, from: nat, at: nat)
    requires at <= |events|
  {
    forall j :: from < j < at ==> !(events[j].Account? && events[j].state == Unlinked)
  }

  /** Some event before `at` answers the request. */
  ghost predicate AnsweredBefore(events: Events, request: nat, at: nat)
    requires at <= |events|
  {
    exists i :: 0 <= i < at && events[i].Answers(request)
  }

  ghost predicate FollowsRules(terms: Terms, events: Events, at: nat)
    requires at < |events|
  {
    var event := events[at];
    && (event.NamesProtocol() ==> event.protocol == terms.protocol)
    && (event.IsInbox() ==> LinkedAt(events, at))
    && (event.ConversationUpsert? && event.writable ==> !event.placeholder && terms.sendsText)
    && (event.SendAccepted? || event.SendRejected? ==>
          && event.request in terms.requests && terms.requests[event.request] == event.conversationId
          && !AnsweredBefore(events, event.request, at))
    && (event.WhatsAppQr? || event.WhatsAppPairCode? || event.SignalQr? ==> event.generation in terms.generations)
  }

  ghost predicate Conforms(terms: Terms, events: Events) {
    forall at :: 0 <= at < |events| ==> FollowsRules(terms, events, at)
  }

  /** What each report means. A second answer is the one with exactly one before it. */
  ghost predicate Breaks(terms: Terms, events: Events, v: Violation) {
    && v.at < |events|
    && var event := events[v.at];
       match v
       case NamesOther(_, named) => event.NamesProtocol() && event.protocol == named && named != terms.protocol
       case NoSession(_) => event.IsInbox() && !LinkedAt(events, v.at)
       case PlaceholderWritable(_, row) =>
         event.ConversationUpsert? && event.placeholder && event.writable && event.row == row
       case WritableWithoutText(_, row) =>
         event.ConversationUpsert? && !terms.sendsText && event.writable && event.row == row
       case NotSent(_, request) => event.Answers(request) && request !in terms.requests
       case OtherChat(_, request, chat, sent) =>
         event.Answers(request) && event.conversationId == chat && request in terms.requests
         && terms.requests[request] == sent && sent != chat
       case SecondAnswer(_, request) => event.Answers(request) && AnswersBefore(events, request, v.at) == 1
       case UnknownPairing(_, generation) =>
         (event.WhatsAppQr? || event.WhatsAppPairCode? || event.SignalQr?) && event.generation == generation
         && generation !in terms.generations
  }

  function AnswersBefore(events: Events, request: nat, at: nat): nat
    requires at <= |events|
  {
    if at == 0 then 0
    else AnswersBefore(events, request, at - 1) + if events[at - 1].Answers(request) then 1 else 0
  }

  // ----- no report means no break

  lemma {:induction false} NoAnswersBefore(events: Events, request: nat, at: nat)
    requires at <= |events|
    ensures AnswersBefore(events, request, at) == 0 <==> !AnsweredBefore(events, request, at)
  {
    if at > 0 { NoAnswersBefore(events, request, at - 1); }
  }

  /** Where a request has been answered before, a second answer is reported at or before. */
  lemma {:induction false} SecondAnswerReported(terms: Terms, events: Events, request: nat, at: nat)
    returns (v: Violation)
    requires at < |events| && events[at].Answers(request) && AnsweredBefore(events, request, at)
    ensures v.SecondAnswer? && Breaks(terms, events, v)
  {
    NoAnswersBefore(events, request, at);
    if AnswersBefore(events, request, at) == 1 {
      v := SecondAnswer(at, request);
    } else {
      var last := LatestAnswer(events, request, at);
      NoAnswersBefore(events, request, last);
      v := SecondAnswerReported(terms, events, request, last);
    }
  }

  lemma {:induction false} LatestAnswer(events: Events, request: nat, at: nat) returns (last: nat)
    requires at <= |events| && AnswersBefore(events, request, at) > 0
    ensures last < at && events[last].Answers(request)
    ensures AnswersBefore(events, request, at) == AnswersBefore(events, request, last) + 1
  {
    if events[at - 1].Answers(request) {
      last := at - 1;
    } else {
      last := LatestAnswer(events, request, at - 1);
    }
  }

  /** The stream follows every rule exactly when nothing breaks one. */
  lemma NothingBreaksExactly(terms: Terms, events: Events)
    ensures Conforms(terms, events) <==> forall v :: !Breaks(terms, events, v)
  {
    if Conforms(terms, events) {
      forall v ensures !Breaks(terms, events, v) {
        if v.at < |events| { RulesExcludeBreak(terms, events, v); }
      }
    } else {
      var at :| 0 <= at < |events| && !FollowsRules(terms, events, at);
      var v := BreakAt(terms, events, at);
    }
  }

  lemma RulesExcludeBreak(terms: Terms, events: Events, v: Violation)
    requires v.at < |events| && FollowsRules(terms, events, v.at)
    ensures !Breaks(terms, events, v)
  {
    if v.SecondAnswer? { NoAnswersBefore(events, v.request, v.at); }
  }

  lemma BreakAt(terms: Terms, events: Events, at: nat) returns (v: Violation)
    requires at < |events| && !FollowsRules(terms, events, at)
    ensures Breaks(terms, events, v)
  {
    var event := events[at];
    if event.EventProtocol().Some? && event.EventProtocol().value != terms.protocol {
      v := NamesOther(at, event.EventProtocol().value);
    } else if event.InboxProtocol().Some? && !LinkedAt(events, at) {
      v := NoSession(at);
    } else if event.ConversationUpsert? && event.writable {
      v := if event.placeholder then PlaceholderWritable(at, event.row) else WritableWithoutText(at, event.row);
    } else if event.Pairs() {
      v := UnknownPairing(at, event.generation);
    } else {
      var (request, chat) := event.AnswerOf().value;
      if request !in terms.requests {
        v := NotSent(at, request);
      } else if terms.requests[request] != chat {
        v := OtherChat(at, request, chat, terms.requests[request]);
      } else {
        v := SecondAnswerReported(terms, events, request, at);
      }
    }
  }

  // ----- the checker

  function NamesOtherAt(terms: Terms, event: AdapterEvent, at: nat): seq<Violation> {
    match event.EventProtocol()
    case Some(named) => if named != terms.protocol then [NamesOther(at, named)] else []
    case None => []
  }

  function RowsAt(terms: Terms, event: AdapterEvent, at: nat): seq<Violation> {
    if !event.ConversationUpsert? then []
    else
      (if event.placeholder && event.writable then [PlaceholderWritable(at, event.row)] else [])
      + (if !terms.sendsText && event.writable then [WritableWithoutText(at, event.row)] else [])
  }

  function AnswersAt(terms: Terms, event: AdapterEvent, at: nat, before: nat): seq<Violation> {
    match event.AnswerOf()
    case None => []
    case Some((request, chat)) =>
      (if request !in terms.requests then [NotSent(at, request)]
       else if terms.requests[request] != chat then [OtherChat(at, request, chat, terms.requests[request])]
       else [])
      + (if before + 1 == 2 then [SecondAnswer(at, request)] else [])
  }

  function PairingsAt(terms: Terms, event: AdapterEvent, at: nat): seq<Violation> {
    if event.Pairs() && event.generation !in terms.generations then [UnknownPairing(at, event.generation)] else []
  }

  /** The reports of one event, given the session after it and the answers before it. */
  function ReportsAt(terms: Terms, event: AdapterEvent, at: nat, session: bool, before: nat): seq<Violation> {
    NamesOtherAt(terms, event, at) + SessionAt(event, at, session)
    + RowsAt(terms, event, at) + AnswersAt(terms, event, at, before) + PairingsAt(terms, event, at)
  }

  function SessionAt(event: AdapterEvent, at: nat, session: bool): seq<Violation> {
    if event.InboxProtocol().Some? && !session then [NoSession(at)] else []
  }

  lemma NamesExactly(terms: Terms, events: Events, at: nat, session: bool, v: Violation)
    requires at < |events| && (events[at].InboxProtocol().Some? ==> session == LinkedAt(events, at))
    ensures v in NamesOtherAt(terms, events[at], at) + SessionAt(events[at], at, session)
            <==> v.at == at && (v.NamesOther? || v.NoSession?) && Breaks(terms, events, v)
  {
  }

  lemma RowsExactly(terms: Terms, events: Events, at: nat, v: Violation)
    requires at < |events|
    ensures v in RowsAt(terms, events[at], at)
            <==> v.at == at && (v.PlaceholderWritable? || v.WritableWithoutText?) && Breaks(terms, events, v)
  {
  }

  lemma AnswersExactly(terms: Terms, events: Events, at: nat, before: nat, v: Violation)
    requires at < |events|
    requires events[at].AnswerOf().Some? ==> before == AnswersBefore(events, events[at].AnswerOf().value.0, at)
    ensures v in AnswersAt(terms, events[at], at, before)
            <==> v.at == at && (v.NotSent? || v.OtherChat? || v.SecondAnswer?) && Breaks(terms, events, v)
  {
  }

  lemma PairingsExactly(terms: Terms, events: Events, at: nat, v: Violation)
    requires at < |events|
    ensures v in PairingsAt(terms, events[at], at) <==> v.at == at && v.UnknownPairing? && Breaks(terms, events, v)
  {
  }

  /** They are the breaks at its place. */
  lemma ReportsAtExactly(terms: Terms, events: Events, at: nat, session: bool, before: nat, v: Violation)
    requires at < |events| && (events[at].InboxProtocol().Some? ==> session == LinkedAt(events, at))
    requires events[at].AnswerOf().Some? ==> before == AnswersBefore(events, events[at].AnswerOf().value.0, at)
    ensures v in ReportsAt(terms, events[at], at, session, before) <==> v.at == at && Breaks(terms, events, v)
  {
    NamesExactly(terms, events, at, session, v);
    RowsExactly(terms, events, at, v);
    AnswersExactly(terms, events, at, before, v);
    PairingsExactly(terms, events, at, v);
    InParts(NamesOtherAt(terms, events[at], at) + SessionAt(events[at], at, session), RowsAt(terms, events[at], at),
            AnswersAt(terms, events[at], at, before), PairingsAt(terms, events[at], at), v);
  }

  lemma InParts<T>(a: seq<T>, b: seq<T>, c: seq<T>, d: seq<T>, x: T)
    ensures x in a + b + c + d <==> x in a || x in b || x in c || x in d
  {
  }

  lemma UpToGrows(terms: Terms, events: Events, found: seq<Violation>, now: seq<Violation>, at: nat)
    requires ReportsUpTo(terms, events, found, at) && ReportsOf(terms, events, now, at)
    ensures ReportsUpTo(terms, events, found + now, at + 1)
  {
    assert forall i :: 0 <= i < |now| ==> now[i] in now;
    assert forall i :: 0 <= i < |found| ==> found[i] in found;
    forall v ensures v in found + now <==> v.at < at + 1 && Breaks(terms, events, v) {
      assert v in found + now <==> v in found || v in now;
    }
  }

  /** The breaks at `at`. */
  ghost predicate ReportsOf(terms: Terms, events: Events, now: seq<Violation>, at: nat) {
    forall v :: v in now <==> v.at == at && Breaks(terms, events, v)
  }

  /** The breaks before `at`, in the order of the events. */
  ghost predicate ReportsUpTo(terms: Terms, events: Events, found: seq<Violation>, at: nat) {
    && (forall v :: v in found <==> v.at < at && Breaks(terms, events, v))
    && (forall i, j :: 0 <= i < j < |found| ==> found[i].at <= found[j].at)
  }

  /** The account event at `at` settles the session; any other leaves it. */
  lemma LinkedNext(events: Events, at: nat)
    requires at < |events|
    ensures LinkedAt(events, at + 1) ==
            (if events[at].Account? && events[at].state == Linked then true
             else if events[at].Account? && events[at].state == Unlinked then false
             else LinkedAt(events, at))
  {
    if events[at].Account? && events[at].state == Linked {
      assert StaysLinked(events, at, at + 1);
    } else if !(events[at].Account? && events[at].state == Unlinked) {
      assert forall i :: 0 <= i < at ==> (StaysLinked(events, i, at) <==> StaysLinked(events, i, at + 1));
    }
  }

  // ----- what the loop of the checker has after `at` events

  function SessionNext(session: bool, event: AdapterEvent): bool {
    if event.Account? && event.state == Linked then true
    else if event.Account? && event.state == Unlinked then false
    else session
  }

  function SessionSoFar(events: Events, at: nat): bool
    requires at <= |events|
  {
    if at == 0 then false else SessionNext(SessionSoFar(events, at - 1), events[at - 1])
  }

  function Count(answers: map<nat, nat>, request: nat): nat {
    if request in answers then answers[request] else 0
  }

  function CountsNext(answers: map<nat, nat>, event: AdapterEvent): map<nat, nat> {
    match event.AnswerOf()
    case None => answers
    case Some((request, _)) => answers[request := Count(answers, request) + 1]
  }

  function CountsSoFar(events: Events, at: nat): map<nat, nat>
    requires at <= |events|
  {
    if at == 0 then map[] else CountsNext(CountsSoFar(events, at - 1), events[at - 1])
  }

  function CountBefore(answers: map<nat, nat>, event: AdapterEvent): nat {
    match event.AnswerOf()
    case None => 0
    case Some((request, _)) => Count(answers, request)
  }

  lemma {:induction false} SessionIsLinked(events: Events, at: nat)
    requires at <= |events|
    ensures SessionSoFar(events, at) == LinkedAt(events, at)
  {
    if at > 0 {
      SessionIsLinked(events, at - 1);
      LinkedNext(events, at - 1);
    }
  }

  lemma {:induction false} CountsAreAnswers(events: Events, at: nat, request: nat)
    requires at <= |events|
    ensures Count(CountsSoFar(events, at), request) == AnswersBefore(events, request, at)
  {
    if at > 0 { CountsAreAnswers(events, at - 1, request); }
  }

  /** The checks of one event. */
  method CheckEvent(terms: Terms, events: Events, at: nat, session: bool, before: nat) returns (now: seq<Violation>)
    requires at < |events| && session == SessionSoFar(events, at + 1)
    requires before == CountBefore(CountsSoFar(events, at), events[at])
    ensures ReportsOf(terms, events, now, at)
  {
    now := ReportsAt(terms, events[at], at, session, before);
    SessionIsLinked(events, at + 1);
    LinkedNext(events, at);
    if events[at].AnswerOf().Some? { CountsAreAnswers(events, at, events[at].AnswerOf().value.0); }
    forall v ensures v in now <==> v.at == at && Breaks(terms, events, v) {
      ReportsAtExactly(terms, events, at, session, before, v);
    }
  }

  /** Every break of the rules, in the order of the events. */
  method Violations(terms: Terms, events: Events) returns (found: seq<Violation>)
    ensures forall v :: v in found <==> Breaks(terms, events, v)
    ensures forall i, j :: 0 <= i < j < |found| ==> found[i].at <= found[j].at
    ensures found == [] <==> Conforms(terms, events)
  {
    found := [];
    var session := false;
    var answers: map<nat, nat> := map[];
    for index := 0 to |events|
      invariant session == SessionSoFar(events, index)
      invariant answers == CountsSoFar(events, index)
      invariant ReportsUpTo(terms, events, found, index)
    {
      var event := events[index];
      if event.Account? && event.state == Linked {
        session := true;
      } else if event.Account? && event.state == Unlinked {
        session := false;
      }
      var before := 0;
      if event.AnswerOf().Some? {
        var request := event.AnswerOf().value.0;
        before := Count(answers, request);
        answers := answers[request := before + 1];
      }
      var now := CheckEvent(terms, events, index, session, before);
      UpToGrows(terms, events, found, now, index);
      found := found + now;
    }
    NothingBreaksExactly(terms, events);
    NoneReported(terms, events, found);
  }

  lemma NoneReported(terms: Terms, events: Events, found: seq<Violation>)
    requires ReportsUpTo(terms, events, found, |events|)
    ensures forall v :: v in found <==> Breaks(terms, events, v)
    ensures found == [] <==> forall v :: !Breaks(terms, events, v)
  {
    assert forall v :: Breaks(terms, events, v) ==> v in found;
    if found != [] { assert found[0] in found; }
  }
}
