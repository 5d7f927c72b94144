/** The sends and retries in flight, and the expired ones that still wait for a late
    answer (crates/thinwire-core/src/sends.rs). Times are in milliseconds. */
module Sends {
  import opened Wrappers
  import opened Accounts
  import opened Commands

  const SEND_TIMEOUT := 30_000
  const EXPIRED_KEEP := 300_000

  datatype ChatKey = ChatKey(protocol: ProtocolId, chat: string)

  datatype LateKey = LateKey(chat: ChatKey, request: nat)

  datatype Pending =
    | Send(request: nat, body: string, topic: Option<MessageTopic>, files: seq<string>)
    | Retry(request: nat, messageId: string)

  /** What a send starts with, before it has its request id. */
  datatype Payload =
    | Text(body: string, topic: Option<MessageTopic>, files: seq<string>)
    | Again(messageId: string)
  {
    function At(request: nat): Pending {
      match this
      case Text(body, topic, files) => Send(request, body, topic, files)
      case Again(messageId) => Retry(request, messageId)
    }
  }

  datatype Open = Open(pending: Pending, since: nat)

  datatype Expired = Expired(pending: Pending, at: nat)

  datatype Ledger = Ledger(next: nat, open: map<ChatKey, Open>, expired: map<LateKey, Expired>)

  const FIRST := Ledger(1, map[], map[])

  /** The time from `then` to `now`, or none when the clock went back. */
  function Elapsed(now: nat, then_: nat): nat {
    if now >= then_ then now - then_ else 0
  }

  function Begin(l: Ledger, chat: ChatKey, payload: Payload, now: nat): (Ledger, Option<nat>) {
    if chat in l.open then (l, None)
    else (l.(next := l.next + 1, open := l.open[chat := Open(payload.At(l.next), now)]), Some(l.next))
  }

  predicate IsOpen(l: Ledger, chat: ChatKey, request: nat) {
    chat in l.open && l.open[chat].pending.request == request
  }

  function Settle(l: Ledger, chat: ChatKey, request: nat): (Ledger, Option<Pending>) {
    if IsOpen(l, chat, request) then (l.(open := l.open - {chat}), Some(l.open[chat].pending)) else (l, None)
  }

  function SettleExpired(l: Ledger, chat: ChatKey, request: nat): (Ledger, Option<Pending>) {
    var key := LateKey(chat, request);
    if key in l.expired then (l.(expired := l.expired - {key}), Some(l.expired[key].pending)) else (l, None)
  }

  predicate IsLate(open: Open, now: nat) {
    Elapsed(now, open.since) >= SEND_TIMEOUT
  }

  /** The entries with no answer in time, under the keys they expire with. */
  function LateOf(l: Ledger, now: nat): map<LateKey, Expired> {
    map c | c in l.open && IsLate(l.open[c], now)
      :: LateKey(c, l.open[c].pending.request) := Expired(l.open[c].pending, now)
  }

  lemma LateOfAt(l: Ledger, now: nat, k: LateKey)
    ensures k in LateOf(l, now) <==> IsOpen(l, k.chat, k.request) && IsLate(l.open[k.chat], now)
    ensures k in LateOf(l, now) ==> LateOf(l, now)[k] == Expired(l.open[k.chat].pending, now)
  {
    if IsOpen(l, k.chat, k.request) && IsLate(l.open[k.chat], now) {
      assert LateKey(k.chat, l.open[k.chat].pending.request) in LateOf(l, now);
    }
  }

  function Expire(l: Ledger, now: nat): Ledger {
    l.(open := map c | c in l.open && !IsLate(l.open[c], now) :: l.open[c],
       expired := l.expired + LateOf(l, now))
  }

  /** `gone` lists each entry that expires at `now` once. */
  ghost predicate ListsLate(l: Ledger, now: nat, gone: seq<(ChatKey, Pending)>) {
    && (forall i :: 0 <= i < |gone| ==>
          gone[i].0 in l.open && IsLate(l.open[gone[i].0], now) && gone[i].1 == l.open[gone[i].0].pending)
    && (forall c :: c in l.open && IsLate(l.open[c], now) ==> exists i :: 0 <= i < |gone| && gone[i].0 == c)
    && (forall i, j :: 0 <= i < j < |gone| ==> gone[i].0 != gone[j].0)
  }

  function Prune(l: Ledger, now: nat): Ledger {
    l.(expired := map k | k in l.expired && Elapsed(now, l.expired[k].at) < EXPIRED_KEEP :: l.expired[k])
  }

  predicate RetriesNow(l: Ledger, chat: ChatKey, messageId: string) {
    chat in l.open && l.open[chat].pending.Retry? && l.open[chat].pending.messageId == messageId
  }

  function DropRetryOf(l: Ledger, chat: ChatKey, messageId: string): Ledger {
    if RetriesNow(l, chat, messageId) then l.(open := l.open - {chat}) else l
  }

  function DropProtocol(l: Ledger, protocol: ProtocolId): Ledger {
    l.(open := map c | c in l.open && c.protocol != protocol :: l.open[c],
       expired := map k | k in l.expired && k.chat.protocol != protocol :: l.expired[k])
  }

  /** The time at which the oldest entry expires. */
  ghost predicate IsDeadline(l: Ledger, deadline: Option<nat>) {
    match deadline
    case None => l.open == map[]
    case Some(d) =>
      && (exists c :: c in l.open && l.open[c].since + SEND_TIMEOUT == d)
      && (forall c :: c in l.open ==> d <= l.open[c].since + SEND_TIMEOUT)
  }

  ghost predicate Tracks(l: Ledger, protocol: ProtocolId, request: nat) {
    || (exists c :: c in l.open && c.protocol == protocol && l.open[c].pending.request == request)
    || (exists k :: k in l.expired && k.chat.protocol == protocol && k.request == request)
  }

  /** Something expires at `now` exactly when the deadline has come. */
  lemma ExpiresAtDeadline(l: Ledger, deadline: Option<nat>, now: nat, gone: seq<(ChatKey, Pending)>)
    requires IsDeadline(l, deadline) && ListsLate(l, now, gone)
    ensures gone != [] <==> deadline.Some? && deadline.value <= now
  {
    if deadline.Some? && deadline.value <= now {
      var c :| c in l.open && l.open[c].since + SEND_TIMEOUT == deadline.value;
      assert IsLate(l.open[c], now);
    }
    if gone != [] {
      assert gone[0].0 in l.open && IsLate(l.open[gone[0].0], now);
    }
  }

  /** After an expiry at `now` the next deadline lies after `now`. */
  lemma DeadlineMovesOn(l: Ledger, now: nat, deadline: Option<nat>)
    requires IsDeadline(Expire(l, now), deadline)
    ensures deadline.Some? ==> now < deadline.value
  {
    if deadline.Some? {
      var after := Expire(l, now).open;
      var c :| c in after && after[c].since + SEND_TIMEOUT == deadline.value;
      assert !IsLate(l.open[c], now);
    }
  }

  function AddOne(expired: map<LateKey, Expired>, entry: (ChatKey, Pending), now: nat): map<LateKey, Expired> {
    expired[LateKey(entry.0, entry.1.request) := Expired(entry.1, now)]
  }

  function AddAll(expired: map<LateKey, Expired>, gone: seq<(ChatKey, Pending)>, now: nat): map<LateKey, Expired>
    decreases |gone|
  {
    if gone == [] then expired else AddAll(AddOne(expired, gone[0], now), gone[1..], now)
  }

  /** The newest entry of `gone` under the key, or what was there before. */
  lemma {:induction false} AddAllAt(expired: map<LateKey, Expired>, gone: seq<(ChatKey, Pending)>, now: nat,
                                    key: LateKey)
    requires forall i, j :: 0 <= i < j < |gone| ==> gone[i].0 != gone[j].0
    ensures key in AddAll(expired, gone, now) <==>
            key in expired || exists i :: 0 <= i < |gone| && key == LateKey(gone[i].0, gone[i].1.request)
    ensures forall i :: 0 <= i < |gone| && key == LateKey(gone[i].0, gone[i].1.request) ==>
              key in AddAll(expired, gone, now) && AddAll(expired, gone, now)[key] == Expired(gone[i].1, now)
    ensures key in expired && (forall i :: 0 <= i < |gone| ==> key != LateKey(gone[i].0, gone[i].1.request)) ==>
              key in AddAll(expired, gone, now) && AddAll(expired, gone, now)[key] == expired[key]
    decreases |gone|
  {
    if gone != [] {
      AddAllAt(AddOne(expired, gone[0], now), gone[1..], now, key);
      assert forall i :: 0 <= i < |gone| - 1 ==> gone[1..][i] == gone[i + 1];
      if key == LateKey(gone[0].0, gone[0].1.request) {
        assert forall i :: 0 < i < |gone| ==> key != LateKey(gone[i].0, gone[i].1.request);
      } else {
        assert forall i :: 0 < i < |gone| ==> gone[i] == gone[1..][i - 1];
      }
    }
  }

  lemma AddAllIsLate(l: Ledger, now: nat, gone: seq<(ChatKey, Pending)>)
    requires ListsLate(l, now, gone)
    ensures AddAll(l.expired, gone, now) == l.expired + LateOf(l, now)
  {
    forall key ensures key in AddAll(l.expired, gone, now) <==> key in l.expired || key in LateOf(l, now)
      ensures key in AddAll(l.expired, gone, now)
              ==> AddAll(l.expired, gone, now)[key] == (l.expired + LateOf(l, now))[key]
    {
      AddAllAt(l.expired, gone, now, key);
      if key in LateOf(l, now) {
        var i :| 0 <= i < |gone| && gone[i].0 == key.chat;
        assert key == LateKey(gone[i].0, gone[i].1.request);
      }
    }
  }

  class SendTracker {
    var next: nat
    var open: map<ChatKey, Open>
    var expired: map<LateKey, Expired>

    ghost function View(): Ledger
      reads this
    {
      Ledger(next, open, expired)
    }

    constructor ()
      ensures View() == FIRST
    {
      next, open, expired := 1, map[], map[];
    }

    method BeginSend(chat: ChatKey, body: string, topic: Option<MessageTopic>, files: seq<string>, now: nat)
      returns (request: Option<nat>)
      modifies this
      ensures (View(), request) == Begin(old(View()), chat, Text(body, topic, files), now)
      ensures request.Some? ==> chat in open && open[chat] == Open(Send(request.value, body, topic, files), now)
    {
      if chat in open { return None; }
      request := Some(next);
      open := open[chat := Open(Send(next, body, topic, files), now)];
      next := next + 1;
    }

    method BeginRetry(chat: ChatKey, messageId: string, now: nat) returns (request: Option<nat>)
      modifies this
      ensures (View(), request) == Begin(old(View()), chat, Again(messageId), now)
      ensures request.Some? ==> chat in open && open[chat] == Open(Retry(request.value, messageId), now)
    {
      if chat in open { return None; }
      request := Some(next);
      open := open[chat := Open(Retry(next, messageId), now)];
      next := next + 1;
    }

    method SettleOpen(chat: ChatKey, request: nat) returns (pending: Option<Pending>)
      modifies this`open
      ensures (View(), pending) == Settle(old(View()), chat, request)
    {
      if chat !in open || open[chat].pending.request != request { return None; }
      pending := Some(open[chat].pending);
      open := open - {chat};
    }

    method SettleLate(chat: ChatKey, request: nat) returns (pending: Option<Pending>)
      modifies this`expired
      ensures (View(), pending) == SettleExpired(old(View()), chat, request)
    {
      var key := LateKey(chat, request);
      if key !in expired { return None; }
      pending := Some(expired[key].pending);
      expired := expired - {key};
    }

    method NextDeadline() returns (deadline: Option<nat>)
      ensures IsDeadline(View(), deadline)
    {
      deadline := None;
      var left := open.Keys;
      while left != {}
        invariant left <= open.Keys
        invariant deadline.None? ==> left == open.Keys
        invariant deadline.Some? ==>
                    && (exists c :: c in open && open[c].since + SEND_TIMEOUT == deadline.value)
                    && (forall c :: c in open.Keys - left ==> deadline.value <= open[c].since + SEND_TIMEOUT)
        decreases left
      {
        var c :| c in left;
        var due := open[c].since + SEND_TIMEOUT;
        if deadline.None? || due < deadline.value { deadline := Some(due); }
        left := left - {c};
      }
    }

    /** The chats of the entries that are late, each once. */
    method LateChats(now: nat) returns (late: seq<ChatKey>)
      ensures forall c :: c in late <==> c in open && IsLate(open[c], now)
      ensures forall i, j :: 0 <= i < j < |late| ==> late[i] != late[j]
    {
      late := [];
      var left := open.Keys;
      while left != {}
        invariant left <= open.Keys
        invariant forall c :: c in late <==> c in open.Keys - left && IsLate(open[c], now)
        invariant forall i, j :: 0 <= i < j < |late| ==> late[i] != late[j]
        decreases left
      {
        var c :| c in left;
        if IsLate(open[c], now) { late := late + [c]; }
        left := left - {c};
      }
    }

    method TakeOut(late: seq<ChatKey>) returns (gone: seq<(ChatKey, Pending)>)
      requires forall c :: c in late ==> c in open
      requires forall i, j :: 0 <= i < j < |late| ==> late[i] != late[j]
      modifies this`open
      ensures |gone| == |late|
      ensures forall j :: 0 <= j < |late| ==> late[j] in old(open) && gone[j] == (late[j], old(open)[late[j]].pending)
      ensures open == old(open) - (set c | c in late)
    {
      gone := [];
      for i := 0 to |late|
        invariant |gone| == i
        invariant forall j :: 0 <= j < i ==> gone[j] == (late[j], old(open)[late[j]].pending)
        invariant open == old(open) - (set c | c in late[..i])
      {
        assert late[i] !in late[..i];
        assert late[..i + 1] == late[..i] + [late[i]];
        gone := gone + [(late[i], open[late[i]].pending)];
        open := open - {late[i]};
      }
      assert late[..|late|] == late;
    }

    method KeepLate(gone: seq<(ChatKey, Pending)>, now: nat)
      modifies this`expired
      ensures expired == AddAll(old(expired), gone, now)
    {
      for i := 0 to |gone|
        invariant AddAll(expired, gone[i..], now) == AddAll(old(expired), gone, now)
      {
        assert gone[i..][0] == gone[i] && gone[i..][1..] == gone[i + 1..];
        expired := AddOne(expired, gone[i], now);
      }
    }

    method ExpireLate(now: nat) returns (gone: seq<(ChatKey, Pending)>)
      modifies this`open, this`expired
      ensures View() == Expire(old(View()), now)
      ensures ListsLate(old(View()), now, gone)
    {
      ghost var was := View();
      var late := LateChats(now);
      gone := TakeOut(late);
      assert ListsLate(was, now, gone) by {
        forall c | c in was.open && IsLate(was.open[c], now) ensures exists i :: 0 <= i < |gone| && gone[i].0 == c {
          var i :| 0 <= i < |late| && late[i] == c;
          assert gone[i].0 == c;
        }
      }
      KeepLate(gone, now);
      AddAllIsLate(was, now, gone);
    }

    method PruneExpired(now: nat)
      modifies this`expired
      ensures View() == Prune(old(View()), now)
    {
      expired := map k | k in expired && Elapsed(now, expired[k].at) < EXPIRED_KEEP :: expired[k];
    }

    method StopRetry(chat: ChatKey, messageId: string)
      modifies this`open
      ensures View() == DropRetryOf(old(View()), chat, messageId)
    {
      if chat in open {
        match open[chat].pending {
          case Retry(_, id) => if id == messageId { open := open - {chat}; }
          case Send(_, _, _, _) =>
        }
      }
    }

    method EndSession(protocol: ProtocolId)
      modifies this`open, this`expired
      ensures View() == DropProtocol(old(View()), protocol)
    {
      open := map c | c in open && c.protocol != protocol :: open[c];
      expired := map k | k in expired && k.chat.protocol != protocol :: expired[k];
    }

    /** The request is open, or expired and still kept for a late answer. */
    method TracksRequest(protocol: ProtocolId, request: nat) returns (tracks: bool)
      ensures tracks == Tracks(View(), protocol, request)
    {
      tracks := (exists c :: c in open && c.protocol == protocol && open[c].pending.request == request)
                || (exists k :: k in expired && k.chat.protocol == protocol && k.request == request);
    }

    /** An accept of the adapter, also a late one: a late accept of a retry ends a newer
        retry of the same message. */
    method Accepted(chat: ChatKey, request: nat) returns (pending: Option<Pending>)
      modifies this
      ensures (View(), pending) == Accept(old(View()), chat, request)
    {
      pending := SettleOpen(chat, request);
      if pending.None? {
        pending := SettleLate(chat, request);
        match pending {
          case Some(Retry(_, messageId)) => StopRetry(chat, messageId);
          case _ =>
        }
      }
    }

    method Rejected(chat: ChatKey, request: nat) returns (pending: Option<Pending>)
      modifies this
      ensures (View(), pending) == Reject(old(View()), chat, request)
    {
      pending := SettleOpen(chat, request);
      if pending.None? { pending := SettleLate(chat, request); }
    }
  }

  function Reject(l: Ledger, chat: ChatKey, request: nat): (Ledger, Option<Pending>) {
    if IsOpen(l, chat, request) then Settle(l, chat, request) else SettleExpired(l, chat, request)
  }

  function Accept(l: Ledger, chat: ChatKey, request: nat): (Ledger, Option<Pending>) {
    var (after, pending) := Reject(l, chat, request);
    if !IsOpen(l, chat, request) && pending.Some? && pending.value.Retry?
    then (DropRetryOf(after, chat, pending.value.messageId), pending)
    else (after, pending)
  }
}
