/** What every run of the send tracker keeps (crates/thinwire-core/src/sends.rs), and the
    order in which the core expires, answers and prunes (crates/thinwire-core/src/core.rs). */
module SendRuns {
  import opened Wrappers
  import opened Accounts
  import opened Sends

  datatype Step =
    | Begins(chat: ChatKey, payload: Payload, now: nat)
    | Settles(chat: ChatKey, request: nat)
    | SettlesLate(chat: ChatKey, request: nat)
    | Expires(now: nat)
    | Prunes(now: nat)
    | StopsRetry(chat: ChatKey, messageId: string)
    | EndsSession(protocol: ProtocolId)

  /** How an issued request ended. */
  datatype End =
    | Answered(chat: ChatKey, pending: Pending)
    | Pruned(at: nat)
    | Dropped

  /** What a request was issued for: the caller's chat, and its text, topic and files or the
      message that it sends again. */
  datatype Issue = Issue(chat: ChatKey, payload: Payload, since: nat)

  /** The tracker, and as history each request issued, each that ended, and all answers
      that were given out, in order. */
  datatype Run = Run(ledger: Ledger, issued: map<nat, Issue>, ended: map<nat, End>, given: seq<(ChatKey, Pending)>)

  const NOTHING_SENT := Run(FIRST, map[], map[], [])

  /** The tracker still has the request, open or expired. */
  ghost predicate Held(l: Ledger, issued: map<nat, Issue>, q: nat)
    requires q in issued
  {
    IsOpen(l, issued[q].chat, q) || LateKey(issued[q].chat, q) in l.expired
  }

  ghost predicate OpenAndLate(l: Ledger, issued: map<nat, Issue>, q: nat)
    requires q in issued
  {
    IsOpen(l, issued[q].chat, q) && LateKey(issued[q].chat, q) in l.expired
  }

  /** The requests that the tracker lost on the way to `after`. */
  ghost function Lost(r: Run, after: Ledger, end: End): map<nat, End> {
    map q | q in r.issued && Held(r.ledger, r.issued, q) && !Held(after, r.issued, q) :: end
  }

  ghost function Gives(r: Run, after: Ledger, chat: ChatKey, pending: Option<Pending>): Run {
    match pending
    case None => r.(ledger := after)
    case Some(p) =>
      r.(ledger := after, ended := r.ended + Lost(r, after, Answered(chat, p)), given := r.given + [(chat, p)])
  }

  ghost function Begun(r: Run, chat: ChatKey, payload: Payload, now: nat): Run {
    var (after, request) := Begin(r.ledger, chat, payload, now);
    if request.None? then r
    else r.(ledger := after, issued := r.issued[request.value := Issue(chat, payload, now)])
  }

  ghost function Apply(r: Run, step: Step): Run {
    var l := r.ledger;
    match step
    case Begins(chat, payload, now) => Begun(r, chat, payload, now)
    case Settles(chat, request) => Gives(r, Settle(l, chat, request).0, chat, Settle(l, chat, request).1)
    case SettlesLate(chat, request) =>
      Gives(r, SettleExpired(l, chat, request).0, chat, SettleExpired(l, chat, request).1)
    case Expires(now) => r.(ledger := Expire(l, now))
    case Prunes(now) => r.(ledger := Prune(l, now), ended := r.ended + Lost(r, Prune(l, now), Pruned(now)))
    case StopsRetry(chat, messageId) =>
      r.(ledger := DropRetryOf(l, chat, messageId),
         ended := r.ended + Lost(r, DropRetryOf(l, chat, messageId), Dropped))
    case EndsSession(protocol) =>
      r.(ledger := DropProtocol(l, protocol), ended := r.ended + Lost(r, DropProtocol(l, protocol), Dropped))
  }

  ghost function Exec(steps: seq<Step>): Run {
    if steps == [] then NOTHING_SENT else Apply(Exec(steps[..|steps| - 1]), steps[|steps| - 1])
  }

  // ----- what every run keeps

  /** The tracker agrees with what was issued, and no request is open and expired. */
  ghost predicate LedgerOk(l: Ledger, issued: map<nat, Issue>) {
    && l.next >= 1 && (forall q :: q in issued <==> 1 <= q < l.next)
    && (forall c :: c in l.open ==>
          var q := l.open[c].pending.request;
          q in issued && issued[q].chat == c && issued[q].since == l.open[c].since
          && l.open[c].pending == issued[q].payload.At(q))
    && (forall k :: k in l.expired ==>
          k.request in issued && issued[k.request].chat == k.chat
          && l.expired[k].pending == issued[k.request].payload.At(k.request)
          && l.expired[k].at >= issued[k.request].since + SEND_TIMEOUT)
    && (forall q :: q in issued ==> !OpenAndLate(l, issued, q))
  }

  ghost predicate Truthful(issue: Issue, end: End) {
    match end
    case Answered(chat, p) => issue.chat == chat && p == issue.payload.At(p.request)
    case Pruned(at) => at >= issue.since + SEND_TIMEOUT + EXPIRED_KEEP
    case Dropped => true
  }

  /** Each issued request is held or ended, not both; an answer gave out what the
      request began with; and only old requests were pruned. */
  ghost predicate HistoryOk(r: Run) {
    && (forall q :: q in r.issued ==> (Held(r.ledger, r.issued, q) <==> q !in r.ended))
    && (forall q :: q in r.ended ==> q in r.issued && Truthful(r.issued[q], r.ended[q]))
  }

  /** Each answer given out ended its own request, and no request was answered twice. */
  ghost predicate GivenOk(r: Run) {
    && (forall i :: 0 <= i < |r.given| ==>
          var (chat, p) := r.given[i];
          p.request in r.ended && r.ended[p.request] == Answered(chat, p))
    && (forall i, j :: 0 <= i < j < |r.given| ==> r.given[i].1.request != r.given[j].1.request)
  }

  ghost predicate RunOk(r: Run) {
    LedgerOk(r.ledger, r.issued) && HistoryOk(r) && GivenOk(r)
  }

  /** The tracker only loses entries. */
  ghost predicate Shrinks(l: Ledger, after: Ledger) {
    && after.next == l.next
    && (forall c :: c in after.open ==> c in l.open && after.open[c] == l.open[c])
    && (forall k :: k in after.expired ==> k in l.expired && after.expired[k] == l.expired[k])
  }

  lemma ShrinksOk(l: Ledger, after: Ledger, issued: map<nat, Issue>)
    requires LedgerOk(l, issued) && Shrinks(l, after)
    ensures LedgerOk(after, issued)
    ensures forall q :: q in issued && Held(after, issued, q) ==> Held(l, issued, q)
  {
  }

  /** Losing entries with a truthful reason. */
  lemma LosesOk(r: Run, after: Ledger, end: End)
    requires RunOk(r) && Shrinks(r.ledger, after)
    requires forall q :: q in Lost(r, after, end) ==> Truthful(r.issued[q], end)
    ensures RunOk(r.(ledger := after, ended := r.ended + Lost(r, after, end)))
  {
    ShrinksOk(r.ledger, after, r.issued);
    LostHistory(r, after, end, r.(ledger := after, ended := r.ended + Lost(r, after, end)));
  }

  lemma LostHistory(r: Run, after: Ledger, end: End, next: Run)
    requires HistoryOk(r) && GivenOk(r)
    requires forall q :: q in r.issued && Held(after, r.issued, q) ==> Held(r.ledger, r.issued, q)
    requires forall q :: q in Lost(r, after, end) ==> Truthful(r.issued[q], end)
    requires next == r.(ledger := after, ended := r.ended + Lost(r, after, end))
    ensures HistoryOk(next) && GivenOk(next)
  {
  }

  lemma LostOne(r: Run, after: Ledger, request: nat, end: End)
    requires request in r.issued
    requires forall q :: q in r.issued ==> (Held(r.ledger, r.issued, q) && !Held(after, r.issued, q) <==> q == request)
    ensures Lost(r, after, end) == map[request := end]
  {
  }

  lemma GivesOk(r: Run, after: Ledger, chat: ChatKey, p: Pending)
    requires RunOk(r) && Shrinks(r.ledger, after)
    requires p.request in r.issued && r.issued[p.request].chat == chat && p == r.issued[p.request].payload.At(p.request)
    requires forall q :: q in r.issued ==>
               (Held(r.ledger, r.issued, q) && !Held(after, r.issued, q) <==> q == p.request)
    ensures RunOk(Gives(r, after, chat, Some(p)))
  {
    LosesOk(r, after, Answered(chat, p));
    LostOne(r, after, p.request, Answered(chat, p));
    GivenMore(r, chat, p, Gives(r, after, chat, Some(p)));
  }

  lemma GivenMore(r: Run, chat: ChatKey, p: Pending, after: Run)
    requires GivenOk(r) && p.request !in r.ended
    requires after.ended == r.ended + map[p.request := Answered(chat, p)] && after.given == r.given + [(chat, p)]
    ensures GivenOk(after)
  {
  }

  lemma SettlesOk(r: Run, chat: ChatKey, request: nat)
    requires RunOk(r)
    ensures RunOk(Gives(r, Settle(r.ledger, chat, request).0, chat, Settle(r.ledger, chat, request).1))
  {
    if IsOpen(r.ledger, chat, request) {
      GivesOk(r, Settle(r.ledger, chat, request).0, chat, r.ledger.open[chat].pending);
    }
  }

  lemma SettlesLateOk(r: Run, chat: ChatKey, request: nat)
    requires RunOk(r)
    ensures RunOk(Gives(r, SettleExpired(r.ledger, chat, request).0, chat, SettleExpired(r.ledger, chat, request).1))
  {
    var key := LateKey(chat, request);
    if key in r.ledger.expired {
      GivesOk(r, SettleExpired(r.ledger, chat, request).0, chat, r.ledger.expired[key].pending);
    }
  }

  /** The new request is held, and the others as before. */
  lemma BegunHolds(r: Run, chat: ChatKey, payload: Payload, now: nat, q: nat)
    requires LedgerOk(r.ledger, r.issued) && chat !in r.ledger.open && q in Begun(r, chat, payload, now).issued
    ensures var after := Begun(r, chat, payload, now);
            && (q == r.ledger.next ==> Held(after.ledger, after.issued, q))
            && (q != r.ledger.next ==>
                  q in r.issued && after.issued[q] == r.issued[q]
                  && (Held(after.ledger, after.issued, q) <==> Held(r.ledger, r.issued, q)))
            && !OpenAndLate(after.ledger, after.issued, q)
  {
    assert LateKey(chat, r.ledger.next) !in r.ledger.expired;
  }

  lemma BegunLedger(r: Run, chat: ChatKey, payload: Payload, now: nat)
    requires LedgerOk(r.ledger, r.issued) && chat !in r.ledger.open
    ensures LedgerOk(Begun(r, chat, payload, now).ledger, Begun(r, chat, payload, now).issued)
  {
    var after := Begun(r, chat, payload, now);
    forall q | q in after.issued
      ensures !OpenAndLate(after.ledger, after.issued, q)
    {
      BegunHolds(r, chat, payload, now, q);
    }
  }

  lemma BegunHistory(r: Run, chat: ChatKey, payload: Payload, now: nat)
    requires RunOk(r) && chat !in r.ledger.open
    ensures HistoryOk(Begun(r, chat, payload, now)) && GivenOk(Begun(r, chat, payload, now))
  {
    var after := Begun(r, chat, payload, now);
    forall q | q in after.issued ensures Held(after.ledger, after.issued, q) <==> q !in after.ended {
      BegunHolds(r, chat, payload, now, q);
    }
  }

  lemma BeginsOk(r: Run, chat: ChatKey, payload: Payload, now: nat)
    requires RunOk(r)
    ensures RunOk(Begun(r, chat, payload, now))
  {
    if chat !in r.ledger.open {
      BegunLedger(r, chat, payload, now);
      BegunHistory(r, chat, payload, now);
    }
  }

  lemma ExpireHolds(l: Ledger, issued: map<nat, Issue>, now: nat, q: nat)
    requires LedgerOk(l, issued) && q in issued
    ensures Held(Expire(l, now), issued, q) <==> Held(l, issued, q)
    ensures !OpenAndLate(Expire(l, now), issued, q)
  {
    LateOfAt(l, now, LateKey(issued[q].chat, q));
  }

  lemma ExpireExpired(l: Ledger, issued: map<nat, Issue>, now: nat, k: LateKey)
    requires LedgerOk(l, issued) && k in Expire(l, now).expired
    ensures k.request in issued && issued[k.request].chat == k.chat
    ensures Expire(l, now).expired[k].pending == issued[k.request].payload.At(k.request)
    ensures Expire(l, now).expired[k].at >= issued[k.request].since + SEND_TIMEOUT
  {
    LateOfAt(l, now, k);
  }

  /** A new ledger in which the same requests are held. */
  lemma SameHeld(r: Run, after: Ledger)
    requires RunOk(r) && after.next == r.ledger.next
    requires forall c :: c in after.open ==> c in r.ledger.open && after.open[c] == r.ledger.open[c]
    requires forall k :: k in after.expired ==>
               k.request in r.issued && r.issued[k.request].chat == k.chat
               && after.expired[k].pending == r.issued[k.request].payload.At(k.request)
               && after.expired[k].at >= r.issued[k.request].since + SEND_TIMEOUT
    requires forall q :: q in r.issued ==>
               (Held(after, r.issued, q) <==> Held(r.ledger, r.issued, q))
               && !OpenAndLate(after, r.issued, q)
    ensures RunOk(r.(ledger := after))
  {
  }

  lemma ExpiresOk(r: Run, now: nat)
    requires RunOk(r)
    ensures RunOk(r.(ledger := Expire(r.ledger, now)))
  {
    forall q | q in r.issued
      ensures Held(Expire(r.ledger, now), r.issued, q) <==> Held(r.ledger, r.issued, q)
      ensures !OpenAndLate(Expire(r.ledger, now), r.issued, q)
    {
      ExpireHolds(r.ledger, r.issued, now, q);
    }
    ExpireExpiredAll(r.ledger, r.issued, now);
    SameHeld(r, Expire(r.ledger, now));
  }

  lemma ExpireExpiredAll(l: Ledger, issued: map<nat, Issue>, now: nat)
    requires LedgerOk(l, issued)
    ensures forall k :: k in Expire(l, now).expired ==>
              k.request in issued && issued[k.request].chat == k.chat
              && Expire(l, now).expired[k].pending == issued[k.request].payload.At(k.request)
              && Expire(l, now).expired[k].at >= issued[k.request].since + SEND_TIMEOUT
  {
    forall k | k in Expire(l, now).expired
      ensures k.request in issued && issued[k.request].chat == k.chat
              && Expire(l, now).expired[k].pending == issued[k.request].payload.At(k.request)
              && Expire(l, now).expired[k].at >= issued[k.request].since + SEND_TIMEOUT
    {
      ExpireExpired(l, issued, now, k);
    }
  }

  lemma PrunesOk(r: Run, now: nat)
    requires RunOk(r)
    ensures RunOk(r.(ledger := Prune(r.ledger, now), ended := r.ended + Lost(r, Prune(r.ledger, now), Pruned(now))))
  {
    LosesOk(r, Prune(r.ledger, now), Pruned(now));
  }

  lemma DropsOk(r: Run, after: Ledger)
    requires RunOk(r) && Shrinks(r.ledger, after)
    ensures RunOk(r.(ledger := after, ended := r.ended + Lost(r, after, Dropped)))
  {
    LosesOk(r, after, Dropped);
  }

  lemma ApplyOk(r: Run, step: Step)
    requires RunOk(r)
    ensures RunOk(Apply(r, step))
  {
    match step
    case Begins(chat, payload, now) => BeginsOk(r, chat, payload, now);
    case Settles(chat, request) => SettlesOk(r, chat, request);
    case SettlesLate(chat, request) => SettlesLateOk(r, chat, request);
    case Expires(now) => ExpiresOk(r, now);
    case Prunes(now) => PrunesOk(r, now);
    case StopsRetry(chat, messageId) => DropsOk(r, DropRetryOf(r.ledger, chat, messageId));
    case EndsSession(protocol) => DropsOk(r, DropProtocol(r.ledger, protocol));
  }

  lemma {:induction false} ExecOk(steps: seq<Step>)
    ensures RunOk(Exec(steps))
  {
    if steps != [] {
      ExecOk(steps[..|steps| - 1]);
      ApplyOk(Exec(steps[..|steps| - 1]), steps[|steps| - 1]);
    }
  }

  // ----- the theorems

  /** An entry that has what the caller gave, field by field. */
  predicate IsOf(p: Pending, request: nat, payload: Payload) {
    && p.request == request
    && (payload.Text? ==>
          p.Send? && p.body == payload.body && p.topic == payload.topic && p.files == payload.files)
    && (payload.Again? ==> p.Retry? && p.messageId == payload.messageId)
  }

  /** A begin that succeeds issues a request that no earlier begin issued. */
  lemma RequestsAreNew(steps: seq<Step>, chat: ChatKey, payload: Payload, now: nat)
    ensures var request := Begin(Exec(steps).ledger, chat, payload, now).1;
            && (request.None? <==> chat in Exec(steps).ledger.open)
            && (request.Some? ==> request.value !in Exec(steps).issued)
  {
    ExecOk(steps);
  }

  /** A tracked request is open in one chat or waits for a late answer, never both, and
      keeps the chat and the payload that it began with. */
  lemma TrackedOnce(steps: seq<Step>, r: Run, c: ChatKey, k: LateKey)
    requires r == Exec(steps)
    ensures c in r.ledger.open ==>
              var q := r.ledger.open[c].pending.request;
              q in r.issued && r.issued[q].chat == c && IsOf(r.ledger.open[c].pending, q, r.issued[q].payload)
              && (k in r.ledger.expired ==> q != k.request)
    ensures k in r.ledger.expired ==>
              k.request in r.issued && r.issued[k.request].chat == k.chat
              && IsOf(r.ledger.expired[k].pending, k.request, r.issued[k.request].payload)
  {
    ExecOk(steps);
  }

  /** No request is answered twice, and each answer gives out the chat and the text, topic and
      files, or the message, that its caller gave. */
  lemma AnsweredAtMostOnce(steps: seq<Step>, r: Run, i: nat, j: nat)
    requires r == Exec(steps) && i < |r.given| && j < |r.given|
    ensures i != j ==> r.given[i].1.request != r.given[j].1.request
    ensures var (chat, pending) := r.given[i];
            pending.request in r.issued && r.issued[pending.request].chat == chat
            && IsOf(pending, pending.request, r.issued[pending.request].payload)
  {
    ExecOk(steps);
    assert r.given[i] == (r.given[i].0, r.given[i].1);
  }

  /** Each issued request is tracked or has ended. A pruned one had waited for its answer
      and then for a late one, in full. */
  lemma RequestsAreConserved(steps: seq<Step>, r: Run, request: nat)
    requires r == Exec(steps) && request in r.issued
    ensures Held(r.ledger, r.issued, request) <==> request !in r.ended
    ensures request in r.ended && r.ended[request].Pruned? ==>
              r.ended[request].at >= r.issued[request].since + SEND_TIMEOUT + EXPIRED_KEEP
  {
    ExecOk(steps);
  }

  /** In every run the tracker says of a request number that it tracks it for a protocol
      exactly when it issued it for a chat of that protocol and it has not ended. */
  lemma TracksExactly(steps: seq<Step>, r: Run, protocol: ProtocolId, request: nat)
    requires r == Exec(steps)
    ensures Tracks(r.ledger, protocol, request) <==>
              request in r.issued && r.issued[request].chat.protocol == protocol && request !in r.ended
  {
    ExecOk(steps);
    if request in r.issued && LateKey(r.issued[request].chat, request) in r.ledger.expired {
      assert LateKey(r.issued[request].chat, request).chat.protocol == r.issued[request].chat.protocol;
    }
  }

  /** The step ends this tracked request: its answer comes while it is open, or late; it
      waited 300 seconds for a late one; it is an open retry of the message that stops; or the
      session of its account ends. */
  ghost predicate EndedBy(r: Run, step: Step, q: nat)
    requires q in r.issued
  {
    var issue, key := r.issued[q], LateKey(r.issued[q].chat, q);
    var open := IsOpen(r.ledger, issue.chat, q);
    match step
    case Settles(chat, request) => request == q && chat == issue.chat && open
    case SettlesLate(chat, request) => request == q && chat == issue.chat && !open
    case Prunes(now) => key in r.ledger.expired && r.ledger.expired[key].at + 300_000 <= now
    case StopsRetry(chat, messageId) => chat == issue.chat && open && issue.payload == Again(messageId)
    case EndsSession(protocol) => issue.chat.protocol == protocol
    case _ => false
  }

  lemma SettleEnds(r: Run, chat: ChatKey, request: nat, q: nat)
    requires RunOk(r) && q in r.issued && q !in r.ended
    ensures q in Apply(r, Settles(chat, request)).ended <==> EndedBy(r, Settles(chat, request), q)
  {
    GivesEnds(r, Settle(r.ledger, chat, request).0, chat, Settle(r.ledger, chat, request).1, q);
  }

  lemma LateSettleEnds(r: Run, chat: ChatKey, request: nat, q: nat)
    requires RunOk(r) && q in r.issued && q !in r.ended
    ensures q in Apply(r, SettlesLate(chat, request)).ended <==> EndedBy(r, SettlesLate(chat, request), q)
  {
    GivesEnds(r, SettleExpired(r.ledger, chat, request).0, chat, SettleExpired(r.ledger, chat, request).1, q);
  }

  lemma GivesEnds(r: Run, after: Ledger, chat: ChatKey, pending: Option<Pending>, q: nat)
    requires q in r.issued && q !in r.ended && Held(r.ledger, r.issued, q)
    ensures q in Gives(r, after, chat, pending).ended <==> pending.Some? && !Held(after, r.issued, q)
  {
  }

  lemma PruneEnds(r: Run, now: nat, q: nat)
    requires RunOk(r) && q in r.issued && q !in r.ended
    ensures q in Apply(r, Prunes(now)).ended <==> EndedBy(r, Prunes(now), q)
  {
  }

  lemma StopEnds(r: Run, chat: ChatKey, messageId: string, q: nat)
    requires RunOk(r) && q in r.issued && q !in r.ended
    ensures q in Apply(r, StopsRetry(chat, messageId)).ended <==> EndedBy(r, StopsRetry(chat, messageId), q)
  {
  }

  lemma SessionEnds(r: Run, protocol: ProtocolId, q: nat)
    requires RunOk(r) && q in r.issued && q !in r.ended
    ensures q in Apply(r, EndsSession(protocol)).ended <==> EndedBy(r, EndsSession(protocol), q)
  {
  }

  /** In every run, a step ends a tracked request in exactly these cases. */
  lemma EndsExactly(steps: seq<Step>, step: Step, q: nat)
    requires q in Exec(steps).issued && q !in Exec(steps).ended
    ensures q in Exec(steps + [step]).ended <==> EndedBy(Exec(steps), step, q)
  {
    assert (steps + [step])[..|steps|] == steps;
    ExecOk(steps);
    var r := Exec(steps);
    if step.Settles? {
      SettleEnds(r, step.chat, step.request, q);
    } else if step.SettlesLate? {
      LateSettleEnds(r, step.chat, step.request, q);
    } else if step.Prunes? {
      PruneEnds(r, step.now, q);
    } else if step.StopsRetry? {
      StopEnds(r, step.chat, step.messageId, q);
    } else if step.EndsSession? {
      SessionEnds(r, step.protocol, q);
    }
  }

  /** An expiry moves an open request to the late ones, under the time of the expiry, exactly
      when 30 seconds passed since it began, and changes no other. */
  lemma ExpiresExactly(steps: seq<Step>, now: nat, q: nat)
    requires q in Exec(steps).issued && IsOpen(Exec(steps).ledger, Exec(steps).issued[q].chat, q)
    ensures var issue, after := Exec(steps).issued[q], Expire(Exec(steps).ledger, now);
            var key := LateKey(issue.chat, q);
            if issue.since + 30_000 <= now
            then !IsOpen(after, issue.chat, q) && key in after.expired && after.expired[key].at == now
                 && IsOf(after.expired[key].pending, q, issue.payload)
            else IsOpen(after, issue.chat, q) && key !in after.expired
  {
    ExecOk(steps);
    LateOfAt(Exec(steps).ledger, now, LateKey(Exec(steps).issued[q].chat, q));
  }

  // ----- one pump of the core: expire, apply the queued events, prune

  datatype Event =
    | SendAccepted(chat: ChatKey, request: nat)
    | SendRejected(chat: ChatKey, request: nat)
    | SessionEnded(protocol: ProtocolId)

  ghost function On(l: Ledger, event: Event): Ledger {
    match event
    case SendAccepted(chat, request) => Accept(l, chat, request).0
    case SendRejected(chat, request) => Reject(l, chat, request).0
    case SessionEnded(protocol) => DropProtocol(l, protocol)
  }

  ghost function OnAll(l: Ledger, events: seq<Event>): Ledger
    decreases |events|
  {
    if events == [] then l else OnAll(On(l, events[0]), events[1..])
  }

  ghost predicate Answers(event: Event, chat: ChatKey, request: nat) {
    !event.SessionEnded? && event.chat == chat && event.request == request
  }

  /** The entry of a request, open or expired. */
  ghost function EntryOf(l: Ledger, chat: ChatKey, request: nat): Option<Pending> {
    if IsOpen(l, chat, request) then Some(l.open[chat].pending)
    else if LateKey(chat, request) in l.expired then Some(l.expired[LateKey(chat, request)].pending)
    else None
  }

  /** A late accept of an earlier retry of the message that this request sends again. */
  ghost predicate Overtakes(l: Ledger, event: Event, chat: ChatKey, request: nat) {
    && IsOpen(l, chat, request) && event.SendAccepted? && event.chat == chat
    && LateKey(chat, event.request) in l.expired
    && var earlier := l.expired[LateKey(chat, event.request)].pending;
       earlier.Retry? && RetriesNow(l, chat, earlier.messageId)
  }

  /** What can end a request in a batch before its answer is applied. */
  ghost predicate Spares(l: Ledger, events: seq<Event>, chat: ChatKey, request: nat) {
    forall i :: 0 <= i < |events| ==>
      && !Answers(events[i], chat, request)
      && events[i] != SessionEnded(chat.protocol)
      && !Overtakes(l, events[i], chat, request)
  }

  lemma OnSpares(l: Ledger, event: Event, rest: seq<Event>, chat: ChatKey, request: nat)
    requires EntryOf(l, chat, request).Some? && Spares(l, [event] + rest, chat, request)
    ensures EntryOf(On(l, event), chat, request) == EntryOf(l, chat, request)
    ensures Spares(On(l, event), rest, chat, request)
  {
    assert ([event] + rest)[0] == event;
    assert forall i :: 0 <= i < |rest| ==> rest[i] == ([event] + rest)[i + 1];
    var after := On(l, event);
    assert forall k :: k in after.expired ==> k in l.expired && after.expired[k] == l.expired[k];
    assert chat in after.open ==> chat in l.open && after.open[chat] == l.open[chat];
    assert IsOpen(l, chat, request) ==> IsOpen(after, chat, request);
  }

  lemma {:induction false} OnAllSpares(l: Ledger, events: seq<Event>, chat: ChatKey, request: nat)
    requires EntryOf(l, chat, request).Some? && Spares(l, events, chat, request)
    ensures EntryOf(OnAll(l, events), chat, request) == EntryOf(l, chat, request)
    decreases |events|
  {
    if events != [] {
      assert [events[0]] + events[1..] == events;
      OnSpares(l, events[0], events[1..], chat, request);
      OnAllSpares(On(l, events[0]), events[1..], chat, request);
    }
  }

  /** An expiry keeps every entry findable. */
  lemma ExpireKeepsEntries(l: Ledger, issued: map<nat, Issue>, now: nat, chat: ChatKey, request: nat)
    requires LedgerOk(l, issued)
    ensures EntryOf(Expire(l, now), chat, request) == EntryOf(l, chat, request)
  {
    LateOfAt(l, now, LateKey(chat, request));
    if chat in l.open { LateOfAt(l, now, LateKey(chat, l.open[chat].pending.request)); }
  }

  /** However late the pump is, an answer that was queued before it finds its request,
      unless another event of the batch ended the request first. */
  lemma QueuedAnswersAreNotPruned(steps: seq<Step>, now: nat, before: seq<Event>, chat: ChatKey, request: nat)
    requires EntryOf(Exec(steps).ledger, chat, request).Some?
    requires Spares(Expire(Exec(steps).ledger, now), before, chat, request)
    ensures var found := OnAll(Expire(Exec(steps).ledger, now), before);
            && Accept(found, chat, request).1 == EntryOf(Exec(steps).ledger, chat, request)
            && Reject(found, chat, request).1 == EntryOf(Exec(steps).ledger, chat, request)
  {
    ExecOk(steps);
    ExpireKeepsEntries(Exec(steps).ledger, Exec(steps).issued, now, chat, request);
    OnAllSpares(Expire(Exec(steps).ledger, now), before, chat, request);
  }

  /** Each of the three ends is real: the event leaves no entry. */
  lemma SparesExactly(l: Ledger, event: Event, chat: ChatKey, request: nat)
    requires EntryOf(l, chat, request).Some?
    requires IsOpen(l, chat, request) ==> LateKey(chat, request) !in l.expired
    ensures EntryOf(On(l, event), chat, request) == EntryOf(l, chat, request)
            <==> Spares(l, [event], chat, request)
    ensures !Spares(l, [event], chat, request) ==> EntryOf(On(l, event), chat, request).None?
  {
    assert [event] + [] == [event] && [event][0] == event;
    if Spares(l, [event], chat, request) { OnSpares(l, event, [], chat, request); }
  }
}
