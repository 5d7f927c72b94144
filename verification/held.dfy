/** Live forum messages that wait for their topic row (crates/thinwire-core/src/core.rs).
    Times are in milliseconds. */
module HeldNotices {
  import opened Wrappers
  import opened Accounts
  import opened Commands
  import opened Notify

  const HELD_TOPIC_NOTICE_CAP := 32
  const HELD_TOPIC_NOTICE_COUNT := 99
  const HELD_TOPIC_NOTICE_WAIT := 4_000

  datatype HeldNotice = HeldNotice(message: ChatMessage, earlier: nat, heldAt: nat)

  type Held = seq<HeldNotice>

  datatype TopicRow = TopicRow(name: string, muted: bool)

  /** What the state and the settings say while one pump runs. */
  datatype World = World(
    enabled: bool, preview: bool, viewed: Option<(ProtocolId, string)>, viewedTopic: Option<MessageTopic>,
    sessions: set<ProtocolId>, chats: map<(ProtocolId, string), Conversation>, rows: map<NotifyKey, TopicRow>,
    mutedChats: set<(ProtocolId, string)>, mutedTopics: set<NotifyKey>, unixNow: int)

  function ChatOf(w: World, message: ChatMessage): Option<Conversation> {
    var id := (message.protocol, message.conversationId);
    if id in w.chats then Some(w.chats[id]) else None
  }

  function HasRow(w: World, message: ChatMessage): bool {
    message.topic.Some? && KeyOf(message) in w.rows
  }

  function ContextOf(w: World, message: ChatMessage, focused: bool): Context {
    var id := (message.protocol, message.conversationId);
    var key := KeyOf(message);
    Context(w.enabled, w.preview, focused, w.viewed, w.viewedTopic, message.protocol in w.sessions, id in w.mutedChats,
            message.topic.Some? && ((key in w.rows && w.rows[key].muted) || key in w.mutedTopics),
            if HasRow(w, message) then Some(w.rows[key].name) else None, w.unixNow)
  }

  /** A live forum message of a listed chat whose topic has no row yet. */
  predicate RowPending(w: World, message: ChatMessage) {
    && message.arrival == Live && !message.outbound
    && message.topic.Some? && message.topic.value.Forum?
    && ChatOf(w, message).Some? && !HasRow(w, message)
  }

  // ----- hold

  /** The hold of the topic, if there is one. */
  function IndexOf(held: Held, key: NotifyKey): (r: Option<nat>)
    ensures r.Some? ==> r.value < |held| && KeyOf(held[r.value].message) == key
  {
    if held == [] then None
    else if KeyOf(held[0].message) == key then Some(0)
    else
      match IndexOf(held[1..], key)
      case None => None
      case Some(i) => Some(i + 1)
  }

  lemma {:induction false} IndexOfNone(held: Held, key: NotifyKey)
    ensures IndexOf(held, key).None? <==> forall i :: 0 <= i < |held| ==> KeyOf(held[i].message) != key
  {
    if held != [] {
      IndexOfNone(held[1..], key);
      assert forall i :: 0 < i < |held| ==> held[i] == held[1..][i - 1];
    }
  }

  function Min(a: nat, b: nat): nat { if a < b then a else b }

  function HoldOne(held: Held, message: ChatMessage, now: nat): Held {
    if message.topic.None? then held
    else
      match IndexOf(held, KeyOf(message))
      case Some(i) =>
        held[i := HeldNotice(message, Min(held[i].earlier + 1, HELD_TOPIC_NOTICE_COUNT - 1), held[i].heldAt)]
      case None =>
        (if |held| >= HELD_TOPIC_NOTICE_CAP then held[1..] else held) + [HeldNotice(message, 0, now)]
  }

  // ----- release

  predicate Waited(h: HeldNotice, now: nat) {
    now >= h.heldAt + HELD_TOPIC_NOTICE_WAIT
  }

  /** The chat and the session of the hold are still there. */
  predicate IsAlive(w: World, h: HeldNotice) {
    h.message.topic.Some? && h.message.protocol in w.sessions && ChatOf(w, h.message).Some?
  }

  predicate Frees(w: World, h: HeldNotice, now: nat) {
    IsAlive(w, h) && (HasRow(w, h.message) || Waited(h, now))
  }

  predicate Keeps(w: World, h: HeldNotice, now: nat) {
    IsAlive(w, h) && !HasRow(w, h.message) && !Waited(h, now)
  }

  function NotifyWith(core: Core, w: World, message: ChatMessage): Core {
    OnMessage(core, message, ChatOf(w, message), ContextOf(w, message, core.windowFocused))
  }

  function NotifyTimes(core: Core, w: World, message: ChatMessage, times: nat): Core {
    if times == 0 then core else NotifyWith(NotifyTimes(core, w, message, times - 1), w, message)
  }

  /** The core after a release of `held`, in order. */
  function Released(held: Held, w: World, now: nat, core: Core): Core {
    if held == [] then core
    else
      var h := held[|held| - 1];
      var before := Released(held[..|held| - 1], w, now, core);
      ReleasedOne(before, w, h, now)
  }

  function Kept(held: Held, w: World, now: nat): Held {
    if held == [] then []
    else
      var before := Kept(held[..|held| - 1], w, now);
      if Keeps(w, held[|held| - 1], now) then before + [held[|held| - 1]] else before
  }

  function WithoutProtocol(held: Held, protocol: ProtocolId): Held {
    if held == [] then []
    else
      var before := WithoutProtocol(held[..|held| - 1], protocol);
      if held[|held| - 1].message.protocol != protocol then before + [held[|held| - 1]] else before
  }

  // ----- what the list keeps

  ghost predicate Distinct(held: Held) {
    forall i, j :: 0 <= i < j < |held| ==> KeyOf(held[i].message) != KeyOf(held[j].message)
  }

  ghost predicate Ordered(held: Held) {
    forall i, j :: 0 <= i < j < |held| ==> held[i].heldAt <= held[j].heldAt
  }

  ghost predicate HeldOk(held: Held, clock: nat) {
    && |held| <= HELD_TOPIC_NOTICE_CAP
    && Distinct(held) && Ordered(held)
    && (forall i :: 0 <= i < |held| ==>
          held[i].message.topic.Some? && held[i].earlier < HELD_TOPIC_NOTICE_COUNT && held[i].heldAt <= clock)
  }

  /** The last hold may stay behind some of the others. */
  lemma SnocOk(part: Held, held: Held, h: HeldNotice, clock: nat)
    requires HeldOk(held + [h], clock) && HeldOk(part, clock) && |part| <= |held|
    requires forall x :: x in part ==> x in held
    ensures HeldOk(part + [h], clock)
  {
    var all := held + [h];
    assert all[|held|] == h;
    forall i | 0 <= i < |part|
      ensures KeyOf(part[i].message) != KeyOf(h.message) && part[i].heldAt <= h.heldAt
    {
      assert part[i] in held;
      var j :| 0 <= j < |held| && held[j] == part[i];
      assert all[j] == part[i];
    }
  }

  lemma {:induction false} KeptFacts(held: Held, w: World, now: nat, clock: nat)
    requires HeldOk(held, clock)
    ensures HeldOk(Kept(held, w, now), clock) && |Kept(held, w, now)| <= |held|
    ensures forall h :: h in Kept(held, w, now) <==> h in held && Keeps(w, h, now)
  {
    if held != [] {
      var n := |held| - 1;
      KeptFacts(held[..n], w, now, clock);
      assert held == held[..n] + [held[n]];
      SnocOk(Kept(held[..n], w, now), held[..n], held[n], clock);
    }
  }

  lemma {:induction false} WithoutProtocolFacts(held: Held, protocol: ProtocolId, clock: nat)
    requires HeldOk(held, clock)
    ensures HeldOk(WithoutProtocol(held, protocol), clock) && |WithoutProtocol(held, protocol)| <= |held|
    ensures forall h :: h in WithoutProtocol(held, protocol) <==> h in held && h.message.protocol != protocol
  {
    if held != [] {
      var n := |held| - 1;
      WithoutProtocolFacts(held[..n], protocol, clock);
      assert held == held[..n] + [held[n]];
      SnocOk(WithoutProtocol(held[..n], protocol), held[..n], held[n], clock);
    }
  }

  lemma HoldNewOk(held: Held, message: ChatMessage, clock: nat, now: nat)
    requires HeldOk(held, clock) && clock <= now && message.topic.Some? && |held| < HELD_TOPIC_NOTICE_CAP
    requires forall i :: 0 <= i < |held| ==> KeyOf(held[i].message) != KeyOf(message)
    ensures HeldOk(held + [HeldNotice(message, 0, now)], now)
  {
  }

  lemma HoldOk(held: Held, message: ChatMessage, clock: nat, now: nat)
    requires HeldOk(held, clock) && clock <= now
    ensures HeldOk(HoldOne(held, message, now), now)
  {
    if message.topic.Some? {
      IndexOfNone(held, KeyOf(message));
      match IndexOf(held, KeyOf(message)) {
        case Some(i) =>
        case None =>
          var shorter := if |held| >= HELD_TOPIC_NOTICE_CAP then held[1..] else held;
          assert HeldOk(shorter, clock);
          HoldNewOk(shorter, message, clock, now);
      }
    }
  }

  // ----- what a release adds

  predicate Allows(core: Core, w: World, message: ChatMessage) {
    !core.closing && Decide(message, ChatOf(w, message), ContextOf(w, message, core.windowFocused)).None?
  }

  /** The notification of the topic with its count raised by `times`. */
  function Raised(core: Core, w: World, message: ChatMessage, times: nat): Pending
    requires ChatOf(w, message).Some?
  {
    Pending(NotificationFor(message, ChatOf(w, message).value, ContextOf(w, message, core.windowFocused),
                            CountOf(core, KeyOf(message)) + times), false)
  }

  lemma NotifyOnceIs(core: Core, w: World, message: ChatMessage)
    requires CoreOk(core)
    ensures var after := NotifyWith(core, w, message);
            && CoreOk(after) && after.closing == core.closing && after.windowFocused == core.windowFocused
            && (Allows(core, w, message) ==>
                  ChatOf(w, message).Some?
                  && after.pending == core.pending[KeyOf(message) := Raised(core, w, message, 1)])
            && (!Allows(core, w, message) ==> after.pending == core.pending)
  {
    OnMessageOk(core, message, ChatOf(w, message), ContextOf(w, message, core.windowFocused));
  }

  lemma RaisedMore(core: Core, before: Core, w: World, message: ChatMessage, times: nat)
    requires ChatOf(w, message).Some? && times > 0 && before.windowFocused == core.windowFocused
    requires before.pending == if times == 1 then core.pending
                               else core.pending[KeyOf(message) := Raised(core, w, message, times - 1)]
    ensures before.pending[KeyOf(message) := Raised(before, w, message, 1)]
            == core.pending[KeyOf(message) := Raised(core, w, message, times)]
  {
    assert CountOf(before, KeyOf(message)) == CountOf(core, KeyOf(message)) + times - 1;
  }

  /** One notification of the topic, with its count raised once per message. */
  lemma {:induction false} NotifyTimesIs(core: Core, w: World, message: ChatMessage, times: nat)
    requires CoreOk(core)
    ensures var after := NotifyTimes(core, w, message, times);
            && CoreOk(after) && after.closing == core.closing && after.windowFocused == core.windowFocused
            && (Allows(core, w, message) && times > 0 ==>
                  ChatOf(w, message).Some?
                  && after.pending == core.pending[KeyOf(message) := Raised(core, w, message, times)])
            && (!Allows(core, w, message) || times == 0 ==> after.pending == core.pending)
  {
    if times > 0 {
      var before := NotifyTimes(core, w, message, times - 1);
      NotifyTimesIs(core, w, message, times - 1);
      NotifyOnceIs(before, w, message);
      assert Allows(before, w, message) == Allows(core, w, message);
      if Allows(core, w, message) { RaisedMore(core, before, w, message, times); }
    }
  }

  /** How much a release adds to the count of a topic. */
  function Raise(held: Held, w: World, now: nat, core: Core, key: NotifyKey): nat {
    match IndexOf(held, key)
    case None => 0
    case Some(i) =>
      if Frees(w, held[i], now) && Allows(core, w, held[i].message) then held[i].earlier + 1 else 0
  }

  lemma {:induction false} RaiseSnoc(held: Held, h: HeldNotice, w: World, now: nat, core: Core, key: NotifyKey)
    requires Distinct(held + [h])
    ensures Raise(held + [h], w, now, core, key) ==
            if KeyOf(h.message) == key
            then (if Frees(w, h, now) && Allows(core, w, h.message) then h.earlier + 1 else 0)
            else Raise(held, w, now, core, key)
  {
    var all := held + [h];
    IndexOfNone(all, key);
    IndexOfNone(held, key);
    assert all[|held|] == h;
    assert forall i :: 0 <= i < |held| ==> all[i] == held[i];
  }

  /** One hold of a release. */
  function ReleasedOne(core: Core, w: World, h: HeldNotice, now: nat): Core {
    if Frees(w, h, now) then NotifyTimes(core, w, h.message, h.earlier + 1) else core
  }

  lemma ReleasedOneRaises(core: Core, w: World, h: HeldNotice, now: nat, key: NotifyKey)
    requires CoreOk(core)
    ensures var after := ReleasedOne(core, w, h, now);
            var raise := if KeyOf(h.message) == key && Frees(w, h, now) && Allows(core, w, h.message)
                         then h.earlier + 1 else 0;
            && CoreOk(after) && after.closing == core.closing && after.windowFocused == core.windowFocused
            && CountOf(after, key) == CountOf(core, key) + raise
            && (raise == 0 ==> SamePending(core, after, key))
  {
    if Frees(w, h, now) { NotifyTimesIs(core, w, h.message, h.earlier + 1); }
  }

  ghost predicate SamePending(core: Core, after: Core, key: NotifyKey) {
    && (key in after.pending <==> key in core.pending)
    && (key in core.pending ==> after.pending[key] == core.pending[key])
  }

  /** A release raises each topic by the messages it held when the rules let them
      through, and every other topic by nothing. */
  lemma {:induction false} ReleaseRaises(held: Held, w: World, now: nat, core: Core, key: NotifyKey)
    requires CoreOk(core) && Distinct(held)
    ensures var after := Released(held, w, now, core);
            && CoreOk(after) && after.closing == core.closing && after.windowFocused == core.windowFocused
            && CountOf(after, key) == CountOf(core, key) + Raise(held, w, now, core, key)
            && (Raise(held, w, now, core, key) == 0 ==> SamePending(core, after, key))
  {
    if held != [] {
      var n := |held| - 1;
      assert held == held[..n] + [held[n]];
      ReleaseRaises(held[..n], w, now, core, key);
      RaiseSnoc(held[..n], held[n], w, now, core, key);
      ReleasedOneRaises(Released(held[..n], w, now, core), w, held[n], now, key);
      if KeyOf(held[n].message) == key { NotRaised(held[..n], held[n], w, now, core); }
    }
  }

  lemma NotRaised(held: Held, h: HeldNotice, w: World, now: nat, core: Core)
    requires Distinct(held + [h])
    ensures Raise(held, w, now, core, KeyOf(h.message)) == 0
  {
    IndexOfNone(held, KeyOf(h.message));
    var all := held + [h];
    assert forall i :: 0 <= i < |held| ==> all[i] == held[i] && all[|held|] == h;
  }

  // ----- every run

  /** The list, and as history how many messages of each topic came since its hold began,
      and the last of them. */
  datatype Run = Run(held: Held, since: map<NotifyKey, nat>, last: map<NotifyKey, ChatMessage>, clock: nat)

  datatype Step =
    | Holds(message: ChatMessage, now: nat)
    | Releases(w: World, now: nat)
    | EndsAccount(protocol: ProtocolId)

  ghost function Apply(r: Run, step: Step): Run {
    match step
    case Holds(message, now) =>
      if now < r.clock then r
      else
        var key := KeyOf(message);
        var more := if IndexOf(r.held, key).Some? && key in r.since then r.since[key] + 1 else 1;
        Run(HoldOne(r.held, message, now), r.since[key := more], r.last[key := message], now)
    case Releases(w, now) => if now < r.clock then r else Run(Kept(r.held, w, now), r.since, r.last, now)
    case EndsAccount(protocol) => r.(held := WithoutProtocol(r.held, protocol))
  }

  ghost function Exec(steps: seq<Step>): Run {
    if steps == [] then Run([], map[], map[], 0) else Apply(Exec(steps[..|steps| - 1]), steps[|steps| - 1])
  }

  ghost predicate Counts(h: HeldNotice, since: map<NotifyKey, nat>, last: map<NotifyKey, ChatMessage>) {
    var key := KeyOf(h.message);
    && key in since && h.earlier + 1 == Min(HELD_TOPIC_NOTICE_COUNT, since[key])
    && key in last && h.message == last[key]
  }

  ghost predicate RunOk(r: Run) {
    HeldOk(r.held, r.clock) && forall h :: h in r.held ==> Counts(h, r.since, r.last)
  }

  lemma HoldsOk(r: Run, message: ChatMessage, now: nat)
    requires RunOk(r) && r.clock <= now
    ensures RunOk(Apply(r, Holds(message, now)))
  {
    var after := Apply(r, Holds(message, now));
    HoldOk(r.held, message, r.clock, now);
    IndexOfNone(r.held, KeyOf(message));
    forall h | h in after.held ensures Counts(h, after.since, after.last) {
      var i :| 0 <= i < |after.held| && after.held[i] == h;
      assert h in r.held || h.message == message;
      if h in r.held {
        assert Counts(h, r.since, r.last);
      }
      if message.topic.Some? && IndexOf(r.held, KeyOf(message)).Some? {
        assert r.held[IndexOf(r.held, KeyOf(message)).value] in r.held;
      }
    }
  }

  lemma ApplyOk(r: Run, step: Step)
    requires RunOk(r)
    ensures RunOk(Apply(r, step))
  {
    match step
    case Holds(message, now) => if r.clock <= now { HoldsOk(r, message, now); }
    case Releases(w, now) =>
      KeptFacts(r.held, w, now, r.clock);
    case EndsAccount(protocol) =>
      WithoutProtocolFacts(r.held, protocol, r.clock);
  }

  lemma {:induction false} ExecOk(steps: seq<Step>)
    ensures RunOk(Exec(steps))
  {
    if steps != [] {
      ExecOk(steps[..|steps| - 1]);
      ApplyOk(Exec(steps[..|steps| - 1]), steps[|steps| - 1]);
    }
  }

  /** In every run the holds are distinct, few, and in the order in which they began. */
  lemma HoldsStayDistinct(steps: seq<Step>)
    ensures HeldOk(Exec(steps).held, Exec(steps).clock)
  {
    ExecOk(steps);
  }

  /** A release raises a topic by the messages since its hold began, at most 99, when its
      chat and session are there, its row came or its wait passed, and the rules allow. */
  lemma ReleaseCountsMessages(steps: seq<Step>, w: World, now: nat, core: Core, h: HeldNotice)
    requires CoreOk(core) && h in Exec(steps).held
    ensures var (key, since) := (KeyOf(h.message), Exec(steps).since);
            && key in since
            && CountOf(Released(Exec(steps).held, w, now, core), key) == CountOf(core, key) +
                 if Frees(w, h, now) && Allows(core, w, h.message) then Min(HELD_TOPIC_NOTICE_COUNT, since[key]) else 0
  {
    ExecOk(steps);
    var held, key := Exec(steps).held, KeyOf(h.message);
    ReleaseRaises(held, w, now, core, key);
    IndexOfNone(held, key);
    var i :| 0 <= i < |held| && held[i] == h;
    assert Counts(h, Exec(steps).since, Exec(steps).last);
  }

  /** A topic that was not held keeps its count and its notification. */
  lemma ReleaseLeavesOthers(steps: seq<Step>, w: World, now: nat, core: Core, key: NotifyKey)
    requires CoreOk(core) && forall h :: h in Exec(steps).held ==> KeyOf(h.message) != key
    ensures var after := Released(Exec(steps).held, w, now, core);
            CountOf(after, key) == CountOf(core, key) && SamePending(core, after, key)
  {
    ExecOk(steps);
    ReleaseRaises(Exec(steps).held, w, now, core, key);
    IndexOfNone(Exec(steps).held, key);
  }

  /** A hold outlives a release exactly while its chat and session are there, its row is
      missing, and its wait has not passed. */
  lemma HoldsEndExactly(steps: seq<Step>, w: World, now: nat, h: HeldNotice)
    requires now >= Exec(steps).clock
    ensures h in Exec(steps + [Releases(w, now)]).held <==>
            h in Exec(steps).held && IsAlive(w, h) && !HasRow(w, h.message) && now < h.heldAt + HELD_TOPIC_NOTICE_WAIT
  {
    assert (steps + [Releases(w, now)])[..|steps|] == steps;
    ExecOk(steps);
    KeptFacts(Exec(steps).held, w, now, Exec(steps).clock);
  }

  // ----- the class

  class TopicNotices {
    var held: Held
    const notify: Notifications

    constructor (notify: Notifications)
      ensures held == [] && this.notify == notify
    {
      held := [];
      this.notify := notify;
    }

    method Hold(message: ChatMessage, now: nat)
      modifies this
      ensures held == HoldOne(old(held), message, now)
    {
      if message.topic.None? { return; }
      var found := IndexOf(held, KeyOf(message));
      if found.Some? {
        var i := found.value;
        var earlier := held[i].earlier + 1;
        if earlier > HELD_TOPIC_NOTICE_COUNT - 1 { earlier := HELD_TOPIC_NOTICE_COUNT - 1; }
        held := held[i := HeldNotice(message, earlier, held[i].heldAt)];
        return;
      }
      if |held| >= HELD_TOPIC_NOTICE_CAP { held := held[1..]; }
      held := held + [HeldNotice(message, 0, now)];
    }

    /** A message whose topic row is missing waits; any other notifies now. */
    method NotifyMessage(w: World, message: ChatMessage, now: nat)
      requires CoreOk(notify.View())
      modifies this, notify
      ensures CoreOk(notify.View())
      ensures RowPending(w, message) ==> held == HoldOne(old(held), message, now) && notify.View() == old(notify.View())
      ensures !RowPending(w, message)
              ==> held == old(held) && notify.View() == NotifyWith(old(notify.View()), w, message)
    {
      if RowPending(w, message) {
        Hold(message, now);
      } else {
        var _ := notify.MessageArrived(message, ChatOf(w, message), ContextOf(w, message, notify.windowFocused));
      }
    }

    method NotifyEach(w: World, message: ChatMessage, times: nat)
      requires CoreOk(notify.View())
      modifies notify
      ensures CoreOk(notify.View()) && notify.View() == NotifyTimes(old(notify.View()), w, message, times)
    {
      for i := 0 to times
        invariant CoreOk(notify.View()) && notify.View() == NotifyTimes(old(notify.View()), w, message, i)
      {
        var _ := notify.MessageArrived(message, ChatOf(w, message), ContextOf(w, message, notify.windowFocused));
      }
    }

    method Release(w: World, now: nat) returns (released: bool)
      requires CoreOk(notify.View())
      modifies this, notify
      ensures held == Kept(old(held), w, now)
      ensures CoreOk(notify.View()) && notify.View() == Released(old(held), w, now, old(notify.View()))
      ensures released <==> exists h :: h in old(held) && Frees(w, h, now)
    {
      var pending := held;
      var keep: Held := [];
      released := false;
      for i := 0 to |pending|
        invariant pending == old(held)
        invariant keep == Kept(pending[..i], w, now)
        invariant CoreOk(notify.View()) && notify.View() == Released(pending[..i], w, now, old(notify.View()))
        invariant released <==> exists j :: 0 <= j < i && Frees(w, pending[j], now)
      {
        assert pending[..i + 1][..i] == pending[..i];
        var h := pending[i];
        if IsAlive(w, h) {
          if HasRow(w, h.message) || Waited(h, now) {
            NotifyEach(w, h.message, h.earlier + 1);
            released := true;
          } else {
            keep := keep + [h];
          }
        }
      }
      assert pending[..|pending|] == pending;
      held := keep;
    }

    method DropHeld(protocol: ProtocolId)
      modifies this
      ensures held == WithoutProtocol(old(held), protocol)
    {
      var keep: Held := [];
      for i := 0 to |held|
        invariant held == old(held) && keep == WithoutProtocol(held[..i], protocol)
      {
        assert held[..i + 1][..i] == held[..i];
        if held[i].message.protocol != protocol { keep := keep + [held[i]]; }
      }
      assert held[..|held|] == held;
      held := keep;
    }
  }
}
