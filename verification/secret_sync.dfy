/** Dirty tracking of the Slack keys and the Discord token, over every run of attach and
    flush: no write is forgotten, except where the attach worker stores an old reading. */
module SecretSync {
  import opened Wrappers
  import opened Secrets
  import opened SecretFlush

  function KeptOf(raw: Option<string>): Option<string> {
    if raw.None? then None else Kept(raw.value)
  }

  /** What the keychain holds for `k` once the writes from `at` on have succeeded. */
  ghost function Coming(os: Option<string>, pairs: SlackPairs, at: nat, k: SlackKey): Option<string>
    decreases |pairs| - at
  {
    if at >= |pairs| then os
    else Coming(if pairs[at].0 == k then pairs[at].1 else os, pairs, at + 1, k)
  }

  lemma {:induction false} ComingOfDrained(os: Option<string>, slack: map<SlackKey, string>, keys: seq<SlackKey>,
                                           at: nat, k: SlackKey)
    requires at <= |keys|
    ensures Coming(os, PairsOf(slack, keys), at, k) == if k in keys[at..] then Get(slack, k) else os
    decreases |keys| - at
  {
    if at < |keys| {
      ComingOfDrained(if keys[at] == k then Get(slack, k) else os, slack, keys, at + 1, k);
      assert keys[at..] == [keys[at]] + keys[at + 1..];
    }
  }

  lemma {:induction false} ComingOfOthers(os: Option<string>, pairs: SlackPairs, at: nat, k: SlackKey)
    requires k !in KeysFrom(pairs, at)
    ensures Coming(os, pairs, at, k) == os
    decreases |pairs| - at
  {
    if at < |pairs| {
      assert pairs[at].0 in KeysFrom(pairs, at);
      assert KeysFrom(pairs, at + 1) <= KeysFrom(pairs, at);
      ComingOfOthers(os, pairs, at + 1, k);
    }
  }

  // ----- one item: a Slack key, or the Discord token

  /** What matters about one item: what memory holds, what the keychain holds once the
      running writes succeed, whether the item is dirty, whether memory took over what the
      keychain had, whether a flush took it under an older reading, whether the attach
      worker waits to store that reading, the reading, and whether the store is attached. */
  datatype Item = Item(memory: Option<string>, coming: Option<string>, dirty: bool, known: bool,
                       raced: bool, waiting: bool, reading: Option<Option<string>>, ready: bool)

  /** The item is dirty, or memory has what the keychain will have. Before memory took
      over what the keychain had, it may also have nothing. */
  ghost predicate Tracked(i: Item) {
    i.dirty || KeptOf(i.coming) == i.memory || (!i.known && i.memory.None?)
  }

  ghost predicate ItemOk(i: Item) {
    && KeptOf(i.memory) == i.memory
    && (!i.ready ==> !i.raced)
    && (!i.raced || i.waiting ==> Tracked(i))
    && (i.reading.Some? && !i.raced && !i.dirty ==> i.reading.value == i.coming)
    && (i.raced && i.waiting && !i.dirty ==> KeptOf(i.coming) == i.memory)
  }

  ghost predicate Quiet(i: Item, j: Item) {
    && j == i.(waiting := j.waiting, reading := j.reading, ready := j.ready)
    && (j.reading.Some? ==> j.reading == i.reading)
    && (j.waiting ==> i.waiting || !i.ready)
    && (i.ready ==> j.ready)
  }

  ghost predicate WasSet(i: Item, j: Item) {
    KeptOf(j.memory) == j.memory && j == i.(memory := j.memory, dirty := true, raced := false)
  }

  ghost predicate WasRead(i: Item, j: Item) {
    && !i.ready && j == i.(raced := false, reading := j.reading)
    && (j.reading.Some? ==> j.reading.value == i.coming)
  }

  ghost predicate WasStored(i: Item, j: Item) {
    && i.reading.Some? && i.waiting
    && j == i.(memory := if i.dirty || i.reading.value.None? then i.memory else Kept(i.reading.value.value),
               known := true, waiting := false, reading := None)
  }

  ghost predicate WasTaken(i: Item, j: Item) {
    && i.dirty && i.ready && (i.reading.Some? ==> i.waiting)
    && j == i.(dirty := false, coming := i.memory, raced := i.raced || i.waiting)
  }

  ghost predicate WriteFailed(i: Item, j: Item) {
    j == i.(dirty := true, coming := j.coming)
  }

  ghost predicate ItemStep(i: Item, j: Item) {
    Quiet(i, j) || WasSet(i, j) || WasRead(i, j) || WasStored(i, j) || WasTaken(i, j) || WriteFailed(i, j)
  }

  lemma ItemStepOk(i: Item, j: Item)
    requires ItemOk(i) && ItemStep(i, j)
    ensures ItemOk(j)
  {
    if WasStored(i, j) && i.reading.value.Some? {
      KeptAgain(i.reading.value.value);
    }
  }

  /** Storing a reading leaves the item tracked exactly when the item is dirty, or no flush
      took it since the reading, or the reading has nothing for it or what memory has. */
  lemma StoringIsSafeExactly(i: Item, j: Item)
    requires ItemOk(i) && WasStored(i, j)
    ensures Tracked(j) <==>
            i.dirty || !i.raced || i.reading.value.None? || Kept(i.reading.value.value) == i.memory
  {
    if !i.dirty && !i.raced {
      assert i.reading.value == i.coming;
    }
  }

  // ----- Slack keys

  ghost function SlackReading(attach: Attach, k: SlackKey): Option<Option<string>> {
    match attach
    case HasRead(_, _, read) => if read.Some? then Some(Get(read.value, k)) else None
    case TokenNext(_, read, _) => Some(Get(read, k))
    case SlackNext(read, _) => Some(Get(read, k))
    case _ => None
  }

  ghost function SlackItem(s: Shared, f: Flusher, k: SlackKey): Item {
    Item(Get(s.inner.slack, k),
         if f.WritingSlack? then Coming(Get(s.os.slack, k), f.pairs, f.at, k) else Get(s.os.slack, k),
         k in s.inner.slackDirty, s.race.slackKnown, k in s.race.slackRaced,
         Awaiting(s.attach), SlackReading(s.attach, k), s.inner.phase == Ready)
  }

  lemma DrainSteps(s: Shared, keys: seq<SlackKey>, k: SlackKey)
    requires OneFlush(s, AtSlack)
    ensures var (after, next) := OnSlack(s, keys); ItemStep(SlackItem(s, AtSlack, k), SlackItem(after, next, k))
  {
    if FlushesSlack(s.inner) && Drains(keys, s.inner.slackDirty) {
      ComingOfDrained(Get(s.os.slack, k), s.inner.slack, keys, 0, k);
      assert keys[0..] == keys;
      var i, j := SlackItem(s, AtSlack, k), SlackItem(OnSlack(s, keys).0, OnSlack(s, keys).1, k);
      assert if i.dirty then WasTaken(i, j) else Quiet(i, j);
    }
  }

  lemma WriteSteps(s: Shared, pairs: SlackPairs, at: nat, ok: bool, k: SlackKey)
    ensures var (after, next) := OnWritingSlack(s, pairs, at, ok);
            ItemStep(SlackItem(s, WritingSlack(pairs, at), k), SlackItem(after, next, k))
  {
    var (after, next) := OnWritingSlack(s, pairs, at, ok);
    var i, j := SlackItem(s, WritingSlack(pairs, at), k), SlackItem(after, next, k);
    if k !in KeysFrom(pairs, at) {
      ComingOfOthers(Get(s.os.slack, k), pairs, at, k);
    }
    if at < |pairs| && !ok && k in KeysFrom(pairs, at) {
      assert WriteFailed(i, j);
    } else {
      assert j.coming == i.coming;
      assert Quiet(i, j);
    }
  }

  lemma WorkSteps(s: Shared, f: Flusher, ok: bool, keys: seq<SlackKey>, k: SlackKey)
    requires OneFlush(s, f) && !f.Done?
    ensures var (after, next) := Work(s, f, ok, keys); ItemStep(SlackItem(s, f, k), SlackItem(after, next, k))
  {
    if f.AtSlack? {
      DrainSteps(s, keys, k);
    } else if f.WritingSlack? {
      WriteSteps(s, f.pairs, f.at, ok, k);
    } else {
      var (after, next) := Work(s, f, ok, keys);
      assert Quiet(SlackItem(s, f, k), SlackItem(after, next, k));
    }
  }

  lemma AttachSteps(s: Shared, f: Flusher, k: SlackKey)
    requires OneFlush(s, f)
    ensures ItemStep(SlackItem(s, f, k), SlackItem(AttachOn(s), f, k))
  {
    var i, j := SlackItem(s, f, k), SlackItem(AttachOn(s), f, k);
    if s.attach.SlackNext? {
      HydrateKeepsDirty(s.inner, s.attach.slack, TokenError, k);
      assert WasStored(i, j);
    } else {
      assert Quiet(i, j);
    }
  }

  lemma SetSteps(s: Shared, f: Flusher, key: SlackKey, value: string, k: SlackKey)
    requires PersistToOs(k)
    ensures ItemStep(SlackItem(s, f, k), SlackItem(Act(s, SetSlackTo(key, value)).0, f, k))
  {
    var i, j := SlackItem(s, f, k), SlackItem(Act(s, SetSlackTo(key, value)).0, f, k);
    if k == key {
      KeptAgain(value);
      assert j.memory == Kept(value);
      assert WasSet(i, j);
    } else {
      assert Quiet(i, j);
    }
  }

  predicate IsAttachStep(step: Step) {
    step.AttachStarts? || step.ProbeAbsent? || step.ProbeFails? || step.ReadsOs?
  }

  lemma QuietCalls(s: Shared, f: Flusher, step: Step, k: SlackKey)
    requires !step.SetSlackTo? && !step.AttachGoesOn? && !IsAttachStep(step)
    ensures Quiet(SlackItem(s, f, k), SlackItem(Act(s, step).0, f, k))
  {
  }

  lemma QuietAttach(s: Shared, f: Flusher, step: Step, k: SlackKey)
    requires OneFlush(s, f) && IsAttachStep(step) && !(step.ReadsOs? && s.attach.Probing?)
    ensures Quiet(SlackItem(s, f, k), SlackItem(Act(s, step).0, f, k))
  {
  }

  lemma ActSteps(s: Shared, f: Flusher, step: Step, k: SlackKey)
    requires OneFlush(s, f) && PersistToOs(k)
    ensures ItemStep(SlackItem(s, f, k), SlackItem(Act(s, step).0, f, k))
  {
    var i, j := SlackItem(s, f, k), SlackItem(Act(s, step).0, f, k);
    if step.SetSlackTo? {
      SetSteps(s, f, step.slackKey, step.value, k);
    } else if step.AttachGoesOn? {
      AttachSteps(s, f, k);
    } else if step.ReadsOs? && s.attach.Probing? {
      assert f.Done?;
      assert WasRead(i, j);
    } else {
      if IsAttachStep(step) { QuietAttach(s, f, step, k); } else { QuietCalls(s, f, step, k); }
    }
  }

  lemma SlackItemLater(s: Shared, f: Flusher, k: SlackKey)
    ensures SlackItem(Tick(s), f, k) == SlackItem(s, f, k)
    ensures f.Done? ==> SlackItem(Tick(s), AtTake, k) == SlackItem(s, f, k)
  {
  }

  lemma ApplySlackOk(s: System, step: Step, k: SlackKey)
    requires FlushOk(s) && ItemOk(SlackItem(s.shared, Last(s.flushers), k)) && PersistToOs(k)
    ensures ItemOk(SlackItem(Apply(s, step).shared, Last(Apply(s, step).flushers), k))
  {
    var f := Last(s.flushers);
    ApplyIs(s, step);
    if !step.FlusherGoesOn? {
      ActSteps(s.shared, f, step, k);
      ItemStepOk(SlackItem(s.shared, f, k), SlackItem(Act(s.shared, step).0, f, k));
      SlackItemLater(Act(s.shared, step).0, f, k);
    } else if step.i < |s.flushers| && !s.flushers[step.i].Done? {
      WorkSteps(s.shared, f, step.ok, step.keys, k);
      var (after, next) := Work(s.shared, f, step.ok, step.keys);
      ItemStepOk(SlackItem(s.shared, f, k), SlackItem(after, next, k));
      SlackItemLater(after, next, k);
    } else {
      SlackItemLater(s.shared, f, k);
    }
  }

  lemma {:induction false} SlackStaysOk(os: Keychain, steps: seq<Step>, k: SlackKey)
    requires PersistToOs(k)
    ensures var s := Exec(Start(os), steps); ItemOk(SlackItem(s.shared, Last(s.flushers), k))
  {
    if steps != [] {
      SlackStaysOk(os, steps[..|steps| - 1], k);
      ExecOk(os, steps[..|steps| - 1]);
      ApplySlackOk(Exec(Start(os), steps[..|steps| - 1]), steps[|steps| - 1], k);
    }
  }

  /** With no flush in flight, a Slack key that the OS should have is dirty, or memory
      and the keychain agree on it up to trimming. The one way out is a flush of that key
      while the attach worker held a reading from before it. */
  lemma NoSlackWriteIsForgotten(os: Keychain, steps: seq<Step>, s: System, k: SlackKey)
    requires s == Exec(Start(os), steps) && PersistToOs(k)
    requires !s.shared.inner.flushInFlight && (k !in s.shared.race.slackRaced || Awaiting(s.shared.attach))
    ensures || k in s.shared.inner.slackDirty
            || KeptOf(Get(s.shared.os.slack, k)) == Get(s.shared.inner.slack, k)
            || (!s.shared.race.slackKnown && k !in s.shared.inner.slack)
  {
    SlackStaysOk(os, steps, k);
    ExecOk(os, steps);
    assert Last(s.flushers).Done?;
  }

  /** The step that stores what the attach worker read is the stored reading above. */
  lemma AttachStoresSlack(s: Shared, f: Flusher, k: SlackKey)
    requires s.attach.SlackNext?
    ensures WasStored(SlackItem(s, f, k), SlackItem(AttachOn(s), f, k))
  {
    HydrateKeepsDirty(s.inner, s.attach.slack, TokenError, k);
  }

  /** In every run, at the step that stores the Slack keys: a key stays dirty or what the
      keychain will have, exactly when it is dirty, or no flush took it since the keychain was
      read, or that reading has no such key, or it has the value of memory. */
  lemma SlackStoreIsSafeExactly(os: Keychain, steps: seq<Step>, s: System, k: SlackKey)
    requires s == Exec(Start(os), steps) && s.shared.attach.SlackNext? && PersistToOs(k)
    ensures var inner, read := s.shared.inner, s.shared.attach.slack;
            Tracked(SlackItem(AttachOn(s.shared), Last(s.flushers), k))
            <==> k in inner.slackDirty || k !in s.shared.race.slackRaced
                 || k !in read || Kept(read[k]) == Get(inner.slack, k)
  {
    var f := Last(s.flushers);
    SlackStaysOk(os, steps, k);
    AttachStoresSlack(s.shared, f, k);
    StoringIsSafeExactly(SlackItem(s.shared, f, k), SlackItem(AttachOn(s.shared), f, k));
  }

  // ----- the Discord token

  ghost function TokenReading(attach: Attach): Option<Option<string>> {
    if (attach.HasRead? || attach.TokenNext?) && attach.token.TokenOk? then Some(attach.token.raw) else None
  }

  ghost function TokenItem(s: Shared, f: Flusher): Item {
    Item(s.inner.token, if f.WritingToken? then f.value else s.os.token,
         s.inner.tokenDirty, s.race.tokenKnown, s.race.tokenRaced,
         s.attach.TokenNext?, TokenReading(s.attach), s.inner.phase == Ready)
  }

  lemma TokenTaken(s: Shared)
    requires OneFlush(s, AtToken)
    ensures var (after, next) := OnToken(s); ItemStep(TokenItem(s, AtToken), TokenItem(after, next))
  {
    var (after, next) := OnToken(s);
    if FlushesToken(s.inner) {
      assert WasTaken(TokenItem(s, AtToken), TokenItem(after, next));
    } else {
      assert Quiet(TokenItem(s, AtToken), TokenItem(after, next));
    }
  }

  lemma TokenWritten(s: Shared, value: Option<string>, ok: bool)
    ensures var (after, next) := OnWritingToken(s, value, ok);
            ItemStep(TokenItem(s, WritingToken(value)), TokenItem(after, next))
  {
    var (after, next) := OnWritingToken(s, value, ok);
    if ok {
      assert Quiet(TokenItem(s, WritingToken(value)), TokenItem(after, next));
    } else {
      assert WriteFailed(TokenItem(s, WritingToken(value)), TokenItem(after, next));
    }
  }

  lemma QuietTokenWork(s: Shared, f: Flusher, ok: bool, keys: seq<SlackKey>)
    requires OneFlush(s, f) && !f.Done? && !f.AtToken? && !f.WritingToken?
    ensures var (after, next) := Work(s, f, ok, keys); Quiet(TokenItem(s, f), TokenItem(after, next))
  {
  }

  lemma WorkTokenSteps(s: Shared, f: Flusher, ok: bool, keys: seq<SlackKey>)
    requires OneFlush(s, f) && !f.Done?
    ensures var (after, next) := Work(s, f, ok, keys); ItemStep(TokenItem(s, f), TokenItem(after, next))
  {
    if f.AtToken? {
      TokenTaken(s);
    } else if f.WritingToken? {
      TokenWritten(s, f.value, ok);
    } else {
      QuietTokenWork(s, f, ok, keys);
    }
  }

  lemma QuietTokenCalls(s: Shared, f: Flusher, step: Step)
    requires !step.SetTokenTo? && !step.AttachGoesOn? && !IsAttachStep(step)
    ensures Quiet(TokenItem(s, f), TokenItem(Act(s, step).0, f))
  {
  }

  lemma QuietTokenAttach(s: Shared, f: Flusher, step: Step)
    requires OneFlush(s, f) && IsAttachStep(step) && !(step.ReadsOs? && s.attach.Probing?)
    ensures Quiet(TokenItem(s, f), TokenItem(Act(s, step).0, f))
  {
  }

  lemma QuietTokenGoesOn(s: Shared, f: Flusher)
    requires OneFlush(s, f) && (s.attach.TokenNext? ==> s.attach.token.TokenError?)
    ensures Quiet(TokenItem(s, f), TokenItem(AttachOn(s), f))
  {
  }

  lemma ActTokenSteps(s: Shared, f: Flusher, step: Step)
    requires OneFlush(s, f)
    ensures ItemStep(TokenItem(s, f), TokenItem(Act(s, step).0, f))
  {
    var i, j := TokenItem(s, f), TokenItem(Act(s, step).0, f);
    if step.SetTokenTo? {
      KeptAgain(step.value);
      assert WasSet(i, j);
    } else if step.AttachGoesOn? && s.attach.TokenNext? && s.attach.token.TokenOk? {
      assert WasStored(i, j);
    } else if step.ReadsOs? && s.attach.Probing? {
      assert f.Done?;
      assert WasRead(i, j);
    } else {
      if step.AttachGoesOn? {
        QuietTokenGoesOn(s, f);
      } else if IsAttachStep(step) {
        QuietTokenAttach(s, f, step);
      } else {
        QuietTokenCalls(s, f, step);
      }
    }
  }

  lemma TokenItemLater(s: Shared, f: Flusher)
    ensures TokenItem(Tick(s), f) == TokenItem(s, f)
    ensures f.Done? ==> TokenItem(Tick(s), AtTake) == TokenItem(s, f)
  {
  }

  lemma ApplyTokenOk(s: System, step: Step)
    requires FlushOk(s) && ItemOk(TokenItem(s.shared, Last(s.flushers)))
    ensures ItemOk(TokenItem(Apply(s, step).shared, Last(Apply(s, step).flushers)))
  {
    var f := Last(s.flushers);
    ApplyIs(s, step);
    if !step.FlusherGoesOn? {
      ActTokenSteps(s.shared, f, step);
      ItemStepOk(TokenItem(s.shared, f), TokenItem(Act(s.shared, step).0, f));
      TokenItemLater(Act(s.shared, step).0, f);
    } else if step.i < |s.flushers| && !s.flushers[step.i].Done? {
      WorkTokenSteps(s.shared, f, step.ok, step.keys);
      var (after, next) := Work(s.shared, f, step.ok, step.keys);
      ItemStepOk(TokenItem(s.shared, f), TokenItem(after, next));
      TokenItemLater(after, next);
    } else {
      TokenItemLater(s.shared, f);
    }
  }

  lemma {:induction false} TokenStaysOk(os: Keychain, steps: seq<Step>)
    ensures var s := Exec(Start(os), steps); ItemOk(TokenItem(s.shared, Last(s.flushers)))
  {
    if steps != [] {
      TokenStaysOk(os, steps[..|steps| - 1]);
      ExecOk(os, steps[..|steps| - 1]);
      ApplyTokenOk(Exec(Start(os), steps[..|steps| - 1]), steps[|steps| - 1]);
    }
  }

  /** The same for the Discord token. */
  lemma NoTokenWriteIsForgotten(os: Keychain, steps: seq<Step>, s: System)
    requires s == Exec(Start(os), steps)
    requires !s.shared.inner.flushInFlight && (!s.shared.race.tokenRaced || s.shared.attach.TokenNext?)
    ensures || s.shared.inner.tokenDirty
            || KeptOf(s.shared.os.token) == s.shared.inner.token
            || (!s.shared.race.tokenKnown && s.shared.inner.token.None?)
  {
    TokenStaysOk(os, steps);
    ExecOk(os, steps);
    assert Last(s.flushers).Done?;
  }

  /** With the store attached and no flush in flight: a token that was set before the last
      request is in the keychain as memory has it, but for a failed write since the newest
      snapshot and for the gap above. */
  lemma AskedTokenIsSaved(os: Keychain, steps: seq<Step>, s: System)
    requires s == Exec(Start(os), steps) && s.shared.inner.phase == Ready && !s.shared.inner.flushInFlight
    requires s.shared.past.tokenSet < s.shared.past.asked && s.shared.past.failed < s.shared.past.taken
    requires s.shared.race.tokenKnown && !s.shared.race.tokenRaced
    ensures KeptOf(s.shared.os.token) == s.shared.inner.token
  {
    AskedMeansFlushed(os, steps, s);
    NoTokenWriteIsForgotten(os, steps, s);
  }

  /** The same for a Slack key. */
  lemma AskedSlackIsSaved(os: Keychain, steps: seq<Step>, s: System, k: SlackKey)
    requires s == Exec(Start(os), steps) && s.shared.inner.phase == Ready && !s.shared.inner.flushInFlight
    requires s.shared.past.slackSet < s.shared.past.asked && s.shared.past.failed < s.shared.past.taken
    requires PersistToOs(k) && s.shared.race.slackKnown && k !in s.shared.race.slackRaced
    ensures KeptOf(Get(s.shared.os.slack, k)) == Get(s.shared.inner.slack, k)
  {
    AskedMeansFlushed(os, steps, s);
    NoSlackWriteIsForgotten(os, steps, s, k);
  }

  /** The same for the step that stores the Discord token. */
  lemma TokenStoreIsSafeExactly(os: Keychain, steps: seq<Step>, s: System)
    requires s == Exec(Start(os), steps) && s.shared.attach.TokenNext?
    ensures var inner, token := s.shared.inner, s.shared.attach.token;
            Tracked(TokenItem(AttachOn(s.shared), Last(s.flushers)))
            <==> inner.tokenDirty || !s.shared.race.tokenRaced || token.TokenError?
                 || token.raw.None? || Kept(token.raw.value) == inner.token
  {
    var f := Last(s.flushers);
    TokenStaysOk(os, steps);
    var i, j := TokenItem(s.shared, f), TokenItem(AttachOn(s.shared), f);
    if s.shared.attach.token.TokenOk? {
      assert WasStored(i, j);
      StoringIsSafeExactly(i, j);
    } else {
      assert Quiet(i, j);
    }
  }

  // ----- the way out is real

  /** Some run gets to this memory, attach worker, flush workers and keychain. */
  ghost predicate Gets(start: System, inner: Inner, attach: Attach, flushers: seq<Flusher>, os: Keychain) {
    exists steps: seq<Step> ::
      var s := Exec(start, steps);
      s.shared.inner == inner && s.shared.attach == attach && s.flushers == flushers && s.shared.os == os
  }

  lemma ExecOneMore(start: System, steps: seq<Step>, step: Step)
    ensures Exec(start, steps + [step]) == Apply(Exec(start, steps), step)
  {
    assert (steps + [step])[..|steps|] == steps;
  }

  /** One more step of a run. */
  lemma Go(start: System, inner: Inner, attach: Attach, flushers: seq<Flusher>, os: Keychain, step: Step)
    returns (s: System)
    requires Gets(start, inner, attach, flushers, os)
    ensures s.shared.inner == inner && s.shared.attach == attach && s.flushers == flushers && s.shared.os == os
    ensures var next := Apply(s, step);
            Gets(start, next.shared.inner, next.shared.attach, next.flushers, next.shared.os)
  {
    var steps: seq<Step> :|
      var s := Exec(start, steps);
      s.shared.inner == inner && s.shared.attach == attach && s.flushers == flushers && s.shared.os == os;
    s := Exec(start, steps);
    ExecOneMore(start, steps, step);
    assert Exec(start, steps + [step]) == Apply(s, step);
  }

  /** The same for a step of the UI or the attach worker that ends as given. */
  lemma GoAct(start: System, step: Step, flushers: seq<Flusher>,
              inner: Inner, attach: Attach, os: Keychain, inner': Inner, attach': Attach, starts: bool)
    requires Gets(start, inner, attach, flushers, os) && !step.FlusherGoesOn?
    requires forall s: Shared :: s.inner == inner && s.attach == attach && s.os == os ==>
               var (next, spawned) := Act(s, step);
               next.inner == inner' && next.attach == attach' && next.os == os && spawned == starts
    ensures Gets(start, inner', attach', if starts then flushers + [AtTake] else flushers, os)
  {
    var s := Go(start, inner, attach, flushers, os, step);
    var (next, spawned) := Act(s.shared, step);
    assert Apply(s, step) == System(Tick(next), if spawned then s.flushers + [AtTake] else s.flushers);
  }

  /** The same for a step of the one flush worker. */
  lemma GoFlush(start: System, attach: Attach, keys: seq<SlackKey>,
                inner: Inner, f: Flusher, os: Keychain, inner': Inner, f': Flusher, os': Keychain)
    requires Gets(start, inner, attach, [f], os)
    requires forall s: Shared :: s.inner == inner && s.attach == attach && s.os == os ==>
               var (next, g) := Work(s, f, true, keys);
               next.inner == inner' && g == f' && next.os == os' && next.attach == attach
    ensures Gets(start, inner', attach, [f'], os')
  {
    var s := Go(start, inner, attach, [f], os, FlusherGoesOn(0, true, keys));
    var (next, g) := Work(s.shared, f, true, keys);
    assert Apply(s, FlusherGoesOn(0, true, keys)) == System(Tick(next), [g]);
  }

  function OsWith(slack: map<SlackKey, string>): Keychain { Keychain(map[], None, slack) }

  function Attached(k: SlackKey, v: string, dirty: set<SlackKey>, flies: bool): Inner {
    BLANK.(phase := Ready, slack := map[k := v], slackDirty := dirty, flushInFlight := flies)
  }

  function ReadAll(os: Keychain): Attach {
    HasRead(Some(os.telegram), TokenOk(os.token), Some(os.slack))
  }

  /** The attach worker has read the keychain. */
  lemma UntilRead(start: System, os: Keychain)
    requires Gets(start, BLANK, Resting, [], os)
    ensures Gets(start, BLANK.(phase := Attaching), ReadAll(os), [], os)
  {
    var attaching := BLANK.(phase := Attaching);
    GoAct(start, AttachStarts, [], BLANK, Resting, os, attaching, Probing, false);
    GoAct(start, ReadsOs(true, true, true), [], attaching, Probing, os,
          attaching, ReadAll(os), false);
  }

  /** The store is attached. */
  lemma UntilReady(start: System, os: Keychain)
    requires os.telegram == map[] && os.token == None
    requires Gets(start, BLANK.(phase := Attaching), ReadAll(os), [], os)
    ensures Gets(start, BLANK.(phase := Ready), TokenNext(TokenOk(None), os.slack, false), [], os)
  {
    assert Merged<SecretKey>(map[], map[], {}) == map[];
    GoAct(start, AttachGoesOn, [], BLANK.(phase := Attaching), ReadAll(os), os,
          BLANK.(phase := Ready), TokenNext(TokenOk(None), os.slack, false), false);
  }

  /** The UI sets the key and asks for a flush. */
  lemma UntilAsked(start: System, attach: Attach, os: Keychain, k: SlackKey, v: string)
    requires Gets(start, BLANK.(phase := Ready), attach, [], os)
    requires PersistToOs(k) && Kept(v) == Some(v)
    ensures Gets(start, Attached(k, v, {k}, true), attach, [AtTake], os)
  {
    GoAct(start, SetSlackTo(k, v), [], BLANK.(phase := Ready), attach, os, Attached(k, v, {k}, false), attach, false);
    GoAct(start, AskFlush, [], Attached(k, v, {k}, false), attach, os, Attached(k, v, {k}, true), attach, true);
    assert [] + [AtTake] == [AtTake];
  }

  lemma UntilTaken(start: System, attach: Attach, os: Keychain, inner: Inner) returns (taken: nat)
    requires Gets(start, inner, attach, [AtTake], os)
    requires inner.phase == Ready && !inner.flushPending && inner.values == map[]
    ensures Gets(start, inner, attach, [Writing(map[], taken, 0)], os)
  {
    var s := Go(start, inner, attach, [AtTake], os, FlusherGoesOn(0, true, []));
    taken := s.shared.past.clock;
    assert Apply(s, FlusherGoesOn(0, true, [])).flushers == [Writing(map[], taken, 0)];
  }

  /** The flush deletes the Telegram keys, which the keychain does not have. */
  lemma {:induction false} WritesFrom(start: System, attach: Attach, os: Keychain, inner: Inner, taken: nat, at: nat)
    requires at <= 4 && Gets(start, inner, attach, [Writing(map[], taken, at)], os) && os.telegram == map[]
    ensures Gets(start, inner, attach, [AtToken], os)
    decreases 4 - at
  {
    if at == 4 {
      GoFlush(start, attach, [], inner, Writing(map[], taken, 4), os, inner, AtToken, os);
    } else {
      assert Put(os.telegram, PERSISTENT[at], None) == map[];
      GoFlush(start, attach, [], inner, Writing(map[], taken, at), os, inner, Writing(map[], taken, at + 1), os);
      WritesFrom(start, attach, os, inner, taken, at + 1);
    }
  }

  /** The flush takes the key. */
  lemma UntilDrained(start: System, attach: Attach, os: Keychain, k: SlackKey, v: string)
    requires Gets(start, Attached(k, v, {k}, true), attach, [AtToken], os)
    ensures Gets(start, Attached(k, v, {}, true), attach, [WritingSlack([(k, Some(v))], 0)], os)
  {
    var dirty := Attached(k, v, {k}, true);
    GoFlush(start, attach, [], dirty, AtToken, os, dirty, AtSlack, os);
    assert Drains([k], {k}) && PairsOf(map[k := v], [k]) == [(k, Some(v))];
    GoFlush(start, attach, [k], dirty, AtSlack, os, Attached(k, v, {}, true), WritingSlack([(k, Some(v))], 0), os);
  }

  /** It writes the key. */
  lemma UntilFlushed(start: System, attach: Attach, os: Keychain, k: SlackKey, v: string)
    requires Gets(start, Attached(k, v, {}, true), attach, [WritingSlack([(k, Some(v))], 0)], os)
    ensures Gets(start, Attached(k, v, {}, true), attach, [AtFinish], os.(slack := os.slack[k := v]))
  {
    var clean, pairs, after := Attached(k, v, {}, true), [(k, Some(v))], os.(slack := os.slack[k := v]);
    GoFlush(start, attach, [], clean, WritingSlack(pairs, 0), os, clean, WritingSlack(pairs, 1), after);
    GoFlush(start, attach, [], clean, WritingSlack(pairs, 1), after, clean, AtFinish, after);
  }

  /** It ends. */
  lemma UntilDone(start: System, attach: Attach, os: Keychain, k: SlackKey, v: string)
    requires Gets(start, Attached(k, v, {}, true), attach, [AtFinish], os)
    ensures Gets(start, Attached(k, v, {}, false), attach, [Done], os)
  {
    GoFlush(start, attach, [], Attached(k, v, {}, true), AtFinish, os, Attached(k, v, {}, false), Done, os);
  }

  /** The UI sets the key, and the flush of it runs from its start to its end. */
  lemma UntilSaved(start: System, attach: Attach, os: Keychain, k: SlackKey, v: string)
    requires Gets(start, BLANK.(phase := Ready), attach, [], os) && os.telegram == map[]
    requires PersistToOs(k) && Kept(v) == Some(v)
    ensures Gets(start, Attached(k, v, {}, false), attach, [Done], os.(slack := os.slack[k := v]))
  {
    UntilAsked(start, attach, os, k, v);
    var taken := UntilTaken(start, attach, os, Attached(k, v, {k}, true));
    WritesFrom(start, attach, os, Attached(k, v, {k}, true), taken, 0);
    UntilDrained(start, attach, os, k, v);
    UntilFlushed(start, attach, os, k, v);
    UntilDone(start, attach, os.(slack := os.slack[k := v]), k, v);
  }

  /** The attach worker stores what it had read. */
  lemma UntilStored(start: System, k: SlackKey, was: string, v: string, os: Keychain)
    requires Kept(was) == Some(was)
    requires Gets(start, Attached(k, v, {}, false), TokenNext(TokenOk(None), map[k := was], false), [Done], os)
    ensures Gets(start, Attached(k, was, {}, false), Resting, [Done], os)
  {
    var done, stores := Attached(k, v, {}, false), SlackNext(map[k := was], false);
    GoAct(start, AttachGoesOn, [Done], done, TokenNext(TokenOk(None), map[k := was], false), os, done, stores, false);
    assert Merged(map[k := v], map[k := was], {}) == map[k := was];
    GoAct(start, AttachGoesOn, [Done], done, stores, os, Attached(k, was, {}, false), Resting, false);
  }

  /** For any key and any two values: the keychain ends with the newer one, memory with
      the older one, and nothing is dirty. */
  lemma OldReadingCanUndoSet(k: SlackKey, was: string, v: string)
    requires PersistToOs(k) && Kept(was) == Some(was) && Kept(v) == Some(v)
    ensures Gets(Start(OsWith(map[k := was])), Attached(k, was, {}, false), Resting, [Done], OsWith(map[k := v]))
  {
    var os, attach := OsWith(map[k := was]), TokenNext(TokenOk(None), map[k := was], false);
    assert Exec(Start(os), []) == Start(os);
    UntilRead(Start(os), os);
    UntilReady(Start(os), os);
    UntilSaved(Start(os), attach, os, k, v);
    assert map[k := was][k := v] == map[k := v];
    UntilStored(Start(os), k, was, v, OsWith(map[k := v]));
  }
}
