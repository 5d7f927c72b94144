/** Attach and flush of the secret store as an interleaving of UI calls, one attach
    worker, and any number of flush workers (crates/thinwire-core/src/secrets.rs). Each
    step is one locked section or one OS call. */
module SecretFlush {
  import opened Wrappers
  import opened Secrets

  /** Where the attach worker is, with what it read and whether it must flush. */
  datatype Attach =
    | Resting
    | Probing
    | HasRead(telegram: Option<map<SecretKey, string>>, token: TokenRead, slackRead: Option<map<SlackKey, string>>)
    | TokenNext(token: TokenRead, slack: map<SlackKey, string>, flush: bool)
    | SlackNext(slack: map<SlackKey, string>, flush: bool)

  /** Where a flush worker is. */
  datatype Flusher =
    | AtTake
    | Writing(snapshot: map<SecretKey, string>, taken: nat, at: nat)
    | AtToken
    | WritingToken(value: Option<string>)
    | AtSlack
    | WritingSlack(pairs: SlackPairs, at: nat)
    | AtFinish
    | Done

  /** What the OS holds. */
  datatype Keychain = Keychain(telegram: map<SecretKey, string>, token: Option<string>, slack: map<SlackKey, string>)

  /** The time of the next step; of the last set of a Telegram key, of the token and of a
      Slack key; of the newest request outside the memory-only mode, where an attach that finds
      a set to save is one too; of the newest snapshot, of the snapshot last written from, and
      of the last write that failed; the newest snapshot, and whether all of it was written. */
  datatype Past = Past(clock: nat, set_: nat, tokenSet: nat, slackSet: nat, asked: nat, taken: nat, wrote: nat,
                       failed: nat, snapshot: map<SecretKey, string>, complete: bool)

  /** Whether memory took over what the OS had, and what a flush took while the attach
      worker held an earlier reading of it. A later set ends the second. */
  datatype Race = Race(tokenKnown: bool, slackKnown: bool, tokenRaced: bool, slackRaced: set<SlackKey>)

  datatype Shared = Shared(inner: Inner, attach: Attach, os: Keychain, past: Past, race: Race)

  datatype System = System(shared: Shared, flushers: seq<Flusher>)

  ghost function Start(os: Keychain): System {
    System(Shared(BLANK, Resting, os, Past(1, 0, 0, 0, 0, 0, 0, 0, map[], false), Race(false, false, false, {})), [])
  }

  datatype Step =
    | SetSecretTo(key: SecretKey, value: string)
    | SetTokenTo(value: string)
    | SetSlackTo(slackKey: SlackKey, value: string)
    | AskFlush
    | TryAgain
    | AttachStarts
    | ProbeAbsent
    | ProbeFails
    | ReadsOs(telegramOk: bool, tokenOk: bool, slackOk: bool)
    | AttachGoesOn
    | FlusherGoesOn(i: nat, ok: bool, keys: seq<SlackKey>)

  ghost predicate Awaiting(attach: Attach) {
    attach.TokenNext? || attach.SlackNext?
  }

  ghost predicate WillFlush(attach: Attach) {
    (attach.TokenNext? || attach.SlackNext?) && attach.flush
  }

  // ----- the attach worker

  ghost function ReadOs(s: Shared, telegramOk: bool, tokenOk: bool, slackOk: bool): Shared {
    s.(attach := HasRead(if telegramOk then Some(s.os.telegram) else None,
                         if tokenOk then TokenOk(s.os.token) else TokenError,
                         if slackOk then Some(s.os.slack) else None),
       race := s.race.(tokenRaced := false, slackRaced := {}))
  }

  /** A value was set that the keychain does not have yet. */
  predicate HasUnsaved(s: Inner) {
    s.dirty != {} || s.tokenDirty || s.slackDirty != {}
  }

  ghost function Fails(s: Shared): Shared { s.(past := s.past.(failed := s.past.clock)) }

  /** The next locked section of the attach worker. */
  ghost function AttachOn(s: Shared): Shared {
    match s.attach
    case HasRead(read, token, slack) =>
      if slack.None? then s.(inner := s.inner.(phase := ReadFailed), attach := Resting)
      else if read.None? then s.(inner := s.inner.(phase := ReadFailed), attach := TokenNext(token, slack.value, false))
      else
        s.(inner := FinishReady(s.inner, read.value), attach := TokenNext(token, slack.value, ShouldFlush(s.inner)),
           past := if HasUnsaved(s.inner) then s.past.(asked := s.past.clock) else s.past)
    case TokenNext(token, slack, flush) =>
      s.(inner := HydrateToken(s.inner, token), attach := SlackNext(slack, flush),
         race := s.race.(tokenKnown := s.race.tokenKnown || token.TokenOk?))
    case SlackNext(slack, flush) =>
      s.(inner := HydrateSlack(s.inner, slack), attach := Resting, race := s.race.(slackKnown := true))
    case _ => s
  }

  /** A step of the UI or of the attach worker, and whether a flush worker starts. */
  ghost function Act(s: Shared, step: Step): (Shared, bool) {
    match step
    case SetSecretTo(key, value) =>
      (s.(inner := SetSecret(s.inner, key, value), past := s.past.(set_ := s.past.clock)), false)
    case SetTokenTo(value) =>
      (s.(inner := SetToken(s.inner, value), past := s.past.(tokenSet := s.past.clock),
          race := s.race.(tokenRaced := false)), false)
    case SetSlackTo(key, value) =>
      (s.(inner := SetSlack(s.inner, key, value), past := s.past.(slackSet := s.past.clock),
          race := s.race.(slackRaced := s.race.slackRaced - {key})), false)
    case AskFlush =>
      var (inner, action) := Asked(s.inner);
      (s.(inner := inner,
          past := if s.inner.phase == MemoryOnly then s.past else s.past.(asked := s.past.clock)), action == Spawn)
    case TryAgain => (if s.inner.phase == ReadFailed then s.(inner := s.inner.(phase := Attaching)) else s, false)
    case AttachStarts =>
      (if s.attach.Resting? && s.inner.phase != Ready && s.inner.phase != MemoryOnly
       then s.(inner := s.inner.(phase := Attaching), attach := Probing) else s, false)
    case ProbeAbsent =>
      (if s.attach.Probing? then s.(inner := FinishMemoryOnly(s.inner), attach := Resting) else s, false)
    case ProbeFails =>
      (if s.attach.Probing? then s.(inner := s.inner.(phase := ReadFailed), attach := Resting) else s, false)
    case ReadsOs(telegramOk, tokenOk, slackOk) =>
      (if s.attach.Probing? then ReadOs(s, telegramOk, tokenOk, slackOk) else s, false)
    case AttachGoesOn => (AttachOn(s), s.attach.SlackNext? && s.attach.flush)
    case FlusherGoesOn(_, _, _) => (s, false)
  }

  // ----- a flush worker

  ghost function OnTake(s: Shared): (Shared, Flusher) {
    var (inner, some) := TakeSnapshot(s.inner);
    if some
    then (s.(inner := inner, past := s.past.(taken := s.past.clock, snapshot := s.inner.values, complete := false)),
          Writing(s.inner.values, s.past.clock, 0))
    else (s.(inner := inner), Done)
  }

  ghost function OnWriting(s: Shared, f: Flusher, ok: bool): (Shared, Flusher)
    requires f.Writing?
  {
    if f.at >= |PERSISTENT| then (s, AtToken)
    else if !ok then (Fails(s), AtFinish)
    else
      var key := PERSISTENT[f.at];
      (s.(os := s.os.(telegram := Put(s.os.telegram, key, Get(f.snapshot, key))),
          past := s.past.(wrote := f.taken, complete := f.at + 1 == |PERSISTENT|)),
       Writing(f.snapshot, f.taken, f.at + 1))
  }

  ghost function OnToken(s: Shared): (Shared, Flusher) {
    if FlushesToken(s.inner)
    then (s.(inner := s.inner.(tokenDirty := false),
             race := s.race.(tokenRaced := s.race.tokenRaced || s.attach.TokenNext?)),
          WritingToken(s.inner.token))
    else (s, AtSlack)
  }

  ghost function OnWritingToken(s: Shared, value: Option<string>, ok: bool): (Shared, Flusher) {
    if ok then (s.(os := s.os.(token := value)), AtSlack)
    else (Fails(s.(inner := s.inner.(tokenDirty := true))), AtFinish)
  }

  ghost function OnSlack(s: Shared, keys: seq<SlackKey>): (Shared, Flusher) {
    if !FlushesSlack(s.inner) then (s, AtFinish)
    else if !Drains(keys, s.inner.slackDirty) then (s, AtSlack)
    else (s.(inner := s.inner.(slackDirty := {}),
             race := if Awaiting(s.attach) then s.race.(slackRaced := s.race.slackRaced + s.inner.slackDirty)
                     else s.race),
          WritingSlack(PairsOf(s.inner.slack, keys), 0))
  }

  ghost function OnWritingSlack(s: Shared, pairs: SlackPairs, at: nat, ok: bool): (Shared, Flusher) {
    if at >= |pairs| then (s, AtFinish)
    else if ok
    then (s.(os := s.os.(slack := Put(s.os.slack, pairs[at].0, pairs[at].1))), WritingSlack(pairs, at + 1))
    else (Fails(s.(inner := s.inner.(slackDirty := s.inner.slackDirty + KeysFrom(pairs, at)))), AtFinish)
  }

  ghost function OnFinish(s: Shared): (Shared, Flusher) {
    var (inner, again) := FinishCycle(s.inner);
    (s.(inner := inner), if again then AtTake else Done)
  }

  ghost function Work(s: Shared, f: Flusher, ok: bool, keys: seq<SlackKey>): (Shared, Flusher) {
    match f
    case AtTake => OnTake(s)
    case Writing(_, _, _) => OnWriting(s, f, ok)
    case AtToken => OnToken(s)
    case WritingToken(value) => OnWritingToken(s, value, ok)
    case AtSlack => OnSlack(s, keys)
    case WritingSlack(pairs, at) => OnWritingSlack(s, pairs, at, ok)
    case AtFinish => OnFinish(s)
    case Done => (s, Done)
  }

  // ----- runs

  ghost function Tick(s: Shared): Shared { s.(past := s.past.(clock := s.past.clock + 1)) }

  ghost function Apply(s: System, step: Step): System {
    if step.FlusherGoesOn? then
      if step.i >= |s.flushers| then s
      else
        var (shared, f) := Work(s.shared, s.flushers[step.i], step.ok, step.keys);
        System(Tick(shared), s.flushers[step.i := f])
    else
      var (shared, starts) := Act(s.shared, step);
      System(Tick(shared), if starts then s.flushers + [AtTake] else s.flushers)
  }

  ghost function Exec(s: System, steps: seq<Step>): System {
    if steps == [] then s else Apply(Exec(s, steps[..|steps| - 1]), steps[|steps| - 1])
  }

  // ----- one flush at a time, and none forgotten

  /** The newest flush worker. */
  ghost function Last(flushers: seq<Flusher>): Flusher {
    if flushers == [] then Done else flushers[|flushers| - 1]
  }

  /** `flushInFlight` says that a worker is alive or that the attach worker has the
      next flush to itself, never both. */
  ghost predicate OneFlush(s: Shared, last: Flusher) {
    && (WillFlush(s.attach) ==> last.Done?)
    && (s.inner.flushInFlight <==> WillFlush(s.attach) || !last.Done?)
    && (s.inner.flushInFlight ==> s.inner.phase == Ready)
    && (s.inner.phase == Ready && s.inner.flushPending ==> s.inner.flushInFlight)
    && (s.attach.Probing? || s.attach.HasRead? ==> s.inner.phase == Attaching)
  }

  /** Every request outside the memory-only mode is older than the newest snapshot, or noted. */
  ghost predicate Covered(s: Shared, last: Flusher) {
    && s.past.asked < s.past.clock && s.past.taken < s.past.clock && s.past.set_ < s.past.clock
    && s.past.wrote <= s.past.taken && s.past.failed < s.past.clock
    && (s.past.taken > 0 ==> s.inner.phase == Ready)
    && (s.inner.phase == MemoryOnly || s.past.asked <= s.past.taken || s.inner.flushPending
        || WillFlush(s.attach) || last.AtTake?)
  }

  /** The first `n` Telegram keys are in the keychain as the newest snapshot has them. */
  ghost predicate Written(s: Shared, n: nat) {
    && n <= |PERSISTENT|
    && forall j :: 0 <= j < n ==> Get(s.os.telegram, PERSISTENT[j]) == Get(s.past.snapshot, PERSISTENT[j])
  }

  ghost predicate Contents(s: Shared, last: Flusher) {
    && (last.Writing? ==>
          last.taken == s.past.taken && last.snapshot == s.past.snapshot && Written(s, last.at)
          && (s.past.complete <==> last.at == |PERSISTENT|))
    && (s.past.complete ==> Written(s, |PERSISTENT|))
    && (s.past.set_ < s.past.taken ==> s.past.snapshot == s.inner.values)
  }

  ghost predicate FlushOk(s: System) {
    && (forall i :: 0 <= i < |s.flushers| - 1 ==> s.flushers[i].Done?)
    && OneFlush(s.shared, Last(s.flushers))
    && Covered(s.shared, Last(s.flushers))
    && Contents(s.shared, Last(s.flushers))
  }

  lemma WorkOneFlush(s: Shared, f: Flusher, ok: bool, keys: seq<SlackKey>)
    requires OneFlush(s, f) && !f.Done?
    ensures var (after, next) := Work(s, f, ok, keys); OneFlush(Tick(after), next)
  {
  }

  lemma WorkCovered(s: Shared, f: Flusher, ok: bool, keys: seq<SlackKey>)
    requires OneFlush(s, f) && Covered(s, f) && !f.Done?
    requires f.Writing? ==> f.taken == s.past.taken
    ensures var (after, next) := Work(s, f, ok, keys); Covered(Tick(after), next)
  {
  }

  lemma WorkContents(s: Shared, f: Flusher, ok: bool, keys: seq<SlackKey>)
    requires OneFlush(s, f) && Covered(s, f) && Contents(s, f) && !f.Done?
    ensures var (after, next) := Work(s, f, ok, keys); Contents(Tick(after), next)
  {
    var (after, next) := Work(s, f, ok, keys);
    if f.Writing? && f.at < |PERSISTENT| && ok {
      assert forall j :: 0 <= j < f.at ==> PERSISTENT[j] != PERSISTENT[f.at];
      assert Written(after, f.at + 1);
      assert Written(Tick(after), f.at + 1);
    } else {
      assert Tick(after).os.telegram == s.os.telegram;
    }
  }

  lemma ActOneFlush(s: Shared, last: Flusher, step: Step)
    requires OneFlush(s, last)
    ensures var (after, starts) := Act(s, step);
            (starts ==> last.Done?) && OneFlush(Tick(after), if starts then AtTake else last)
  {
  }

  lemma ActContents(s: Shared, last: Flusher, step: Step)
    requires OneFlush(s, last) && Covered(s, last) && Contents(s, last)
    ensures var (after, starts) := Act(s, step); Contents(Tick(after), if starts then AtTake else last)
  {
    var (after, starts) := Act(s, step);
    assert Tick(after).os == s.os && Tick(after).past.snapshot == s.past.snapshot;
  }

  /** The worker that one step changes is the newest one. */
  lemma ApplyIs(s: System, step: Step)
    requires FlushOk(s)
    ensures !step.FlusherGoesOn? ==>
              var (after, starts) := Act(s.shared, step);
              && Apply(s, step).shared == Tick(after)
              && Last(Apply(s, step).flushers) == (if starts then AtTake else Last(s.flushers))
              && (starts ==> Last(s.flushers).Done?)
    ensures step.FlusherGoesOn? && step.i < |s.flushers| && !s.flushers[step.i].Done? ==>
              var (after, next) := Work(s.shared, Last(s.flushers), step.ok, step.keys);
              && Apply(s, step).shared == Tick(after) && Last(Apply(s, step).flushers) == next
              && !Last(s.flushers).Done?
    ensures step.FlusherGoesOn? && (step.i >= |s.flushers| || s.flushers[step.i].Done?) ==>
              && (Apply(s, step).shared == s.shared || Apply(s, step).shared == Tick(s.shared))
              && Last(Apply(s, step).flushers) == Last(s.flushers)
    ensures forall i :: 0 <= i < |Apply(s, step).flushers| - 1 ==> Apply(s, step).flushers[i].Done?
  {
    if !step.FlusherGoesOn? {
      ActOneFlush(s.shared, Last(s.flushers), step);
    }
  }

  lemma ApplyOk(s: System, step: Step)
    requires FlushOk(s)
    ensures FlushOk(Apply(s, step))
  {
    var last := Last(s.flushers);
    ApplyIs(s, step);
    if !step.FlusherGoesOn? {
      ActOneFlush(s.shared, last, step);
      ActContents(s.shared, last, step);
    } else if step.i < |s.flushers| && !s.flushers[step.i].Done? {
      WorkOneFlush(s.shared, last, step.ok, step.keys);
      WorkCovered(s.shared, last, step.ok, step.keys);
      WorkContents(s.shared, last, step.ok, step.keys);
    }
  }

  lemma {:induction false} ExecOk(os: Keychain, steps: seq<Step>)
    ensures FlushOk(Exec(Start(os), steps))
  {
    if steps != [] {
      ExecOk(os, steps[..|steps| - 1]);
      ApplyOk(Exec(Start(os), steps[..|steps| - 1]), steps[|steps| - 1]);
    }
  }

  // ----- the theorems, for every run

  lemma OneWriter(s: System, i: nat)
    requires FlushOk(s) && i < |s.flushers| && !s.flushers[i].Done?
    ensures i == |s.flushers| - 1
    ensures s.flushers[i].Writing? ==>
              s.flushers[i].taken == s.shared.past.taken && s.shared.past.wrote <= s.flushers[i].taken
  {
    assert s.flushers[i] == Last(s.flushers);
  }

  lemma AtRest(s: System)
    requires FlushOk(s) && s.shared.inner.phase == Ready && !s.shared.inner.flushInFlight
    ensures !s.shared.inner.flushPending && s.shared.past.asked <= s.shared.past.taken
    ensures forall i :: 0 <= i < |s.flushers| ==> s.flushers[i].Done?
    ensures s.shared.past.set_ < s.shared.past.taken && s.shared.past.complete ==>
              forall k :: k in PERSISTENT ==> Get(s.shared.os.telegram, k) == Get(s.shared.inner.values, k)
  {
    assert Last(s.flushers).Done?;
    forall k | k in PERSISTENT && s.shared.past.set_ < s.shared.past.taken && s.shared.past.complete
      ensures Get(s.shared.os.telegram, k) == Get(s.shared.inner.values, k)
    {
      var j :| 0 <= j < |PERSISTENT| && PERSISTENT[j] == k;
      assert Get(s.shared.os.telegram, PERSISTENT[j]) == Get(s.shared.past.snapshot, PERSISTENT[j]);
    }
  }

  /** At most one worker is alive, and it writes from the newest snapshot, which is not
      older than any snapshot written from before. */
  lemma OneWriterInOrder(os: Keychain, steps: seq<Step>, s: System, i: nat, j: nat)
    requires s == Exec(Start(os), steps)
    requires i < |s.flushers| && !s.flushers[i].Done? && j < |s.flushers| && !s.flushers[j].Done?
    ensures i == j
    ensures s.flushers[i].Writing? ==>
              s.flushers[i].taken == s.shared.past.taken && s.shared.past.wrote <= s.flushers[i].taken
  {
    ExecOk(os, steps);
    OneWriter(s, i);
    OneWriter(s, j);
  }

  /** With the store attached and no flush in flight, none is pending, every worker is
      done, and the newest snapshot is newer than every request so far, also those from
      before the store was attached and those that came while a flush ran. */
  lemma FlushesCoalesce(os: Keychain, steps: seq<Step>, s: System)
    requires s == Exec(Start(os), steps)
    requires s.shared.inner.phase == Ready && !s.shared.inner.flushInFlight
    ensures !s.shared.inner.flushPending
    ensures s.shared.past.asked <= s.shared.past.taken
    ensures forall i :: 0 <= i < |s.flushers| ==> s.flushers[i].Done?
  {
    ExecOk(os, steps);
    AtRest(s);
  }

  /** If also the last Telegram set came before the last request, and the newest
      snapshot was written in full, the keychain holds what memory holds. */
  lemma AskedMeansSaved(os: Keychain, steps: seq<Step>, s: System, k: SecretKey)
    requires s == Exec(Start(os), steps) && k in PERSISTENT
    requires s.shared.inner.phase == Ready && !s.shared.inner.flushInFlight
    requires s.shared.past.set_ < s.shared.past.asked && s.shared.past.complete
    ensures Get(s.shared.os.telegram, k) == Get(s.shared.inner.values, k)
  {
    ExecOk(os, steps);
    AtRest(s);
  }

  /** Only a memory-only store ignores a request, and only an attached store with no flush in
      flight starts a worker; any other request is noted for later. */
  lemma RequestNotLost(s: Inner)
    ensures var (after, action) := Asked(s);
            && (action == Ignore <==> s.phase == MemoryOnly)
            && (action == Spawn <==> s.phase == Ready && !s.flushInFlight)
            && (action == Defer ==> after.flushPending)
            && (s.phase == Ready ==> after.flushInFlight)
  {
  }

  // ----- the token and the Slack keys

  /** No set of it and no failed write since the newest snapshot. */
  ghost predicate Settled(s: Shared, set_: nat) {
    set_ < s.past.taken && s.past.failed < s.past.taken
  }

  /** What was set before the newest snapshot is dirty only until the worker gets to it. */
  ghost predicate Reaches(s: Shared, last: Flusher) {
    && s.past.tokenSet < s.past.clock && s.past.slackSet < s.past.clock
    && (s.inner.tokenDirty && Settled(s, s.past.tokenSet) ==> last.Writing? || last.AtToken?)
    && (s.inner.slackDirty != {} && Settled(s, s.past.slackSet) ==>
          last.Writing? || last.AtToken? || last.WritingToken? || last.AtSlack?)
  }

  lemma WorkReaches(s: Shared, f: Flusher, ok: bool, keys: seq<SlackKey>)
    requires OneFlush(s, f) && Covered(s, f) && Reaches(s, f) && !f.Done?
    ensures var (after, next) := Work(s, f, ok, keys); Reaches(Tick(after), next)
  {
  }

  lemma ActReaches(s: Shared, last: Flusher, step: Step)
    requires OneFlush(s, last) && Covered(s, last) && Reaches(s, last)
    ensures var (after, starts) := Act(s, step); Reaches(Tick(after), if starts then AtTake else last)
  {
    ActOneFlush(s, last, step);
  }

  lemma {:induction false} RunReaches(os: Keychain, steps: seq<Step>)
    ensures var s := Exec(Start(os), steps); Reaches(s.shared, Last(s.flushers))
  {
    if steps != [] {
      var before, step := Exec(Start(os), steps[..|steps| - 1]), steps[|steps| - 1];
      RunReaches(os, steps[..|steps| - 1]);
      ExecOk(os, steps[..|steps| - 1]);
      ApplyIs(before, step);
      if !step.FlusherGoesOn? {
        ActReaches(before.shared, Last(before.flushers), step);
      } else if step.i < |before.flushers| && !before.flushers[step.i].Done? {
        WorkReaches(before.shared, Last(before.flushers), step.ok, step.keys);
      }
    }
  }

  /** With the store attached and no flush in flight: a token that was set before the last
      request is not dirty, unless a write failed since the newest snapshot. The same for the
      Slack keys. */
  lemma AskedMeansFlushed(os: Keychain, steps: seq<Step>, s: System)
    requires s == Exec(Start(os), steps)
    requires s.shared.inner.phase == Ready && !s.shared.inner.flushInFlight
    requires s.shared.past.failed < s.shared.past.taken
    ensures s.shared.past.tokenSet < s.shared.past.asked ==> !s.shared.inner.tokenDirty
    ensures s.shared.past.slackSet < s.shared.past.asked ==> s.shared.inner.slackDirty == {}
  {
    ExecOk(os, steps);
    AtRest(s);
    RunReaches(os, steps);
    assert Last(s.flushers).Done?;
  }

  // ----- stores that never write

  /** A store that is not attached wrote nothing, and a memory-only store has no flush. */
  ghost predicate WritesOnlyReady(os: Keychain, s: Shared, last: Flusher) {
    && (s.inner.phase != Ready ==> s.os == os && last.Done?)
    && (s.inner.phase == MemoryOnly ==> !s.inner.flushPending && !s.inner.flushInFlight)
  }

  lemma {:induction false} RunWritesOnlyReady(os: Keychain, steps: seq<Step>)
    ensures var s := Exec(Start(os), steps); WritesOnlyReady(os, s.shared, Last(s.flushers))
  {
    if steps != [] {
      var before, step := Exec(Start(os), steps[..|steps| - 1]), steps[|steps| - 1];
      RunWritesOnlyReady(os, steps[..|steps| - 1]);
      ExecOk(os, steps[..|steps| - 1]);
      ApplyIs(before, step);
      if !step.FlusherGoesOn? {
        ActWritesOnlyReady(os, before.shared, Last(before.flushers), step);
      } else if step.i < |before.flushers| && !before.flushers[step.i].Done? {
        WorkWritesOnlyReady(os, before.shared, Last(before.flushers), step.ok, step.keys);
      }
    }
  }

  lemma ActWritesOnlyReady(os: Keychain, s: Shared, last: Flusher, step: Step)
    requires OneFlush(s, last) && WritesOnlyReady(os, s, last)
    ensures var (after, starts) := Act(s, step); WritesOnlyReady(os, Tick(after), if starts then AtTake else last)
  {
  }

  lemma WorkWritesOnlyReady(os: Keychain, s: Shared, f: Flusher, ok: bool, keys: seq<SlackKey>)
    requires OneFlush(s, f) && WritesOnlyReady(os, s, f) && !f.Done?
    ensures var (after, next) := Work(s, f, ok, keys); WritesOnlyReady(os, Tick(after), next)
  {
  }

  /** Every run: until the store is attached the keychain is as it was and no worker is alive,
      so a worker always finds the store attached. A memory-only store has no flush pending or
      in flight, and what was asked before it became one is forgotten. */
  lemma OnlyAttachedWrites(os: Keychain, steps: seq<Step>, s: System, i: nat)
    requires s == Exec(Start(os), steps) && s.shared.inner.phase != Ready
    ensures s.shared.os == os
    ensures i < |s.flushers| ==> s.flushers[i].Done?
    ensures s.shared.inner.phase == MemoryOnly ==> !s.shared.inner.flushPending && !s.shared.inner.flushInFlight
  {
    ExecOk(os, steps);
    RunWritesOnlyReady(os, steps);
    if i < |s.flushers| && !s.flushers[i].Done? { OneWriter(s, i); }
  }

  // ----- what is only for the sign-in

  /** The codes of a sign-in are in no list that a flush writes. */
  ghost predicate CodesStay(os: Keychain, s: Shared, last: Flusher) {
    && (forall k :: k !in PERSISTENT ==> Get(s.os.telegram, k) == Get(os.telegram, k))
    && (forall k :: !PersistToOs(k) ==> k !in s.inner.slackDirty && Get(s.os.slack, k) == Get(os.slack, k))
    && (last.WritingSlack? ==> forall i :: 0 <= i < |last.pairs| ==> PersistToOs(last.pairs[i].0))
  }

  lemma WorkKeepsCodes(os: Keychain, s: Shared, f: Flusher, ok: bool, keys: seq<SlackKey>)
    requires CodesStay(os, s, f)
    ensures var (after, next) := Work(s, f, ok, keys); CodesStay(os, Tick(after), next)
  {
    if f.WritingSlack? && f.at < |f.pairs| && !ok {
      assert forall k :: k in KeysFrom(f.pairs, f.at) ==> PersistToOs(k);
    }
  }

  lemma ActKeepsCodes(os: Keychain, s: Shared, last: Flusher, step: Step)
    requires CodesStay(os, s, last)
    ensures var (after, starts) := Act(s, step); CodesStay(os, Tick(after), if starts then AtTake else last)
  {
  }

  lemma {:induction false} RunKeepsCodes(os: Keychain, steps: seq<Step>)
    ensures var s := Exec(Start(os), steps); CodesStay(os, s.shared, Last(s.flushers))
  {
    if steps != [] {
      var before, step := Exec(Start(os), steps[..|steps| - 1]), steps[|steps| - 1];
      RunKeepsCodes(os, steps[..|steps| - 1]);
      ExecOk(os, steps[..|steps| - 1]);
      ApplyIs(before, step);
      if !step.FlusherGoesOn? {
        ActKeepsCodes(os, before.shared, Last(before.flushers), step);
      } else if step.i < |before.flushers| && !before.flushers[step.i].Done? {
        WorkKeepsCodes(os, before.shared, Last(before.flushers), step.ok, step.keys);
      }
    }
  }

  /** Every run: the phone number, the login code and the password of Telegram, and the code
      and the state of a Slack sign-in, never change in the keychain. */
  lemma SignInStaysInMemory(os: Keychain, steps: seq<Step>)
    ensures var s := Exec(Start(os), steps).shared;
            && (forall k :: k in {Phone, Code, Password} ==> Get(s.os.telegram, k) == Get(os.telegram, k))
            && (forall k :: k in {OAuthCode, OAuthState} ==> Get(s.os.slack, k) == Get(os.slack, k))
  {
    RunKeepsCodes(os, steps);
  }

  // ----- what a set leaves in memory

  /** The last value that the run set for a Telegram key. */
  ghost function LastSet(steps: seq<Step>, k: SecretKey): Option<string> {
    if steps == [] then None
    else
      var last := steps[|steps| - 1];
      if last.SetSecretTo? && last.key == k then Some(last.value) else LastSet(steps[..|steps| - 1], k)
  }

  /** A set key has its value, and stays dirty until the store is attached. */
  ghost predicate HasSet(s: Shared, k: SecretKey, raw: Option<string>) {
    raw.Some? ==> Get(s.inner.values, k) == Kept(raw.value) && (s.inner.phase != Ready ==> k in s.inner.dirty)
  }

  /** Every step but a set and the ready step of the attach worker. */
  ghost predicate LeavesSet(s: Inner, after: Inner) {
    && after.values == s.values && after.dirty == s.dirty
    && (s.phase == Ready ==> after.phase == Ready)
  }

  lemma WorkKeepsSet(s: Shared, f: Flusher, ok: bool, keys: seq<SlackKey>)
    ensures LeavesSet(s.inner, Work(s, f, ok, keys).0.inner)
  {
  }

  lemma AttachKeepsSet(s: Shared, k: SecretKey, raw: Option<string>)
    requires HasSet(s, k, raw) && (s.attach.HasRead? ==> s.inner.phase == Attaching)
    ensures HasSet(AttachOn(s), k, raw)
  {
    if s.attach.HasRead? && s.attach.telegram.Some? {
      ReadyKeepsDirty(s.inner, s.attach.telegram.value, k);
    }
  }

  lemma ActKeepsSet(s: Shared, last: Flusher, step: Step)
    requires OneFlush(s, last) && !step.AttachGoesOn? && !step.SetSecretTo?
    ensures LeavesSet(s.inner, Act(s, step).0.inner)
  {
  }

  lemma StepKeepsSet(s: System, step: Step, k: SecretKey, raw: Option<string>)
    requires FlushOk(s) && HasSet(s.shared, k, raw)
    ensures HasSet(Apply(s, step).shared, k,
                   if step.SetSecretTo? && step.key == k then Some(step.value) else raw)
  {
    if step.FlusherGoesOn? {
      if step.i < |s.flushers| { WorkKeepsSet(s.shared, s.flushers[step.i], step.ok, step.keys); }
    } else if step.AttachGoesOn? {
      AttachKeepsSet(s.shared, k, raw);
    } else if !step.SetSecretTo? {
      ActKeepsSet(s.shared, Last(s.flushers), step);
    }
  }

  /** Memory has for a Telegram key what was last set for it, trimmed, in every run: neither
      an attach nor a flush, whatever fails, puts an older value in its place. */
  lemma {:induction false} NoTelegramSetIsUndone(os: Keychain, steps: seq<Step>, k: SecretKey)
    ensures HasSet(Exec(Start(os), steps).shared, k, LastSet(steps, k))
    ensures LastSet(steps, k).Some?
            ==> Get(Exec(Start(os), steps).shared.inner.values, k) == Kept(LastSet(steps, k).value)
  {
    if steps != [] {
      NoTelegramSetIsUndone(os, steps[..|steps| - 1], k);
      ExecOk(os, steps[..|steps| - 1]);
      StepKeepsSet(Exec(Start(os), steps[..|steps| - 1]), steps[|steps| - 1], k, LastSet(steps[..|steps| - 1], k));
    }
  }
}
