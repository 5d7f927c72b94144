/** The secret store: what each call does under the store's lock
    (crates/thinwire-core/src/secrets.rs). */
module Secrets {
  import opened Wrappers

  datatype SecretKey = ApiId | ApiHash | Phone | Code | Password | Session | DbEncryption

  /** The Telegram keys that a flush writes, in the order it writes them. */
  const PERSISTENT: seq<SecretKey> := [ApiId, ApiHash, Session, DbEncryption]

  datatype SlackKey =
    | ClientId | ClientSecret | AppToken | BotToken | TeamId | AppId | OAuthCode | OAuthState

  predicate PersistToOs(key: SlackKey) { !key.OAuthCode? && !key.OAuthState? }

  datatype Phase = Detached | Attaching | Ready | MemoryOnly | ReadFailed

  datatype FlushAction = Spawn | Defer | Ignore

  // ----- trimming

  /** White space of Unicode, which `str::trim` takes off. */
  predicate IsSpace(c: char) {
    || '\t' <= c <= '\r' || c == ' ' || c == '\U{0085}' || c == '\U{00A0}' || c == '\U{1680}'
    || '\U{2000}' <= c <= '\U{200A}' || c == '\U{2028}' || c == '\U{2029}' || c == '\U{202F}'
    || c == '\U{205F}' || c == '\U{3000}'
  }

  function TrimStart(text: string): string {
    if text != "" && IsSpace(text[0]) then TrimStart(text[1..]) else text
  }

  function TrimEnd(text: string): string {
    if text != "" && IsSpace(text[|text| - 1]) then TrimEnd(text[..|text| - 1]) else text
  }

  function Trim(text: string): string { TrimEnd(TrimStart(text)) }

  /** What memory holds for a raw value: nothing for a blank one. */
  function Kept(raw: string): Option<string> {
    if Trim(raw) == "" then None else Some(Trim(raw))
  }

  lemma {:induction false} TrimEndFacts(text: string)
    ensures TrimEnd(text) <= text
    ensures TrimEnd(text) != "" ==> !IsSpace(TrimEnd(text)[|TrimEnd(text)| - 1])
  {
    if text != "" && IsSpace(text[|text| - 1]) { TrimEndFacts(text[..|text| - 1]); }
  }

  lemma {:induction false} TrimStartFacts(text: string)
    ensures TrimStart(text) != "" ==> !IsSpace(TrimStart(text)[0])
  {
    if text != "" && IsSpace(text[0]) { TrimStartFacts(text[1..]); }
  }

  predicate IsBlank(text: string) {
    forall c :: c in text ==> IsSpace(c)
  }

  lemma {:induction false} TrimEndTakes(text: string) returns (trail: string)
    ensures text == TrimEnd(text) + trail && IsBlank(trail)
  {
    if text != "" && IsSpace(text[|text| - 1]) {
      trail := TrimEndTakes(text[..|text| - 1]);
      trail := trail + [text[|text| - 1]];
    } else {
      trail := "";
    }
  }

  lemma {:induction false} TrimStartTakes(text: string) returns (lead: string)
    ensures text == lead + TrimStart(text) && IsBlank(lead)
  {
    if text != "" && IsSpace(text[0]) {
      lead := TrimStartTakes(text[1..]);
      lead := [text[0]] + lead;
    } else {
      lead := "";
    }
  }

  /** Trimming takes white space off both ends, all of it, and nothing else. */
  lemma TrimExactly(text: string) returns (lead: string, trail: string)
    ensures text == lead + Trim(text) + trail && IsBlank(lead) && IsBlank(trail)
    ensures Trim(text) != "" ==> !IsSpace(Trim(text)[0]) && !IsSpace(Trim(text)[|Trim(text)| - 1])
  {
    lead := TrimStartTakes(text);
    trail := TrimEndTakes(TrimStart(text));
    TrimStartFacts(text);
    TrimEndFacts(TrimStart(text));
  }

  /** A blank value is no value. */
  lemma KeptExactly(raw: string)
    ensures Kept(raw).None? <==> IsBlank(raw)
    ensures Kept(raw).Some? ==> Kept(raw).value == Trim(raw)
  {
    var lead, trail := TrimExactly(raw);
    if Trim(raw) == "" {
      assert raw == lead + trail;
    } else {
      assert raw[|lead|] == Trim(raw)[0];
      assert raw[|lead|] in raw;
    }
  }

  /** A value that memory kept is what memory keeps when it reads it back. */
  lemma KeptAgain(raw: string)
    ensures Kept(raw).Some? ==> Kept(Kept(raw).value) == Kept(raw)
  {
    TrimStartFacts(raw);
    TrimEndFacts(TrimStart(raw));
  }

  // ----- the state under the lock

  datatype Inner = Inner(
    values: map<SecretKey, string>, dirty: set<SecretKey>,
    token: Option<string>, tokenDirty: bool,
    slack: map<SlackKey, string>, slackDirty: set<SlackKey>,
    flushPending: bool, flushInFlight: bool, phase: Phase)

  const BLANK := Inner(map[], {}, None, false, map[], {}, false, false, Detached)

  function Get<K>(values: map<K, string>, key: K): Option<string> {
    if key in values then Some(values[key]) else None
  }

  function Put<K>(values: map<K, string>, key: K, value: Option<string>): map<K, string> {
    match value
    case Some(v) => values[key := v]
    case None => values - {key}
  }

  function SetSecret(s: Inner, key: SecretKey, value: string): Inner {
    s.(values := Put(s.values, key, Kept(value)), dirty := s.dirty + {key})
  }

  function SetToken(s: Inner, value: string): Inner {
    s.(token := Kept(value), tokenDirty := true)
  }

  function SetSlack(s: Inner, key: SlackKey, value: string): Inner {
    s.(slack := Put(s.slack, key, Kept(value)),
       slackDirty := if PersistToOs(key) then s.slackDirty + {key} else s.slackDirty)
  }

  function Asked(s: Inner): (Inner, FlushAction) {
    match s.phase
    case Ready =>
      if s.flushInFlight then (s.(flushPending := true), Defer) else (s.(flushInFlight := true), Spawn)
    case MemoryOnly => (s, Ignore)
    case _ => (s.(flushPending := true), Defer)
  }

  /** Take over what the OS holds, but not for a dirty key. */
  function Merged<K>(values: map<K, string>, read: map<K, string>, dirty: set<K>): map<K, string> {
    map k | k in values.Keys + read.Keys
            && (if k in read && k !in dirty then Kept(read[k]).Some? else k in values)
      :: if k in read && k !in dirty then Kept(read[k]).value else values[k]
  }

  lemma MergedStep<K>(values: map<K, string>, read: map<K, string>, dirty: set<K>, key: K)
    requires key in read
    ensures var next := if key in dirty then values else Put(values, key, Kept(read[key]));
            Merged(next, read - {key}, dirty) == Merged(values, read, dirty)
  {
  }

  lemma MergedNone<K>(values: map<K, string>, dirty: set<K>)
    ensures Merged(values, map[], dirty) == values
  {
  }

  predicate ShouldFlush(s: Inner) {
    s.flushPending || s.dirty != {} || s.tokenDirty || s.slackDirty != {}
  }

  function FinishReady(s: Inner, os: map<SecretKey, string>): Inner {
    s.(values := Merged(s.values, os, s.dirty), phase := Ready, flushPending := false, dirty := {},
       flushInFlight := if ShouldFlush(s) then true else s.flushInFlight)
  }

  function FinishMemoryOnly(s: Inner): Inner {
    s.(phase := MemoryOnly, flushPending := false, flushInFlight := false)
  }

  datatype TokenRead = TokenError | TokenOk(raw: Option<string>)

  function HydrateToken(s: Inner, read: TokenRead): Inner {
    if s.tokenDirty || read.TokenError? || read.raw.None? then s else s.(token := Kept(read.raw.value))
  }

  function HydrateSlack(s: Inner, read: map<SlackKey, string>): Inner {
    s.(slack := Merged(s.slack, read, s.slackDirty))
  }

  function TakeSnapshot(s: Inner): (Inner, bool) {
    if s.phase != Ready then (s.(flushInFlight := false, flushPending := false), false)
    else (s.(flushPending := false), true)
  }

  function FinishCycle(s: Inner): (Inner, bool) {
    if s.phase == Ready && s.flushPending then (s.(flushPending := false), true)
    else (s.(flushInFlight := false), false)
  }

  predicate FlushesToken(s: Inner) { s.phase == Ready && s.tokenDirty }

  predicate FlushesSlack(s: Inner) { s.phase == Ready && s.slackDirty != {} }

  type SlackPairs = seq<(SlackKey, Option<string>)>

  /** The dirty keys with their values, in the order `keys`. */
  function PairsOf(slack: map<SlackKey, string>, keys: seq<SlackKey>): (r: SlackPairs)
    ensures |r| == |keys| && forall i :: 0 <= i < |keys| ==> r[i] == (keys[i], Get(slack, keys[i]))
  {
    seq(|keys|, i requires 0 <= i < |keys| => (keys[i], Get(slack, keys[i])))
  }

  function KeysFrom(pairs: SlackPairs, at: nat): set<SlackKey> {
    set i | at <= i < |pairs| :: pairs[i].0
  }

  /** `keys` lists the dirty keys once, in any order. */
  ghost predicate Drains(keys: seq<SlackKey>, dirty: set<SlackKey>) {
    && (forall k :: k in keys <==> k in dirty)
    && (forall i, j :: 0 <= i < j < |keys| ==> keys[i] != keys[j])
  }

  // ----- what a hydrate may change

  /** A hydrate never changes a dirty key, nor a key that the OS does not have. */
  lemma HydrateKeepsDirty(s: Inner, read: map<SlackKey, string>, token: TokenRead, k: SlackKey)
    ensures k in s.slackDirty || k !in read ==> Get(HydrateSlack(s, read).slack, k) == Get(s.slack, k)
    ensures k !in s.slackDirty && k in read ==> Get(HydrateSlack(s, read).slack, k) == Kept(read[k])
    ensures s.tokenDirty ==> HydrateToken(s, token).token == s.token
  {
  }

  lemma ReadyKeepsDirty(s: Inner, os: map<SecretKey, string>, k: SecretKey)
    ensures k in s.dirty || k !in os ==> Get(FinishReady(s, os).values, k) == Get(s.values, k)
    ensures k !in s.dirty && k in os ==> Get(FinishReady(s, os).values, k) == Kept(os[k])
    ensures FinishReady(s, os).phase == Ready && FinishReady(s, os).dirty == {}
  {
  }

  /** The store of the source. Each method is one locked section. */
  class SecretStore {
    var values: map<SecretKey, string>
    var dirty: set<SecretKey>
    var token: Option<string>
    var tokenDirty: bool
    var slack: map<SlackKey, string>
    var slackDirty: set<SlackKey>
    var flushPending: bool
    var flushInFlight: bool
    var phase: Phase

    ghost function View(): Inner
      reads this
    {
      Inner(values, dirty, token, tokenDirty, slack, slackDirty, flushPending, flushInFlight, phase)
    }

    constructor ()
      ensures View() == BLANK
    {
      values, dirty, token, tokenDirty := map[], {}, None, false;
      slack, slackDirty := map[], {};
      flushPending, flushInFlight, phase := false, false, Detached;
    }

    method Set(key: SecretKey, value: string)
      modifies this
      ensures View() == SetSecret(old(View()), key, value)
    {
      var trimmed := Trim(value);
      values := if trimmed == "" then values - {key} else values[key := trimmed];
      dirty := dirty + {key};
    }

    method SetDiscordToken(value: string)
      modifies this
      ensures View() == SetToken(old(View()), value)
    {
      var trimmed := Trim(value);
      token := if trimmed == "" then None else Some(trimmed);
      tokenDirty := true;
    }

    method SetSlackSecret(key: SlackKey, value: string)
      modifies this
      ensures View() == SetSlack(old(View()), key, value)
    {
      var trimmed := Trim(value);
      slack := if trimmed == "" then slack - {key} else slack[key := trimmed];
      if PersistToOs(key) { slackDirty := slackDirty + {key}; }
    }

    method RequestFlush() returns (action: FlushAction)
      modifies this
      ensures (View(), action) == Asked(old(View()))
    {
      match phase {
        case Ready =>
          if flushInFlight {
            flushPending := true;
            return Defer;
          }
          flushInFlight := true;
          return Spawn;
        case MemoryOnly => return Ignore;
        case _ =>
          flushPending := true;
          return Defer;
      }
    }

    /** The loop of both merges: each OS value in turn, dirty keys skipped. */
    static method TakeOver<K(==)>(values: map<K, string>, read: map<K, string>, dirty: set<K>)
      returns (merged: map<K, string>)
      ensures merged == Merged(values, read, dirty)
    {
      merged := values;
      var left := read;
      while left != map[]
        invariant Merged(merged, left, dirty) == Merged(values, read, dirty)
        decreases |left|
      {
        var key :| key in left;
        MergedStep(merged, left, dirty, key);
        if key !in dirty {
          var trimmed := Trim(left[key]);
          merged := if trimmed == "" then merged - {key} else merged[key := trimmed];
        }
        left := left - {key};
      }
      MergedNone(merged, dirty);
    }

    /** Merge what the OS holds; dirty keys win. Says whether a flush must follow. */
    method SettleReady(os: map<SecretKey, string>) returns (shouldFlush: bool)
      modifies this
      ensures View() == FinishReady(old(View()), os) && shouldFlush == ShouldFlush(old(View()))
    {
      values := TakeOver(values, os, dirty);
      phase := Ready;
      shouldFlush := flushPending || dirty != {} || tokenDirty || slackDirty != {};
      flushPending := false;
      dirty := {};
      if shouldFlush { flushInFlight := true; }
    }

    method SettleMemoryOnly()
      modifies this
      ensures View() == FinishMemoryOnly(old(View()))
    {
      phase, flushPending, flushInFlight := MemoryOnly, false, false;
    }

    method StoreHydratedToken(read: TokenRead)
      modifies this
      ensures View() == HydrateToken(old(View()), read)
    {
      if tokenDirty { return; }
      match read {
        case TokenOk(Some(raw)) =>
          var trimmed := Trim(raw);
          token := if trimmed == "" then None else Some(trimmed);
        case _ =>
      }
    }

    method StoreHydratedSlack(read: map<SlackKey, string>)
      modifies this
      ensures View() == HydrateSlack(old(View()), read)
    {
      slack := TakeOver(slack, read, slackDirty);
    }

    /** `None` when the store is not attached: the flush ends. */
    method TakeFlushSnapshot() returns (snapshot: Option<map<SecretKey, string>>)
      modifies this
      ensures (View(), snapshot.Some?) == TakeSnapshot(old(View()))
      ensures snapshot.Some? ==> snapshot.value == values
    {
      if phase != Ready {
        flushInFlight, flushPending := false, false;
        return None;
      }
      flushPending := false;
      snapshot := Some(values);
    }

    /** Says whether the worker goes round again for a request that came meanwhile. */
    method FinishFlushCycle() returns (again: bool)
      modifies this
      ensures (View(), again) == FinishCycle(old(View()))
    {
      if phase == Ready && flushPending {
        flushPending := false;
        return true;
      }
      flushInFlight := false;
      again := false;
    }

    method DrainSlack() returns (pairs: Option<SlackPairs>, ghost keys: seq<SlackKey>)
      modifies this`slackDirty
      ensures pairs.Some? == FlushesSlack(old(View()))
      ensures pairs.None? ==> slackDirty == old(slackDirty)
      ensures pairs.Some? ==> slackDirty == {} && Drains(keys, old(slackDirty)) && pairs.value == PairsOf(slack, keys)
    {
      keys := [];
      if phase != Ready || slackDirty == {} { return None, []; }
      var listed: seq<SlackKey> := [];
      while slackDirty != {}
        invariant slackDirty <= old(slackDirty)
        invariant forall k :: k in listed <==> k in old(slackDirty) && k !in slackDirty
        invariant forall i, j :: 0 <= i < j < |listed| ==> listed[i] != listed[j]
        decreases slackDirty
      {
        var key :| key in slackDirty;
        listed := listed + [key];
        slackDirty := slackDirty - {key};
      }
      keys := listed;
      pairs := Some(PairsOf(slack, listed));
    }

    /** A write failed: its key and the ones after it are dirty again. */
    method RequeueSlack(pairs: SlackPairs, at: nat)
      requires at <= |pairs|
      modifies this`slackDirty
      ensures slackDirty == old(slackDirty) + KeysFrom(pairs, at)
    {
      var i := at;
      while i < |pairs|
        invariant at <= i <= |pairs|
        invariant slackDirty == old(slackDirty) + set j | at <= j < i :: pairs[j].0
      {
        slackDirty := slackDirty + {pairs[i].0};
        i := i + 1;
      }
    }
  }
}
