/** The chats muted in thinwire and the text of their file
    (crates/thinwire-core/src/mutes.rs). */
module Mutes {
  import opened Wrappers
  import opened Accounts
  import opened Persist

  /** In two pieces, because the verifier does not look into a literal of this length. */
  const HEADER: string := "# Chats muted in thinwire. One " + "'<protocol> <conversation_id>' per line."

  type Chats = map<ProtocolId, set<string>>

  predicate Contains(chats: Chats, protocol: ProtocolId, id: string) {
    protocol in chats && id in chats[protocol]
  }

  function Added(chats: Chats, protocol: ProtocolId, id: string): Chats {
    chats[protocol := (if protocol in chats then chats[protocol] else {}) + {id}]
  }

  // ----- the text

  /** The pieces between the line feeds. */
  function SplitLines(text: string): seq<string>
    decreases |text|
  {
    match SplitOnce(text, '\n')
    case None => [text]
    case Some(parts) => [parts.0] + SplitLines(parts.1)
  }

  /** Each line with its line feed. */
  function Unlines(lines: seq<string>): string {
    if lines == [] then "" else Unlines(lines[..|lines| - 1]) + lines[|lines| - 1] + "\n"
  }

  function IsBlank(line: string): bool {
    line == "" || ((line[0] == ' ' || line[0] == '\t' || line[0] == '\n' || line[0] == '\r' || line[0] == '\U{000C}')
                   && IsBlank(line[1..]))
  }

  function WithoutReturn(line: string): string {
    if line != "" && line[|line| - 1] == '\r' then line[..|line| - 1] else line
  }

  /** The entry of a line, or nothing for a line that is skipped. */
  function ParseLine(raw: string): Option<(ProtocolId, string)> {
    var line := WithoutReturn(raw);
    if IsBlank(line) || line[0] == '#' then None
    else
      match SplitOnce(line, ' ')
      case None => None
      case Some(parts) =>
        match FromKey(parts.0)
        case None => None
        case Some(protocol) => if parts.1 == "" then None else Some((protocol, parts.1))
  }

  type Entries = seq<Option<(ProtocolId, string)>>

  function EntriesOf(lines: seq<string>): (r: Entries)
    ensures |r| == |lines| && forall i :: 0 <= i < |lines| ==> r[i] == ParseLine(lines[i])
  {
    seq(|lines|, i requires 0 <= i < |lines| => ParseLine(lines[i]))
  }

  /** The mutes that the entries name. */
  function Collected(entries: Entries): Chats {
    if entries == [] then map[]
    else
      var before := Collected(entries[..|entries| - 1]);
      match entries[|entries| - 1]
      case None => before
      case Some((protocol, id)) => Added(before, protocol, id)
  }

  function ParseLines(lines: seq<string>): Chats { Collected(EntriesOf(lines)) }

  lemma CollectedNext(lines: seq<string>, i: nat)
    requires i < |lines|
    ensures var before, entry := Collected(EntriesOf(lines)[..i]), ParseLine(lines[i]);
            Collected(EntriesOf(lines)[..i + 1])
            == if entry.None? then before else Added(before, entry.value.0, entry.value.1)
  {
    var entries := EntriesOf(lines);
    assert entries[..i + 1][..i] == entries[..i] && entries[..i + 1][i] == entries[i];
  }

  method Parse(contents: string) returns (chats: Chats)
    ensures chats == ParseLines(SplitLines(contents))
  {
    chats := map[];
    var lines := SplitLines(contents);
    for i := 0 to |lines|
      invariant chats == Collected(EntriesOf(lines)[..i])
    {
      CollectedNext(lines, i);
      var entry := ParseLine(lines[i]);
      if entry.Some? { chats := Added(chats, entry.value.0, entry.value.1); }
    }
    assert EntriesOf(lines)[..|lines|] == EntriesOf(lines);
  }

  function LineOf(protocol: ProtocolId, id: string): string {
    Key(protocol) + " " + id
  }

  predicate OneLine(id: string) {
    '\n' !in id && '\r' !in id
  }

  // ----- the order of the file

  /** The order of strings by their characters. */
  predicate Leq(a: string, b: string) {
    a == "" || (b != "" && (a[0] < b[0] || (a[0] == b[0] && Leq(a[1..], b[1..]))))
  }

  lemma {:induction false} LeqTotal(a: string, b: string)
    ensures Leq(a, b) || Leq(b, a)
    ensures Leq(a, b) && Leq(b, a) ==> a == b
  {
    if a != "" && b != "" && a[0] == b[0] {
      LeqTotal(a[1..], b[1..]);
      assert a == [a[0]] + a[1..] && b == [b[0]] + b[1..];
    }
  }

  lemma {:induction false} LeqTransitive(a: string, b: string, c: string)
    requires Leq(a, b) && Leq(b, c)
    ensures Leq(a, c)
  {
    if a != "" && a[0] == b[0] && b[0] == c[0] { LeqTransitive(a[1..], b[1..], c[1..]); }
  }

  ghost predicate IsMin(m: string, ids: set<string>) {
    m in ids && forall x :: x in ids ==> Leq(m, x)
  }

  lemma {:induction false} HasMin(ids: set<string>) returns (m: string)
    requires ids != {}
    ensures IsMin(m, ids)
    decreases |ids|
  {
    var x :| x in ids;
    LeqTotal(x, x);
    if ids == {x} {
      m := x;
    } else {
      var rest := HasMin(ids - {x});
      LeqTotal(x, rest);
      m := if Leq(x, rest) then x else rest;
      forall y | y in ids ensures Leq(m, y) {
        if y != x && m == x { LeqTransitive(x, rest, y); }
      }
    }
  }

  lemma MinExists(ids: set<string>)
    requires ids != {}
    ensures exists m :: IsMin(m, ids)
  {
    var m := HasMin(ids);
  }

  /** The ids in their order, each once. */
  ghost function SortedIds(ids: set<string>): seq<string>
    decreases |ids|
  {
    if ids == {} then []
    else
      MinExists(ids);
      var m :| IsMin(m, ids);
      [m] + SortedIds(ids - {m})
  }

  lemma SortedIdsFirst(ids: set<string>) returns (m: string)
    requires ids != {}
    ensures IsMin(m, ids) && SortedIds(ids) == [m] + SortedIds(ids - {m})
  {
    m := SortedIds(ids)[0];
  }

  lemma {:induction false} SortedIdsFacts(ids: set<string>)
    ensures forall id :: id in SortedIds(ids) <==> id in ids
    decreases |ids|
  {
    if ids != {} {
      var m := SortedIdsFirst(ids);
      SortedIdsFacts(ids - {m});
    }
  }

  /** The order of the file: no id comes before a smaller one, or twice. */
  lemma {:induction false} SortedIdsOrder(ids: set<string>, i: nat, j: nat)
    requires i < j < |SortedIds(ids)|
    ensures Leq(SortedIds(ids)[i], SortedIds(ids)[j]) && SortedIds(ids)[i] != SortedIds(ids)[j]
    decreases |ids|
  {
    var m := SortedIdsFirst(ids);
    SortedIdsFacts(ids - {m});
    if i > 0 {
      SortedIdsOrder(ids - {m}, i - 1, j - 1);
    } else {
      assert SortedIds(ids)[j] in SortedIds(ids - {m});
    }
  }

  lemma SortedIdsNext(ids: set<string>, m: string)
    requires IsMin(m, ids)
    ensures SortedIds(ids) == [m] + SortedIds(ids - {m})
  {
    var other := SortedIds(ids)[0];
    assert IsMin(other, ids);
    LeqTotal(m, other);
  }

  method SortIds(ids: set<string>) returns (sorted: seq<string>)
    ensures sorted == SortedIds(ids)
  {
    sorted := [];
    var left := ids;
    while left != {}
      invariant sorted + SortedIds(left) == SortedIds(ids)
      decreases left
    {
      var m := Smallest(left);
      SortedIdsNext(left, m);
      sorted := sorted + [m];
      left := left - {m};
    }
  }

  method Smallest(ids: set<string>) returns (m: string)
    requires ids != {}
    ensures IsMin(m, ids)
  {
    m :| m in ids;
    LeqTotal(m, m);
    var left := ids - {m};
    while left != {}
      invariant left <= ids && m in ids
      invariant forall x :: x in ids - left ==> Leq(m, x)
      decreases left
    {
      var x :| x in left;
      LeqTotal(x, x);
      if !Leq(m, x) {
        LeqTotal(x, m);
        forall y | y in ids - left ensures Leq(x, y) { LeqTransitive(x, m, y); }
        m := x;
      }
      left := left - {x};
    }
  }

  /** The accounts in the order of the protocols, then of the account numbers. */
  const ACCOUNTS := 5 * (MAX_ACCOUNT_SLOT + 1)

  function AccountAt(n: nat): ProtocolId
    requires n < ACCOUNTS
  {
    ProtocolId([Telegram, WhatsApp, Discord, Slack, Signal][n / (MAX_ACCOUNT_SLOT + 1)], n % (MAX_ACCOUNT_SLOT + 1))
  }

  function PlaceOf(protocol: ProtocolId): (n: nat)
    ensures n < ACCOUNTS && AccountAt(n) == protocol
  {
    (match protocol.kind
     case Telegram => 0
     case WhatsApp => 1
     case Discord => 2
     case Slack => 3
     case Signal => 4) * (MAX_ACCOUNT_SLOT + 1) + protocol.slot
  }

  function FileOrder(): seq<ProtocolId> {
    seq(ACCOUNTS, n requires 0 <= n < ACCOUNTS => AccountAt(n))
  }

  /** The file has room for every account. */
  lemma InFileOrder(protocol: ProtocolId)
    ensures protocol in FileOrder()
  {
    assert FileOrder()[PlaceOf(protocol)] == protocol;
  }

  // ----- the file

  function IdLines(protocol: ProtocolId, ids: seq<string>): seq<string> {
    if ids == [] then []
    else
      var before := IdLines(protocol, ids[..|ids| - 1]);
      if OneLine(ids[|ids| - 1]) then before + [LineOf(protocol, ids[|ids| - 1])] else before
  }

  /** The lines of the accounts, in their order. */
  ghost function AccountLines(chats: Chats, accounts: seq<ProtocolId>): seq<string> {
    if accounts == [] then []
    else AccountLines(chats, accounts[..|accounts| - 1]) + LinesAt(chats, accounts[|accounts| - 1])
  }

  ghost function LinesAt(chats: Chats, protocol: ProtocolId): seq<string> {
    if protocol in chats then IdLines(protocol, SortedIds(chats[protocol])) else []
  }

  ghost function FileOf(chats: Chats): string {
    Unlines([HEADER] + AccountLines(chats, FileOrder()))
  }

  lemma UnlinesConcat(a: seq<string>, line: string)
    ensures Unlines(a + [line]) == Unlines(a) + line + "\n"
  {
    assert (a + [line])[..|a|] == a;
  }

  lemma AccountLinesNext(chats: Chats, accounts: seq<ProtocolId>, n: nat)
    requires n < |accounts|
    ensures [HEADER] + AccountLines(chats, accounts[..n + 1])
            == ([HEADER] + AccountLines(chats, accounts[..n])) + LinesAt(chats, accounts[n])
  {
    assert accounts[..n + 1][..n] == accounts[..n];
  }

  method Render(chats: Chats) returns (text: string)
    ensures text == FileOf(chats)
  {
    var accounts := FileOrder();
    text := HEADER + "\n";
    UnlinesConcat([], HEADER);
    assert [] + [HEADER] == [HEADER] + AccountLines(chats, accounts[..0]);
    for n := 0 to |accounts|
      invariant text == Unlines([HEADER] + AccountLines(chats, accounts[..n]))
    {
      AccountLinesNext(chats, accounts, n);
      text := RenderAccount(chats, accounts[n], text, [HEADER] + AccountLines(chats, accounts[..n]));
    }
    assert accounts[..|accounts|] == accounts;
  }

  method RenderAccount(chats: Chats, protocol: ProtocolId, before: string, ghost lines: seq<string>)
    returns (text: string)
    requires before == Unlines(lines)
    ensures text == Unlines(lines + LinesAt(chats, protocol))
  {
    if protocol in chats {
      var sorted := SortIds(chats[protocol]);
      text := RenderIds(protocol, sorted, before, lines);
    } else {
      text := before;
      assert lines + LinesAt(chats, protocol) == lines;
    }
  }

  method RenderIds(protocol: ProtocolId, sorted: seq<string>, before: string, ghost lines: seq<string>)
    returns (text: string)
    requires before == Unlines(lines)
    ensures text == Unlines(lines + IdLines(protocol, sorted))
  {
    text := before;
    assert lines + [] == lines;
    for i := 0 to |sorted|
      invariant text == Unlines(lines + IdLines(protocol, sorted[..i]))
    {
      assert sorted[..i + 1][..i] == sorted[..i];
      var id := sorted[i];
      if OneLine(id) {
        UnlinesConcat(lines + IdLines(protocol, sorted[..i]), LineOf(protocol, id));
        assert lines + IdLines(protocol, sorted[..i + 1])
               == (lines + IdLines(protocol, sorted[..i])) + [LineOf(protocol, id)];
        text := text + Key(protocol) + " " + id + "\n";
      }
    }
    assert sorted[..|sorted|] == sorted;
  }

  // ----- reading the file back

  /** What the file keeps: ids that are one line and not empty. */
  predicate Savable(id: string) { id != "" && OneLine(id) }

  function Saved(chats: Chats): Chats {
    map p | p in chats && (exists id :: id in chats[p] && Savable(id)) :: set id | id in chats[p] && Savable(id)
  }

  lemma {:induction false} UnlinesFront(line: string, rest: seq<string>)
    ensures Unlines([line] + rest) == line + "\n" + Unlines(rest)
  {
    var all := [line] + rest;
    if rest == [] {
      assert all[..0] == [];
    } else {
      var n := |rest| - 1;
      UnlinesFront(line, rest[..n]);
      assert all[..|all| - 1] == [line] + rest[..n] && all[|all| - 1] == rest[n];
    }
  }

  lemma {:induction false} SplitUnlines(lines: seq<string>)
    requires NoFeeds(lines)
    ensures SplitLines(Unlines(lines)) == lines + [""]
  {
    if lines != [] {
      var rest := Unlines(lines[1..]);
      assert lines == [lines[0]] + lines[1..];
      UnlinesFront(lines[0], lines[1..]);
      SplitOnceAt(lines[0], '\n', rest);
      assert Unlines(lines) == lines[0] + ['\n'] + rest;
      SplitUnlines(lines[1..]);
    }
  }

  /** A line of the file gives back its account and its id. */
  lemma ParseLineOf(protocol: ProtocolId, id: string)
    requires OneLine(id)
    ensures ParseLine(LineOf(protocol, id)) == if id == "" then None else Some((protocol, id))
  {
    var line := LineOf(protocol, id);
    NoMarkInKey(protocol, ' ');
    NoMarkInKey(protocol, '\r');
    NoMarkInKey(protocol, '\n');
    assert line[0] == Key(protocol)[0];
    assert line[|line| - 1] != '\r' by {
      if id != "" { assert line[|line| - 1] == id[|id| - 1]; }
    }
    KeyNotBlank(protocol);
    assert !IsBlank(line);
    SplitOnceAt(Key(protocol), ' ', id);
    assert line == Key(protocol) + [' '] + id;
    FromKeyOfKey(protocol, Key(protocol));
  }

  lemma KeyNotBlank(protocol: ProtocolId)
    ensures Key(protocol) != "" && 'a' <= Key(protocol)[0] <= 'z'
  {
    match protocol.kind {
      case Telegram =>
      case WhatsApp =>
      case Discord =>
      case Slack =>
      case Signal =>
    }
  }

  lemma {:induction false} CollectedFacts(entries: Entries, protocol: ProtocolId, id: string)
    ensures Contains(Collected(entries), protocol, id) <==> Some((protocol, id)) in entries
    ensures protocol in Collected(entries) ==> Collected(entries)[protocol] != {}
  {
    if entries != [] {
      var n := |entries| - 1;
      CollectedFacts(entries[..n], protocol, id);
      assert entries == entries[..n] + [entries[n]];
    }
  }

  lemma {:induction false} IdLinesFacts(protocol: ProtocolId, ids: seq<string>)
    ensures forall line :: line in IdLines(protocol, ids) <==>
              exists id :: id in ids && OneLine(id) && line == LineOf(protocol, id)
  {
    if ids != [] {
      var n := |ids| - 1;
      IdLinesFacts(protocol, ids[..n]);
      assert ids == ids[..n] + [ids[n]];
    }
  }

  /** A line of the file is the line of a mute. */
  lemma {:induction false} LineIsOf(chats: Chats, accounts: seq<ProtocolId>, line: string)
    returns (protocol: ProtocolId, id: string)
    requires line in AccountLines(chats, accounts)
    ensures Contains(chats, protocol, id) && OneLine(id) && line == LineOf(protocol, id)
  {
    var n := |accounts| - 1;
    if line in AccountLines(chats, accounts[..n]) {
      protocol, id := LineIsOf(chats, accounts[..n], line);
    } else {
      protocol := accounts[n];
      IdLinesFacts(protocol, SortedIds(chats[protocol]));
      SortedIdsFacts(chats[protocol]);
      id :| id in SortedIds(chats[protocol]) && OneLine(id) && line == LineOf(protocol, id);
    }
  }

  lemma LineIsInAccount(chats: Chats, protocol: ProtocolId, id: string)
    requires Contains(chats, protocol, id) && OneLine(id)
    ensures LineOf(protocol, id) in LinesAt(chats, protocol)
  {
    IdLinesFacts(protocol, SortedIds(chats[protocol]));
    SortedIdsFacts(chats[protocol]);
  }

  /** The lines of an account are in the file. */
  lemma {:induction false} AccountIsIn(chats: Chats, accounts: seq<ProtocolId>, protocol: ProtocolId, line: string)
    requires protocol in accounts && line in LinesAt(chats, protocol)
    ensures line in AccountLines(chats, accounts)
  {
    var n := |accounts| - 1;
    assert accounts == accounts[..n] + [accounts[n]];
    if protocol != accounts[n] { AccountIsIn(chats, accounts[..n], protocol, line); }
  }

  /** Each mute with a one-line id is in the file. */
  lemma LineIsIn(chats: Chats, protocol: ProtocolId, id: string)
    requires Contains(chats, protocol, id) && OneLine(id)
    ensures LineOf(protocol, id) in AccountLines(chats, FileOrder())
  {
    LineIsInAccount(chats, protocol, id);
    InFileOrder(protocol);
    AccountIsIn(chats, FileOrder(), protocol, LineOf(protocol, id));
  }

  ghost predicate NoFeeds(lines: seq<string>) {
    forall line :: line in lines ==> '\n' !in line
  }

  lemma NoFeedInLines(chats: Chats)
    ensures NoFeeds(AccountLines(chats, FileOrder()))
  {
    var lines := AccountLines(chats, FileOrder());
    forall line | line in lines ensures '\n' !in line {
      var protocol, id := LineIsOf(chats, FileOrder(), line);
      NoMarkInKey(protocol, '\n');
    }
  }

  lemma HeaderIsSkipped()
    ensures '\n' !in HEADER && ParseLine(HEADER) == None && ParseLine("") == None
  {
    assert HEADER[0] == '#' && HEADER[|HEADER| - 1] == '.';
  }

  lemma FileLines(chats: Chats)
    ensures SplitLines(FileOf(chats)) == [HEADER] + AccountLines(chats, FileOrder()) + [""]
  {
    NoFeedInLines(chats);
    HeaderIsSkipped();
    SplitUnlines([HEADER] + AccountLines(chats, FileOrder()));
  }

  lemma EntriesConcat(a: seq<string>, b: seq<string>)
    ensures EntriesOf(a + b) == EntriesOf(a) + EntriesOf(b)
  {
  }

  lemma SkippedEnds(first: string, lines: seq<string>, last: string, entry: (ProtocolId, string))
    requires EntriesOf([first]) == [None] && EntriesOf([last]) == [None]
    ensures Some(entry) in EntriesOf([first] + lines + [last]) <==> Some(entry) in EntriesOf(lines)
  {
    EntriesConcat([first] + lines, [last]);
    EntriesConcat([first], lines);
  }

  lemma SavedIsRead(chats: Chats, protocol: ProtocolId, id: string)
    requires Contains(chats, protocol, id) && Savable(id)
    ensures Some((protocol, id)) in EntriesOf(AccountLines(chats, FileOrder()))
  {
    var lines := AccountLines(chats, FileOrder());
    LineIsIn(chats, protocol, id);
    ParseLineOf(protocol, id);
    var i :| 0 <= i < |lines| && lines[i] == LineOf(protocol, id);
    assert EntriesOf(lines)[i] == Some((protocol, id));
  }

  lemma ReadWasSaved(chats: Chats, protocol: ProtocolId, id: string)
    requires Some((protocol, id)) in EntriesOf(AccountLines(chats, FileOrder()))
    ensures Contains(chats, protocol, id) && Savable(id)
  {
    var lines := AccountLines(chats, FileOrder());
    var i :| 0 <= i < |lines| && EntriesOf(lines)[i] == Some((protocol, id));
    var p, x := LineIsOf(chats, FileOrder(), lines[i]);
    ParseLineOf(p, x);
  }

  /** Reading the file back gives exactly the mutes, but for the ids that are empty or
      hold a line break; no line gives those. */
  lemma ParseOfRender(chats: Chats)
    ensures ParseLines(SplitLines(FileOf(chats))) == Saved(chats)
  {
    FileLines(chats);
    HeaderIsSkipped();
    assert EntriesOf([HEADER]) == [None] && EntriesOf([""]) == [None];
    var lines := AccountLines(chats, FileOrder());
    var entries := EntriesOf([HEADER] + lines + [""]);
    forall p, id ensures Contains(Collected(entries), p, id) <==> Contains(chats, p, id) && Savable(id) {
      CollectedFacts(entries, p, id);
      SkippedEnds(HEADER, lines, "", (p, id));
      if Contains(chats, p, id) && Savable(id) { SavedIsRead(chats, p, id); }
      if Some((p, id)) in EntriesOf(lines) { ReadWasSaved(chats, p, id); }
    }
    SameChats(entries, chats);
  }

  lemma SameChats(entries: Entries, chats: Chats)
    requires forall p, id :: Contains(Collected(entries), p, id) <==> Contains(chats, p, id) && Savable(id)
    ensures Collected(entries) == Saved(chats)
  {
    var parsed := Collected(entries);
    forall p ensures p in parsed <==> p in Saved(chats)
      ensures p in parsed && p in Saved(chats) ==> parsed[p] == Saved(chats)[p]
    {
      CollectedFacts(entries, p, "");
      SameIds(parsed, chats, p);
    }
  }

  lemma SameIds(parsed: Chats, chats: Chats, p: ProtocolId)
    requires forall id :: Contains(parsed, p, id) <==> Contains(chats, p, id) && Savable(id)
    requires p in parsed ==> parsed[p] != {}
    ensures p in parsed <==> p in Saved(chats)
    ensures p in parsed && p in Saved(chats) ==> parsed[p] == Saved(chats)[p]
  {
    if p in parsed {
      var id :| id in parsed[p];
      assert Contains(parsed, p, id);
    }
    if p in Saved(chats) {
      var id :| id in chats[p] && Savable(id);
      assert Contains(chats, p, id) && Contains(parsed, p, id);
      forall x ensures x in parsed[p] <==> x in Saved(chats)[p] {
        assert Contains(parsed, p, x) <==> Contains(chats, p, x) && Savable(x);
      }
    }
  }

  // ----- the class

  class ChatMutes {
    var chats: Chats
    const saver: Saver

    constructor (chats: Chats, saver: Saver)
      ensures this.chats == chats && this.saver == saver
    {
      this.chats := chats;
      this.saver := saver;
    }

    /** Says whether the set changed; a write is due when it did. */
    method SetMuted(protocol: ProtocolId, id: string, muted: bool) returns (changed: bool)
      modifies this, saver`pending
      ensures forall p, x :: Contains(chats, p, x) <==>
                if p == protocol && x == id then muted else Contains(old(chats), p, x)
      ensures changed <==> Contains(old(chats), protocol, id) != muted
      ensures saver.pending == (old(saver.pending) || changed)
    {
      if muted {
        changed := !Contains(chats, protocol, id);
        chats := Added(chats, protocol, id);
      } else if protocol in chats {
        changed := id in chats[protocol];
        chats := chats[protocol := chats[protocol] - {id}];
      } else {
        changed := false;
      }
      saver.pending := saver.pending || changed;
    }

    method Forget(protocol: ProtocolId)
      modifies this, saver`pending
      ensures chats == old(chats) - {protocol}
      ensures saver.pending == (old(saver.pending) || exists id :: Contains(old(chats), protocol, id))
    {
      var changed := protocol in chats && chats[protocol] != {};
      assert changed <==> exists id :: Contains(chats, protocol, id) by {
        if changed {
          var id :| id in chats[protocol];
          assert Contains(chats, protocol, id);
        }
      }
      chats := chats - {protocol};
      saver.pending := saver.pending || changed;
    }

    /** The job writes a text that reads back as the mutes of now. */
    method TakeMutesJob() returns (job: Option<Job>)
      requires saver.epoch == saver.shared.latest
      modifies saver`pending, saver`epoch, saver.shared`latest
      ensures !saver.pending && saver.epoch == saver.shared.latest
      ensures job.Some? <==> old(saver.pending) && saver.writes
      ensures job.Some? ==> job.value.epoch == saver.epoch == old(saver.epoch) + 1
      ensures job.Some? ==> ParseLines(SplitLines(job.value.contents)) == Saved(chats)
    {
      var text := Render(chats);
      ParseOfRender(chats);
      job := saver.TakeJob(text);
    }
  }
}
