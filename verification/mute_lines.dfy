/** Which chats the text of a mute file mutes, whoever wrote it
    (crates/thinwire-core/src/mutes.rs, `parse`). */
module MuteLines {
  import opened Wrappers
  import opened Accounts
  import opened Mutes

  /** The line, which may end with a carriage return, is an account's text, a space and the id. */
  ghost predicate NamesChat(raw: string, protocol: ProtocolId, id: string) {
    exists account: string, line: string ::
      && (raw == line + "\r" || (raw == line && (line == "" || line[|line| - 1] != '\r')))
      && line == account + " " + id && ' ' !in account && FromKey(account) == Some(protocol) && id != ""
  }

  lemma AccountIsPlain(account: string)
    requires FromKey(account).Some?
    ensures account != "" && 'a' <= account[0] <= 'z'
  {
    if SplitOnce(account, '#').Some? {
      var parts := SplitOnce(account, '#').value;
      NameIsPlain(parts.0);
      assert account[0] == parts.0[0];
    } else {
      NameIsPlain(account);
    }
  }

  lemma NameIsPlain(name: string)
    requires KindOf(name).Some?
    ensures name != "" && 'a' <= name[0] <= 'z'
  {
  }

  lemma WithoutReturnIs(raw: string, line: string)
    requires raw == line + "\r" || (raw == line && (line == "" || line[|line| - 1] != '\r'))
    ensures WithoutReturn(raw) == line
  {
    if raw == line + "\r" { assert raw[..|raw| - 1] == line; }
  }

  /** A line mutes the chat exactly when it reads so. Comments and blank lines do not. */
  lemma LineExactly(raw: string, protocol: ProtocolId, id: string)
    ensures ParseLine(raw) == Some((protocol, id)) <==> NamesChat(raw, protocol, id)
  {
    var line := WithoutReturn(raw);
    assert raw == line + "\r" || (raw == line && (line == "" || line[|line| - 1] != '\r'));
    if ParseLine(raw) == Some((protocol, id)) {
      var parts := SplitOnce(line, ' ').value;
      assert line == parts.0 + " " + id && ' ' !in parts.0;
      assert NamesChat(raw, protocol, id);
    }
    if NamesChat(raw, protocol, id) {
      var account: string, l: string :|
        && (raw == l + "\r" || (raw == l && (l == "" || l[|l| - 1] != '\r')))
        && l == account + " " + id && ' ' !in account && FromKey(account) == Some(protocol) && id != "";
      WithoutReturnIs(raw, l);
      AccountIsPlain(account);
      assert line[0] == account[0];
      SplitOnceAt(account, ' ', id);
      assert line == account + [' '] + id;
    }
  }

  /** A file mutes exactly the chats that a line of it names. */
  lemma FileExactly(contents: string, protocol: ProtocolId, id: string)
    ensures Contains(ParseLines(SplitLines(contents)), protocol, id) <==>
              exists raw :: raw in SplitLines(contents) && NamesChat(raw, protocol, id)
  {
    var lines := SplitLines(contents);
    CollectedFacts(EntriesOf(lines), protocol, id);
    if Some((protocol, id)) in EntriesOf(lines) {
      var i :| 0 <= i < |lines| && EntriesOf(lines)[i] == Some((protocol, id));
      LineExactly(lines[i], protocol, id);
      assert lines[i] in lines;
    }
    if raw :| raw in lines && NamesChat(raw, protocol, id) {
      LineExactly(raw, protocol, id);
      var i :| 0 <= i < |lines| && lines[i] == raw;
      assert EntriesOf(lines)[i] == Some((protocol, id));
    }
  }

  // ----- line ends of Windows

  function WithReturns(lines: seq<string>): seq<string> {
    seq(|lines|, i requires 0 <= i < |lines| => lines[i] + "\r")
  }

  lemma ReturnReadsSame(line: string)
    requires line == "" || line[|line| - 1] != '\r'
    ensures ParseLine(line + "\r") == ParseLine(line)
  {
    WithoutReturnIs(line + "\r", line);
    WithoutReturnIs(line, line);
  }

  lemma SameEntries(lines: seq<string>)
    requires forall line :: line in lines ==> line == "" || line[|line| - 1] != '\r'
    ensures EntriesOf(WithReturns(lines)) == EntriesOf(lines)
  {
    forall i | 0 <= i < |lines| ensures ParseLine(WithReturns(lines)[i]) == ParseLine(lines[i]) {
      assert lines[i] in lines;
      ReturnReadsSame(lines[i]);
    }
  }

  /** A file reads the same with a carriage return before each line feed. */
  lemma ReturnsReadSame(lines: seq<string>)
    requires NoFeeds(lines) && forall line :: line in lines ==> line == "" || line[|line| - 1] != '\r'
    ensures ParseLines(SplitLines(Unlines(WithReturns(lines)))) == ParseLines(SplitLines(Unlines(lines)))
  {
    var returned := WithReturns(lines);
    assert NoFeeds(returned) by {
      forall raw | raw in returned ensures '\n' !in raw {
        var i :| 0 <= i < |lines| && returned[i] == raw;
        assert lines[i] in lines;
      }
    }
    SplitUnlines(lines);
    SplitUnlines(returned);
    SameEntries(lines);
    EntriesConcat(lines, [""]);
    EntriesConcat(returned, [""]);
  }
}
