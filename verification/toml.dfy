/** The string values of the settings file (crates/thinwire-core/src/settings.rs). */
module Toml {
  /** `str::replace` of one character. */
  function Replace(text: string, mark: char, put: string): string {
    if text == "" then ""
    else (if text[0] == mark then put else [text[0]]) + Replace(text[1..], mark, put)
  }

  /** Backslashes first, then double quotes. */
  function EscapeToml(text: string): string {
    Replace(Replace(text, '\\', "\\\\"), '"', "\\\"")
  }

  /** What the reader makes of the rest of a value. */
  function Unescaped(text: string): string {
    if text == "" then ""
    else if text[0] != '\\' then [text[0]] + Unescaped(text[1..])
    else if |text| == 1 then ""
    else [text[1]] + Unescaped(text[2..])
  }

  method UnescapeToml(value: string) returns (text: string)
    ensures text == Unescaped(value)
  {
    text := "";
    var i := 0;
    while i < |value|
      invariant 0 <= i <= |value|
      invariant text + Unescaped(value[i..]) == Unescaped(value)
    {
      var ch := value[i];
      assert value[i..][0] == ch && value[i..][1..] == value[i + 1..];
      if ch == '\\' {
        if i + 1 < |value| {
          assert value[i..][1] == value[i + 1] && value[i..][2..] == value[i + 2..];
          text := text + [value[i + 1]];
        }
        i := i + 1;
      } else {
        text := text + [ch];
      }
      i := if i < |value| then i + 1 else i;
    }
  }

  lemma {:induction false} ReplaceConcat(a: string, b: string, mark: char, put: string)
    ensures Replace(a + b, mark, put) == Replace(a, mark, put) + Replace(b, mark, put)
  {
    if a == "" {
      assert a + b == b;
    } else {
      assert (a + b)[1..] == a[1..] + b;
      ReplaceConcat(a[1..], b, mark, put);
    }
  }

  /** The two replacements together escape each character by itself. */
  lemma {:induction false} EscapeOne(c: char, rest: string)
    ensures EscapeToml([c] + rest)
            == (if c == '\\' then "\\\\" else if c == '"' then "\\\"" else [c]) + EscapeToml(rest)
  {
    assert ([c] + rest)[1..] == rest;
    var first := if c == '\\' then "\\\\" else [c];
    ReplaceConcat(first, Replace(rest, '\\', "\\\\"), '"', "\\\"");
    assert first == [first[0]] + first[1..];
    if c == '\\' {
      assert Replace("\\", '"', "\\\"") == "\\" by { assert "\\"[1..] == ""; }
      assert first[1..] == "\\";
    } else {
      assert first[1..] == "";
    }
  }

  /** Every value comes back as it was written. */
  lemma {:induction false} UnescapeOfEscape(text: string)
    ensures Unescaped(EscapeToml(text)) == text
  {
    if text != "" {
      EscapeOne(text[0], text[1..]);
      assert text == [text[0]] + text[1..];
      UnescapeOfEscape(text[1..]);
      var c, tail := text[0], EscapeToml(text[1..]);
      if c == '\\' || c == '"' {
        var escaped := ['\\', c] + tail;
        assert EscapeToml(text) == escaped && escaped[2..] == tail;
      } else {
        assert ([c] + tail)[1..] == tail;
      }
    }
  }

  /** A backslash with nothing after it is dropped. */
  lemma {:induction false} TrailingBackslashGoes(text: string)
    ensures Unescaped(EscapeToml(text) + "\\") == text
  {
    if text != "" {
      EscapeOne(text[0], text[1..]);
      assert text == [text[0]] + text[1..];
      TrailingBackslashGoes(text[1..]);
      var c, tail := text[0], EscapeToml(text[1..]) + "\\";
      if c == '\\' || c == '"' {
        var escaped := ['\\', c] + tail;
        assert EscapeToml(text) + "\\" == escaped && escaped[2..] == tail;
      } else {
        assert EscapeToml(text) + "\\" == [c] + tail && ([c] + tail)[1..] == tail;
      }
    }
  }

  /** The escaped value has no bare quote: the closing quote of its line is the last one. */
  predicate NoBareQuote(text: string) {
    text == ""
    || (text[0] == '\\' && |text| > 1 && NoBareQuote(text[2..]))
    || (text[0] != '\\' && text[0] != '"' && NoBareQuote(text[1..]))
  }

  lemma {:induction false} EscapedHasNoBareQuote(text: string)
    ensures NoBareQuote(EscapeToml(text))
  {
    if text != "" {
      EscapeOne(text[0], text[1..]);
      assert text == [text[0]] + text[1..];
      EscapedHasNoBareQuote(text[1..]);
      var c, tail := text[0], EscapeToml(text[1..]);
      if c == '\\' || c == '"' {
        var escaped := ['\\', c] + tail;
        assert EscapeToml(text) == escaped && escaped[2..] == tail;
      } else {
        assert ([c] + tail)[1..] == tail;
      }
    }
  }
}
