/** Which texts name an account (crates/thinwire-protocol/src/adapter.rs, `from_key`). */
module KeyTexts {
  import opened Wrappers
  import opened Accounts

  predicate IsDigit(c: char) { '0' <= c <= '9' }

  predicate AllDigits(text: string) {
    forall c :: c in text ==> IsDigit(c)
  }

  /** The number that decimal digits write, the last one for the ones. */
  function NumberOf(text: string): nat
    requires AllDigits(text)
  {
    if text == "" then 0
    else
      assert text[|text| - 1] in text;
      10 * NumberOf(text[..|text| - 1]) + (text[|text| - 1] as int - '0' as int)
  }

  lemma NumberNext(text: string, c: char)
    requires AllDigits(text) && IsDigit(c)
    ensures AllDigits(text + [c]) && NumberOf(text + [c]) == 10 * NumberOf(text) + (c as int - '0' as int)
  {
    assert (text + [c])[..|text|] == text;
  }

  lemma {:induction false} NumberGrows(head: string, tail: string)
    requires AllDigits(head) && AllDigits(tail)
    ensures AllDigits(head + tail) && NumberOf(head + tail) >= NumberOf(head)
  {
    if tail == "" {
      assert head + tail == head;
    } else {
      var n := |tail| - 1;
      assert tail[n] in tail;
      assert head + tail == head + tail[..n] + [tail[n]];
      NumberGrows(head, tail[..n]);
      NumberNext(head + tail[..n], tail[n]);
    }
  }

  lemma DigitsFront(text: string)
    requires text != ""
    ensures AllDigits(text) <==> IsDigit(text[0]) && AllDigits(text[1..])
  {
    assert text == [text[0]] + text[1..];
  }

  lemma ParseStep(head: string, text: string)
    requires AllDigits(head) && text != "" && IsDigit(text[0])
    ensures AllDigits(head + [text[0]])
    ensures var next := NumberOf(head + [text[0]]);
            ParseDigits(text, NumberOf(head)) == if next > 255 then None else ParseDigits(text[1..], next)
  {
    NumberNext(head, text[0]);
  }

  /** The digits read so far are `head`. */
  lemma {:induction false} ParseDigitsIs(head: string, text: string)
    requires AllDigits(head) && NumberOf(head) <= 255
    ensures AllDigits(text) ==> AllDigits(head + text)
    ensures ParseDigits(text, NumberOf(head))
            == if AllDigits(text) && NumberOf(head + text) <= 255 then Some(NumberOf(head + text)) else None
    decreases |text|
  {
    if text == "" {
      assert head + text == head;
    } else {
      DigitsFront(text);
      if IsDigit(text[0]) {
        var next, rest := head + [text[0]], text[1..];
        assert head + text == next + rest;
        ParseStep(head, text);
        if NumberOf(next) <= 255 {
          ParseDigitsIs(next, rest);
        } else if AllDigits(rest) {
          NumberGrows(next, rest);
        }
      }
    }
  }

  /** The text writes `n` in decimal digits, perhaps after a plus sign and zeros. */
  ghost predicate Writes(text: string, n: nat) {
    exists digits: string :: (text == digits || text == "+" + digits) && digits != "" && AllDigits(digits)
                             && NumberOf(digits) == n
  }

  lemma ParsesExactly(text: string, n: nat)
    requires n <= 255
    ensures ParseU8(text) == Some(n) <==> Writes(text, n)
  {
    ParseDigitsIs("", text);
    assert "" + text == text;
    if text != "" && text[0] == '+' {
      var digits := text[1..];
      assert text == "+" + digits;
      ParseDigitsIs("", digits);
      assert "" + digits == digits;
      assert text[0] in text;
      if Writes(text, n) {
        var d: string :| (text == d || text == "+" + d) && d != "" && AllDigits(d) && NumberOf(d) == n;
        assert ("+" + d)[1..] == d;
      }
    } else if Writes(text, n) {
      var d: string :| (text == d || text == "+" + d) && d != "" && AllDigits(d) && NumberOf(d) == n;
      assert ("+" + d)[0] == '+';
    }
  }

  /** A text names an account exactly when it is the name of its protocol, for account 0, or
      the name, a number sign and the account's number from 1 to 8. The number may have a plus
      sign and zeros before it, so an account above 0 has more than one text. */
  lemma FromKeyExactly(text: string, id: ProtocolId)
    ensures FromKey(text) == Some(id) <==>
              || (id.slot == 0 && text == KindKey(id.kind))
              || (id.slot > 0 && exists number :: text == KindKey(id.kind) + "#" + number && Writes(number, id.slot))
  {
    NamesArePlain(id.kind);
    match SplitOnce(text, '#') {
      case Some(parts) =>
        assert text == parts.0 + ['#'] + parts.1;
        NamedExactly(parts.0, id.kind);
        ParsesExactly(parts.1, id.slot);
        if id.slot > 0 && exists number :: text == KindKey(id.kind) + "#" + number && Writes(number, id.slot) {
          var number :| text == KindKey(id.kind) + "#" + number && Writes(number, id.slot);
          SplitOnceAt(KindKey(id.kind), '#', number);
        }
      case None =>
        NamedExactly(text, id.kind);
        assert forall number :: '#' in KindKey(id.kind) + "#" + number;
    }
  }

  lemma NamesArePlain(kind: ProtocolKind)
    ensures '#' !in KindKey(kind)
  {
    match kind {
      case Telegram =>
      case WhatsApp =>
      case Discord =>
      case Slack =>
      case Signal =>
    }
  }

  lemma NamedExactly(name: string, kind: ProtocolKind)
    ensures KindOf(name) == Some(kind) <==> name == KindKey(kind)
  {
    match kind {
      case Telegram =>
      case WhatsApp =>
      case Discord =>
      case Slack =>
      case Signal =>
    }
  }
}
