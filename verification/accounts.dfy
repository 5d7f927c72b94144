/** Accounts and their text keys (crates/thinwire-protocol/src/adapter.rs). */
module Accounts {
  import opened Wrappers

  datatype ProtocolKind = Telegram | WhatsApp | Discord | Slack | Signal

  /** Highest account number of one protocol. Account 0 is the first account. */
  const MAX_ACCOUNT_SLOT := 8

  type Slot = n: nat | n <= MAX_ACCOUNT_SLOT

  /** One account of one protocol. The constructors of the source never build a
      slot above the limit, so the slot type carries it. */
  datatype ProtocolId = ProtocolId(kind: ProtocolKind, slot: Slot)

  function KindKey(kind: ProtocolKind): string {
    match kind
    case Telegram => "telegram"
    case WhatsApp => "whatsapp"
    case Discord => "discord"
    case Slack => "slack"
    case Signal => "signal"
  }

  /** The first kind, in the order of the source's `ALL`, whose key is `name`. */
  function KindOf(name: string): Option<ProtocolKind> {
    if name == "telegram" then Some(Telegram)
    else if name == "whatsapp" then Some(WhatsApp)
    else if name == "discord" then Some(Discord)
    else if name == "slack" then Some(Slack)
    else if name == "signal" then Some(Signal)
    else None
  }

  function SlotText(slot: Slot): string {
    ["0", "1", "2", "3", "4", "5", "6", "7", "8"][slot]
  }

  function Key(id: ProtocolId): string {
    if id.slot == 0 then KindKey(id.kind) else KindKey(id.kind) + "#" + SlotText(id.slot)
  }

  /** The text before and after the first `mark`, as `str::split_once`. */
  function SplitOnce(text: string, mark: char): (r: Option<(string, string)>)
    ensures r.None? <==> mark !in text
    ensures r.Some? ==> text == r.value.0 + [mark] + r.value.1 && mark !in r.value.0
  {
    if text == [] then None
    else if text[0] == mark then Some(([], text[1..]))
    else
      match SplitOnce(text[1..], mark)
      case None => None
      case Some(parts) => Some(([text[0]] + parts.0, parts.1))
  }

  function Digit(c: char): Option<nat> {
    if '0' <= c <= '9' then Some(c as int - '0' as int) else None
  }

  function ParseDigits(text: string, acc: nat): Option<nat> {
    if text == [] then Some(acc)
    else
      match Digit(text[0])
      case None => None
      case Some(d) =>
        if 10 * acc + d > 255 then None else ParseDigits(text[1..], 10 * acc + d)
  }

  /** `str::parse::<u8>`: digits with an optional leading plus sign, no overflow. */
  function ParseU8(text: string): Option<nat> {
    var digits := if text != [] && text[0] == '+' then text[1..] else text;
    if digits == [] then None else ParseDigits(digits, 0)
  }

  function FromKey(text: string): Option<ProtocolId> {
    match SplitOnce(text, '#')
    case Some(parts) =>
      (match ParseU8(parts.1)
       case None => None
       case Some(slot) => if slot == 0 then None else Account(KindOf(parts.0), slot))
    case None => Account(KindOf(text), 0)
  }

  function Account(kind: Option<ProtocolKind>, slot: nat): Option<ProtocolId> {
    if kind.None? || slot > MAX_ACCOUNT_SLOT then None else Some(ProtocolId(kind.value, slot))
  }

  /** A split at a mark that the first part does not hold is unique. */
  lemma {:induction false} SplitOnceAt(head: string, mark: char, tail: string)
    requires mark !in head
    ensures SplitOnce(head + [mark] + tail, mark) == Some((head, tail))
  {
    var text := head + [mark] + tail;
    if head == [] {
      assert text[1..] == tail;
    } else {
      assert text[1..] == head[1..] + [mark] + tail;
      SplitOnceAt(head[1..], mark, tail);
      assert [text[0]] + head[1..] == head;
    }
  }

  lemma {:induction false} NoMarkInKey(id: ProtocolId, mark: char)
    requires mark == ' ' || mark == '\n' || mark == '\r'
    ensures mark !in Key(id) && Key(id) != [] && Key(id)[0] != '#'
  {
    match id.kind {
      case Telegram =>
      case WhatsApp =>
      case Discord =>
      case Slack =>
      case Signal =>
    }
  }

  /** Reading an account key back gives the account, for every account number. */
  lemma FromKeyOfKey(id: ProtocolId, text: string)
    requires text == Key(id)
    ensures FromKey(text) == Some(id)
  {
    var name := KindKey(id.kind);
    assert '#' !in name && KindOf(name) == Some(id.kind) by {
      match id.kind {
        case Telegram =>
        case WhatsApp =>
        case Discord =>
        case Slack =>
        case Signal =>
      }
    }
    if id.slot != 0 {
      var digit := SlotText(id.slot);
      assert ParseU8(digit) == Some(id.slot) by {
        assert ParseDigits(digit, 0) == ParseDigits(digit[1..], id.slot);
      }
      SplitOnceAt(name, '#', digit);
    }
  }
}
