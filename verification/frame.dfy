/** Reading lines from a pipe that gives its bytes in any pieces
    (crates/thinwire-ipc/src/frame.rs). */
module Frames {
  import opened Wrappers

  newtype byte = x: int | 0 <= x < 256

  type Bytes = seq<byte>

  const MAX_LINE_BYTES := 1024 * 1024
  const LINE_END: byte := 10

  /** What one call of `next_line` gives; a dropped call gives nothing. */
  datatype Answer = Line(line: Bytes) | NotUtf8 | End | TooLong | Io | Dropped

  /** One more piece of the stream, or a failed read. */
  datatype Arrival = Piece(piece: Bytes) | Fault

  // ----- the stream, however it is cut

  function FirstEnd(text: Bytes): (r: nat)
    ensures r <= |text|
    ensures LINE_END !in text[..r]
    ensures r < |text| ==> text[r] == LINE_END
  {
    if text == [] || text[0] == LINE_END then 0
    else
      var r := 1 + FirstEnd(text[1..]);
      assert text[..r] == [text[0]] + text[1..][..r - 1];
      r
  }

  function Read(line: Bytes, isText: Bytes -> bool): Answer {
    if isText(line) then Line(line) else NotUtf8
  }

  /** What the next call gives for the unread text, and what is unread after it. */
  function NextOf(text: Bytes, isText: Bytes -> bool): (Answer, Bytes) {
    var end := FirstEnd(text);
    if end > MAX_LINE_BYTES then (TooLong, text)
    else if end == |text| then (End, [])
    else (Read(text[..end], isText), text[end + 1..])
  }

  /** What is unread after `n` answers. */
  function After(text: Bytes, n: nat, isText: Bytes -> bool): Bytes {
    if n == 0 then text else NextOf(After(text, n - 1, isText), isText).1
  }

  function Nth(text: Bytes, n: nat, isText: Bytes -> bool): Answer {
    NextOf(After(text, n, isText), isText).0
  }

  lemma {:induction false} NthLater(text: Bytes, n: nat, isText: Bytes -> bool)
    ensures After(text, n + 1, isText) == After(NextOf(text, isText).1, n, isText)
  {
    if n > 0 { NthLater(text, n - 1, isText); }
  }

  // ----- what the lines of a stream are

  function Joined(lines: seq<Bytes>): Bytes {
    if lines == [] then [] else lines[0] + [LINE_END] + Joined(lines[1..])
  }

  ghost predicate Plain(lines: seq<Bytes>, tail: Bytes) {
    LINE_END !in tail && forall i :: 0 <= i < |lines| ==> LINE_END !in lines[i]
  }

  /** Every stream is some lines with their ends, and a last part with no end. */
  lemma {:induction false} HasLines(text: Bytes) returns (lines: seq<Bytes>, tail: Bytes)
    ensures Plain(lines, tail) && text == Joined(lines) + tail
    decreases |text|
  {
    var end := FirstEnd(text);
    if end == |text| {
      lines, tail := [], text;
      assert text[..end] == text;
    } else {
      var rest: seq<Bytes>;
      rest, tail := HasLines(text[end + 1..]);
      lines := [text[..end]] + rest;
      assert lines[1..] == rest;
      assert text == text[..end] + [LINE_END] + text[end + 1..];
      assert Joined(lines) + tail == text[..end] + [LINE_END] + (Joined(rest) + tail);
    }
  }

  lemma {:induction false} FirstEndOf(line: Bytes, rest: Bytes)
    requires LINE_END !in line
    ensures FirstEnd(line + [LINE_END] + rest) == |line|
  {
    if line != [] {
      FirstEndOf(line[1..], rest);
      assert (line + [LINE_END] + rest)[1..] == line[1..] + [LINE_END] + rest;
    }
  }

  lemma OneLine(line: Bytes, rest: Bytes, isText: Bytes -> bool)
    requires LINE_END !in line
    ensures var text := line + [LINE_END] + rest;
            NextOf(text, isText) == if |line| > MAX_LINE_BYTES then (TooLong, text) else (Read(line, isText), rest)
  {
    var text := line + [LINE_END] + rest;
    FirstEndOf(line, rest);
    assert text[..|line|] == line;
    assert text[|line| + 1..] == rest;
  }

  /** The answers in order: each line, up to the first that is too long, which lasts;
      then the end, which lasts too. The part after the last line end is never a line. */
  function Expected(lines: seq<Bytes>, tail: Bytes, n: nat, isText: Bytes -> bool): Answer {
    if lines == [] then (if |tail| > MAX_LINE_BYTES then TooLong else End)
    else if |lines[0]| > MAX_LINE_BYTES then TooLong
    else if n == 0 then (if isText(lines[0]) then Line(lines[0]) else NotUtf8)
    else Expected(lines[1..], tail, n - 1, isText)
  }

  lemma {:induction false} AnswersAreLines(lines: seq<Bytes>, tail: Bytes, n: nat, isText: Bytes -> bool)
    requires Plain(lines, tail)
    ensures Nth(Joined(lines) + tail, n, isText) == Expected(lines, tail, n, isText)
    decreases n
  {
    var text := Joined(lines) + tail;
    if lines == [] {
      NoEnd(tail);
      assert text == tail;
      LastsForever(text, n, isText);
    } else {
      var rest := Joined(lines[1..]) + tail;
      assert text == lines[0] + [LINE_END] + rest;
      OneLine(lines[0], rest, isText);
      if |lines[0]| > MAX_LINE_BYTES {
        LastsForever(text, n, isText);
      } else if n > 0 {
        NthLater(text, n - 1, isText);
        AnswersAreLines(lines[1..], tail, n - 1, isText);
      }
    }
  }

  /** Lines within the limit, each written with its line end, come back one by one. */
  lemma {:induction false} WrittenLinesComeBack(lines: seq<Bytes>, n: nat, isText: Bytes -> bool)
    requires forall i :: 0 <= i < |lines| ==>
               LINE_END !in lines[i] && |lines[i]| <= MAX_LINE_BYTES && isText(lines[i])
    ensures Nth(Joined(lines), n, isText) == if n < |lines| then Line(lines[n]) else End
    decreases n
  {
    assert Joined(lines) + [] == Joined(lines);
    AnswersAreLines(lines, [], n, isText);
    if lines != [] && n > 0 {
      WrittenLinesComeBack(lines[1..], n - 1, isText);
      assert Joined(lines[1..]) + [] == Joined(lines[1..]);
      AnswersAreLines(lines[1..], [], n - 1, isText);
    }
  }

  lemma NoEnd(text: Bytes)
    requires LINE_END !in text
    ensures FirstEnd(text) == |text|
  {
  }

  /** A line over the limit and the end of the stream are the answer from then on. */
  lemma {:induction false} LastsForever(text: Bytes, n: nat, isText: Bytes -> bool)
    requires NextOf(text, isText).0.TooLong? || NextOf(text, isText).0.End?
    ensures Nth(text, n, isText) == NextOf(text, isText).0
    decreases n
  {
    if n > 0 {
      NthLater(text, n - 1, isText);
      LastsForever(NextOf(text, isText).1, n - 1, isText);
    }
  }

  // ----- the reader

  function Pieces(coming: seq<Arrival>): Bytes {
    if coming == [] then []
    else (if coming[0].Piece? then coming[0].piece else []) + Pieces(coming[1..])
  }

  lemma PartEnd(partial: Bytes, available: Bytes, rest: Bytes)
    requires LINE_END !in partial
    ensures FirstEnd(available) < |available|
            ==> FirstEnd(partial + available + rest) == |partial| + FirstEnd(available)
    ensures FirstEnd(available) == |available| ==> FirstEnd(partial + available + rest) >= |partial| + |available|
  {
    var end := FirstEnd(available);
    var text := partial + available + rest;
    if end < |available| {
      assert text == (partial + available[..end]) + [LINE_END] + (available[end + 1..] + rest);
      FirstEndOf(partial + available[..end], available[end + 1..] + rest);
    } else {
      assert available[..end] == available;
      assert LINE_END !in partial + available;
      FirstEndAfter(partial + available, rest);
    }
  }

  lemma FirstEndAfter(a: Bytes, b: Bytes)
    requires LINE_END !in a
    ensures FirstEnd(a + b) >= |a|
  {
    assert forall i :: 0 <= i < |a| ==> (a + b)[i] in a;
  }

  /** What a piece means for the unread text: the line goes on, is too long, or ends. */
  lemma PieceGoesOn(partial: Bytes, available: Bytes, rest: Bytes)
    requires LINE_END !in partial && FirstEnd(available) == |available|
    ensures LINE_END !in partial + available
    ensures partial + available + rest == (partial + available) + [] + rest
  {
    assert available[..|available|] == available;
  }

  lemma PieceTooLong(partial: Bytes, available: Bytes, rest: Bytes, isText: Bytes -> bool)
    requires LINE_END !in partial && |partial| + FirstEnd(available) > MAX_LINE_BYTES
    ensures var text := partial + available + rest; NextOf(text, isText) == (TooLong, text)
  {
    PartEnd(partial, available, rest);
  }

  lemma CutAt(partial: Bytes, available: Bytes, rest: Bytes, end: nat)
    requires end < |available| && available[end] == LINE_END
    ensures partial + available + rest == (partial + available[..end]) + [LINE_END] + (available[end + 1..] + rest)
  {
    assert available == available[..end] + [LINE_END] + available[end + 1..];
  }

  lemma PieceEnds(partial: Bytes, available: Bytes, rest: Bytes, isText: Bytes -> bool)
    requires LINE_END !in partial && FirstEnd(available) < |available|
    requires |partial| + FirstEnd(available) <= MAX_LINE_BYTES
    ensures var end := FirstEnd(available);
            LINE_END !in partial + available[..end]
            && NextOf(partial + available + rest, isText)
               == (Read(partial + available[..end], isText), available[end + 1..] + rest)
  {
    var end := FirstEnd(available);
    CutAt(partial, available, rest, end);
    OneLine(partial + available[..end], available[end + 1..] + rest, isText);
  }

  ghost predicate FirstAnswers(answers: seq<Answer>, text: Bytes, isText: Bytes -> bool) {
    forall k :: 0 <= k < |answers| ==> answers[k] == Nth(text, k, isText)
  }

  lemma OneMoreAnswer(answers: seq<Answer>, text: Bytes, unread: Bytes, answer: Answer, left: Bytes,
                      isText: Bytes -> bool)
    requires FirstAnswers(answers, text, isText) && unread == After(text, |answers|, isText)
    requires (answer, left) == NextOf(unread, isText)
    ensures FirstAnswers(answers + [answer], text, isText) && left == After(text, |answers| + 1, isText)
  {
  }

  class FrameReader {
    /** The pipe: the piece that is not yet consumed, and what comes after it. */
    var buffer: Bytes
    var coming: seq<Arrival>
    var partial: Bytes
    const isText: Bytes -> bool

    ghost predicate Valid()
      reads this
    {
      && |partial| <= MAX_LINE_BYTES && LINE_END !in partial
      && (forall i :: 0 <= i < |coming| && coming[i].Piece? ==> coming[i].piece != [])
    }

    /** The unread text, with the kept part of a line. */
    ghost function Text(): Bytes
      reads this
    {
      partial + buffer + Pieces(coming)
    }

    constructor (coming: seq<Arrival>, isText: Bytes -> bool)
      requires forall i :: 0 <= i < |coming| && coming[i].Piece? ==> coming[i].piece != []
      ensures Valid() && Text() == Pieces(coming) && this.isText == isText
    {
      buffer, partial := [], [];
      this.coming := coming;
      this.isText := isText;
    }

    /** The next piece when none is there. False: the read failed. */
    method FillBuf() returns (ok: bool)
      requires Valid()
      modifies this`buffer, this`coming
      ensures Valid() && Text() == old(Text())
      ensures ok && buffer == [] ==> coming == []
      ensures old(buffer) != [] ==> ok && buffer == old(buffer) && coming == old(coming)
      ensures old(buffer) == [] && ok && buffer != [] ==> |coming| < |old(coming)|
      ensures partial == old(partial)
    {
      if buffer != [] || coming == [] { return true; }
      ok := coming[0].Piece?;
      if ok { buffer := coming[0].piece; }
      coming := coming[1..];
    }

    /** Use up the piece that is there: up to its first line end, or all of it. */
    method Consume() returns (answer: Option<Answer>)
      requires Valid() && buffer != []
      modifies this`buffer, this`partial
      ensures Valid()
      ensures answer.None? ==> Text() == old(Text()) && buffer == []
      ensures answer.Some? ==> (answer.value, Text()) == NextOf(old(Text()), isText)
    {
      var available := buffer;
      var end := FirstEnd(available);
      if |partial| + end > MAX_LINE_BYTES {
        PieceTooLong(partial, available, Pieces(coming), isText);
        return Some(TooLong);
      }
      partial := partial + available[..end];
      if end == |available| {
        PieceGoesOn(old(partial), available, Pieces(coming));
        assert available[..end] == available;
        buffer := [];
        return None;
      }
      PieceEnds(old(partial), available, Pieces(coming), isText);
      buffer := available[end + 1..];
      answer := Some(Read(partial, isText));
      partial := [];
      assert Text() == buffer + Pieces(coming);
    }

    /** One call, dropped when it would have to wait longer than for `patience` pieces.
        A call that is dropped or fails leaves the unread text as it was; any other
        answers for that text alone. */
    method NextLine(patience: nat) returns (answer: Answer)
      requires Valid()
      modifies this
      ensures Valid()
      ensures answer.Io? || answer.Dropped? ==> Text() == old(Text())
      ensures !answer.Io? && !answer.Dropped? ==> (answer, Text()) == NextOf(old(Text()), isText)
    {
      var waits := 0;
      while true
        invariant Valid() && Text() == old(Text())
        decreases |coming| + if buffer == [] then 0 else 1
      {
        if buffer == [] && waits == patience { return Dropped; }
        if buffer == [] { waits := waits + 1; }
        var ok := FillBuf();
        if !ok { return Io; }
        if buffer == [] {
          assert Text() == partial;
          NoEnd(partial);
          partial := [];
          assert Text() == [];
          return End;
        }
        var done := Consume();
        if done.Some? { return done.value; }
      }
    }

    /** Calls of any patience: the answers are those for the stream, in order, however
        the pipe cuts it and whichever calls are dropped or fail. */
    method ReadOn(calls: seq<nat>) returns (answers: seq<Answer>)
      requires Valid()
      modifies this
      ensures Valid()
      ensures forall k :: 0 <= k < |answers| ==> answers[k] == Nth(old(Text()), k, isText)
      ensures Text() == After(old(Text()), |answers|, isText)
    {
      answers := [];
      for i := 0 to |calls|
        invariant Valid()
        invariant FirstAnswers(answers, old(Text()), isText)
        invariant Text() == After(old(Text()), |answers|, isText)
      {
        ghost var before := Text();
        var answer := NextLine(calls[i]);
        if !answer.Io? && !answer.Dropped? {
          OneMoreAnswer(answers, old(Text()), before, answer, Text(), isText);
          answers := answers + [answer];
        }
      }
    }
  }
}
