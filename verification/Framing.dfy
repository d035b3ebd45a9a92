/** Cutting a byte stream into lines, however the stream arrives. */
module Framing {
  import Output

  type Byte = Output.Byte
  type Bytes = seq<Byte>

  const NEWLINE: Byte := 10
  const RETURN: Byte := 13
  const COLON: Byte := 58
  const BLANKS: set<Byte> := {9, 10, 11, 12, 13, 32}
  /** `data` and `[DONE]` */
  const DATA: Bytes := [100, 97, 116, 97]
  const DONE: Bytes := [91, 68, 79, 78, 69, 93]

  /** The complete lines of a stream, without their line feeds. */
  function Lines(bytes: Bytes): seq<Bytes> {
    if bytes == [] then
      []
    else
      var last := |bytes| - 1;
      if bytes[last] == NEWLINE then Lines(bytes[..last]) + [Rest(bytes[..last])] else Lines(bytes[..last])
  }

  /** What follows the last line feed. */
  function Rest(bytes: Bytes): Bytes {
    if bytes == [] then
      []
    else
      var last := |bytes| - 1;
      if bytes[last] == NEWLINE then [] else Rest(bytes[..last]) + [bytes[last]]
  }

  function Join(lines: seq<Bytes>, rest: Bytes): Bytes {
    if lines == [] then rest else lines[0] + [NEWLINE] + Join(lines[1..], rest)
  }

  predicate Unbroken(line: Bytes) {
    NEWLINE !in line
  }

  lemma {:induction false} UnbrokenIsRest(line: Bytes)
    requires Unbroken(line)
    ensures Lines(line) == [] && Rest(line) == line
  {
    if line != [] {
      var last := |line| - 1;
      UnbrokenIsRest(line[..last]);
      assert line == line[..last] + [line[last]];
    }
  }

  lemma {:induction false} RestIsUnbroken(bytes: Bytes)
    ensures Unbroken(Rest(bytes))
  {
    if bytes != [] {
      RestIsUnbroken(bytes[..|bytes| - 1]);
    }
  }

  /** Reading more is splitting the kept rest together with the new bytes. */
  lemma {:induction false} FeedMore(seen: Bytes, data: Bytes)
    ensures Lines(seen + data) == Lines(seen) + Lines(Rest(seen) + data)
    ensures Rest(seen + data) == Rest(Rest(seen) + data)
  {
    hide Lines, Rest;
    if data == [] {
      RestIsUnbroken(seen);
      UnbrokenIsRest(Rest(seen));
      assert seen + data == seen && Rest(seen) + data == Rest(seen);
    } else {
      var last := |data| - 1;
      FeedMore(seen, data[..last]);
      OneMoreByte(seen + data[..last], data[last]);
      OneMoreByte(Rest(seen) + data[..last], data[last]);
      assert seen + data[..last] + [data[last]] == seen + data;
      assert Rest(seen) + data[..last] + [data[last]] == Rest(seen) + data;
    }
  }

  lemma OneMoreByte(bytes: Bytes, x: Byte)
    ensures Lines(bytes + [x]) == if x == NEWLINE then Lines(bytes) + [Rest(bytes)] else Lines(bytes)
    ensures Rest(bytes + [x]) == if x == NEWLINE then [] else Rest(bytes) + [x]
  {
    assert (bytes + [x])[..|bytes|] == bytes;
  }

  /** The first line comes off the front. */
  lemma FirstLine(line: Bytes, tail: Bytes)
    requires Unbroken(line)
    ensures Lines(line + [NEWLINE] + tail) == [line] + Lines(tail)
    ensures Rest(line + [NEWLINE] + tail) == Rest(tail)
  {
    var head := line + [NEWLINE];
    UnbrokenIsRest(line);
    assert head[..|head| - 1] == line;
    FeedMore(head, tail);
    assert Rest(head) + tail == tail;
  }

  /** The lines and the rest make up the stream ... */
  lemma {:induction false} JoinOfLines(bytes: Bytes)
    ensures Join(Lines(bytes), Rest(bytes)) == bytes
  {
    if bytes != [] {
      var last := |bytes| - 1;
      JoinOfLines(bytes[..last]);
      assert bytes == bytes[..last] + [bytes[last]];
      if bytes[last] == NEWLINE {
        JoinOneMore(Lines(bytes[..last]), Rest(bytes[..last]));
      } else {
        JoinLongerRest(Lines(bytes[..last]), Rest(bytes[..last]), bytes[last]);
      }
    }
  }

  lemma {:induction false} JoinOneMore(lines: seq<Bytes>, rest: Bytes)
    ensures Join(lines + [rest], []) == Join(lines, rest) + [NEWLINE]
  {
    if lines != [] {
      JoinOneMore(lines[1..], rest);
      assert (lines + [rest])[1..] == lines[1..] + [rest];
    }
  }

  lemma {:induction false} JoinLongerRest(lines: seq<Bytes>, rest: Bytes, x: Byte)
    ensures Join(lines, rest + [x]) == Join(lines, rest) + [x]
  {
    if lines != [] {
      JoinLongerRest(lines[1..], rest, x);
    }
  }

  /** ... and there is only one way to make it up of unbroken parts. */
  lemma {:induction false} LinesOfJoin(lines: seq<Bytes>, rest: Bytes)
    requires Unbroken(rest) && forall i | 0 <= i < |lines| :: Unbroken(lines[i])
    ensures Lines(Join(lines, rest)) == lines && Rest(Join(lines, rest)) == rest
  {
    if lines == [] {
      UnbrokenIsRest(rest);
    } else {
      LinesOfJoin(lines[1..], rest);
      FirstLine(lines[0], Join(lines[1..], rest));
    }
  }

  /** The position of the first colon. */
  function FirstColon(line: Bytes): (at: int)
    ensures -1 <= at < |line|
  {
    if line == [] then -1
    else if line[0] == COLON then 0
    else
      var at := FirstColon(line[1..]);
      if at < 0 then -1 else at + 1
  }

  function StripFront(text: Bytes): Bytes {
    if text != [] && text[0] in BLANKS then StripFront(text[1..]) else text
  }

  function StripBack(text: Bytes): Bytes {
    if text != [] && text[|text| - 1] in BLANKS then StripBack(text[..|text| - 1]) else text
  }

  /** `bytes.strip` */
  function Strip(text: Bytes): Bytes {
    StripBack(StripFront(text))
  }

  /** The end marker of a server-sent event stream. */
  predicate MarksDone(line: Bytes) {
    var at := FirstColon(line);
    at >= 0 && line[..at] == DATA && Strip(line[at + 1..]) == DONE
  }

  ghost predicate SomeDone(lines: seq<Bytes>) {
    exists i :: 0 <= i < |lines| && MarksDone(lines[i])
  }

  /** `_CompletionTrackingStream.__aiter__`: whether the end marker was seen depends on the bytes,
      not on how they were chunked, and the chunks are passed on as they came. */
  method Track(chunks: seq<Bytes>) returns (done: bool, passed: seq<Bytes>)
    ensures done <==> SomeDone(Lines(Output.Concat(chunks)))
    ensures passed == chunks
  {
    hide Lines, Rest, MarksDone;
    done, passed := false, [];
    var tail: Bytes := [];
    UnbrokenIsRest([]);
    for i := 0 to |chunks|
      invariant tail == Rest(Output.Concat(chunks[..i]))
      invariant done <==> SomeDone(Lines(Output.Concat(chunks[..i])))
      invariant passed == chunks[..i]
    {
      ghost var seen := Output.Concat(chunks[..i]);
      FeedMore(seen, chunks[i]);
      OneMoreChunk(chunks, i);
      var lines := Lines(tail + chunks[i]);
      tail := Rest(tail + chunks[i]);
      var marked := AnyDone(lines);
      done := done || marked;
      SomeDoneAppend(Lines(seen), lines);
      passed := passed + [chunks[i]];
    }
    assert chunks[..|chunks|] == chunks;
  }

  method AnyDone(lines: seq<Bytes>) returns (done: bool)
    ensures done <==> SomeDone(lines)
  {
    hide MarksDone;
    done := false;
    for i := 0 to |lines|
      invariant done <==> exists k :: 0 <= k < i && MarksDone(lines[k])
    {
      if MarksDone(lines[i]) {
        done := true;
      }
    }
  }

  lemma OneMoreChunk(chunks: seq<Bytes>, i: nat)
    requires i < |chunks|
    ensures Output.Concat(chunks[..i + 1]) == Output.Concat(chunks[..i]) + chunks[i]
  {
    assert chunks[..i + 1] == chunks[..i] + [chunks[i]];
    Output.OneMoreChunk(chunks[..i], chunks[i], 1);
  }

  lemma SomeDoneAppend(a: seq<Bytes>, b: seq<Bytes>)
    ensures SomeDone(a + b) <==> SomeDone(a) || SomeDone(b)
  {
    hide MarksDone;
    if SomeDone(a) {
      var i :| 0 <= i < |a| && MarksDone(a[i]);
      assert (a + b)[i] == a[i];
    }
    if SomeDone(b) {
      var i :| 0 <= i < |b| && MarksDone(b[i]);
      assert (a + b)[|a| + i] == b[i];
    }
  }

  predicate IsBreak(b: Byte) {
    b == NEWLINE || b == RETURN
  }

  /** The position of the first line boundary of `bytes.splitlines`. */
  function FirstBreak(bytes: Bytes): (at: int)
    ensures -1 <= at < |bytes|
    ensures at >= 0 ==> IsBreak(bytes[at])
    ensures forall k | 0 <= k < |bytes| && (at < 0 || k < at) :: !IsBreak(bytes[k])
  {
    if bytes == [] then -1
    else if IsBreak(bytes[0]) then 0
    else
      var at := FirstBreak(bytes[1..]);
      if at < 0 then -1 else at + 1
  }

  /** `bytes.splitlines` */
  function SplitLines(bytes: Bytes): seq<Bytes> {
    var at := FirstBreak(bytes);
    if bytes == [] then []
    else if at < 0 then [bytes]
    else if bytes[at] == RETURN && at + 1 < |bytes| && bytes[at + 1] == NEWLINE then
      [bytes[..at]] + SplitLines(bytes[at + 2..])
    else
      [bytes[..at]] + SplitLines(bytes[at + 1..])
  }

  /** The pieces of a line between its carriage returns. */
  function Pieces(line: Bytes): (pieces: seq<Bytes>)
    ensures |pieces| > 0
  {
    var at := FirstReturn(line);
    if at < 0 then [line] else [line[..at]] + Pieces(line[at + 1..])
  }

  function FirstReturn(line: Bytes): (at: int)
    ensures -1 <= at < |line|
    ensures at >= 0 ==> line[at] == RETURN
    ensures forall k | 0 <= k < |line| && (at < 0 || k < at) :: line[k] != RETURN
  {
    if line == [] then -1
    else if line[0] == RETURN then 0
    else
      var at := FirstReturn(line[1..]);
      if at < 0 then -1 else at + 1
  }

  /** Where a response that is read at once is cut: at a line feed, and at a carriage return, which takes
      a line feed behind it along. */
  lemma BreaksAre(line: Bytes, tail: Bytes)
    requires forall k | 0 <= k < |line| :: line[k] != 10 && line[k] != 13
    ensures SplitLines(line + [10] + tail) == [line] + SplitLines(tail)
    ensures SplitLines(line + [13, 10] + tail) == [line] + SplitLines(tail)
    ensures tail != [] && tail[0] != 10 ==> SplitLines(line + [13] + tail) == [line] + SplitLines(tail)
    ensures SplitLines(line) == if line == [] then [] else [line]
  {
    hide SplitLines, FirstBreak;
    BreakAt(line, 10, tail);
    BreakAt(line, 13, [10] + tail);
    BreakAt(line, 13, tail);
    assert line + [13, 10] + tail == line + [13] + ([10] + tail);
    assert ([10] + tail)[1..] == tail;
    NoBreakAt(line);
  }

  lemma BreakAt(line: Bytes, mark: Byte, tail: Bytes)
    requires forall k | 0 <= k < |line| :: line[k] != 10 && line[k] != 13
    requires mark == 10 || mark == 13
    ensures SplitLines(line + [mark] + tail) ==
            [line] + SplitLines(if mark == 13 && tail != [] && tail[0] == 10 then tail[1..] else tail)
  {
    var whole := line + [mark] + tail;
    assert whole[|line|] == mark && forall k | 0 <= k < |line| :: whole[k] == line[k];
    assert FirstBreak(whole) == |line|;
    assert whole[..|line|] == line && whole[|line| + 1..] == tail;
    if tail != [] {
      assert whole[|line| + 1] == tail[0] && whole[|line| + 2..] == tail[1..];
    }
  }

  lemma NoBreakAt(line: Bytes)
    requires forall k | 0 <= k < |line| :: line[k] != 10 && line[k] != 13
    ensures SplitLines(line) == if line == [] then [] else [line]
  {
  }

  /** Some piece of some line carries the marker. */
  ghost predicate SomePiece(lines: seq<Bytes>) {
    exists i :: 0 <= i < |lines| && SomeDone(Pieces(lines[i]))
  }

  /** A stream as its complete lines and what is left. */
  function Parts(bytes: Bytes): seq<Bytes> {
    Lines(bytes) + [Rest(bytes)]
  }

  /** A response that was read at once is searched with `splitlines`: that finds the marker exactly
      when some piece between carriage returns, of a complete line or of the unfinished last one,
      carries it. */
  lemma {:induction false} BufferedSearch(bytes: Bytes)
    ensures SomeDone(SplitLines(bytes)) <==> SomePiece(Parts(bytes))
    decreases |bytes|
  {
    hide MarksDone, SomePiece, SomeDone, Parts, Pieces, FirstReturn;
    var at := FirstBreak(bytes);
    if at < 0 {
      OnlyLine(bytes);
    } else {
      var line, next := bytes[..at], bytes[at + 1..];
      if bytes[at] == NEWLINE {
        BufferedSearch(next);
        AtNewline(bytes, at);
      } else if next != [] && next[0] == NEWLINE {
        assert next[1..] == bytes[at + 2..];
        BufferedSearch(next[1..]);
        AtReturnNewline(bytes, at);
      } else {
        BufferedSearch(next);
        AtBareReturn(bytes, at);
      }
      SomeDoneFirst(line, if bytes[at] == RETURN && next != [] && next[0] == NEWLINE
                          then SplitLines(bytes[at + 2..]) else SplitLines(next));
    }
  }

  lemma OnlyLine(line: Bytes)
    requires FirstBreak(line) < 0
    ensures SomeDone(SplitLines(line)) <==> SomePiece(Parts(line))
  {
    hide MarksDone;
    NoReturn(line);
    UnbrokenIsRest(line);
    PiecesFirst(line, []);
    SomeDoneFirst(line, []);
    assert Parts(line) == [line] + [];
    if line == [] {
      NothingIsNoMarker();
    } else {
      assert SplitLines(line) == [line] + [];
    }
  }

  lemma NothingIsNoMarker()
    ensures !MarksDone([])
  {
  }

  lemma NoReturn(line: Bytes)
    requires forall k | 0 <= k < |line| :: line[k] != RETURN
    ensures Pieces(line) == [line]
  {
  }

  /** The pieces of the first line, and those of the other lines. */
  lemma PiecesFirst(line: Bytes, lines: seq<Bytes>)
    ensures SomePiece([line] + lines) <==> SomeDone(Pieces(line)) || SomePiece(lines)
  {
    hide SomeDone, Pieces;
    var all := [line] + lines;
    if SomeDone(Pieces(line)) {
      assert all[0] == line;
    }
    if SomePiece(lines) {
      var i :| 0 <= i < |lines| && SomeDone(Pieces(lines[i]));
      assert all[i + 1] == lines[i];
    }
    if SomePiece(all) {
      var i :| 0 <= i < |all| && SomeDone(Pieces(all[i]));
      assert i > 0 ==> all[i] == lines[i - 1];
    }
  }

  /** A line that is followed by a line feed only. */
  lemma AtNewline(bytes: Bytes, at: nat)
    requires at == FirstBreak(bytes) && bytes[at] == NEWLINE
    ensures SomePiece(Parts(bytes)) <==> MarksDone(bytes[..at]) || SomePiece(Parts(bytes[at + 1..]))
  {
    hide MarksDone, Pieces, SomePiece, Lines, Rest;
    var line, tail := bytes[..at], bytes[at + 1..];
    PlainLine(bytes, at);
    Rejoin(bytes, at);
    FirstLine(line, tail);
    assert Parts(bytes) == [line] + Parts(tail);
    PiecesFirst(line, Parts(tail));
    SomeDoneFirst(line, []);
    assert [line] + [] == [line];
  }

  /** A line that is followed by a carriage return and a line feed. */
  lemma AtReturnNewline(bytes: Bytes, at: nat)
    requires at == FirstBreak(bytes) && at + 1 < |bytes| && bytes[at] == RETURN && bytes[at + 1] == NEWLINE
    ensures SomePiece(Parts(bytes)) <==> MarksDone(bytes[..at]) || SomePiece(Parts(bytes[at + 2..]))
  {
    hide MarksDone, Pieces, SomePiece, Lines, Rest, FirstBreak;
    var line, tail := bytes[..at], bytes[at + 2..];
    PlainLine(bytes, at);
    Rejoin(bytes, at + 1);
    assert bytes[..at + 1] == line + [RETURN];
    WithReturn(line, []);
    assert line + [RETURN] + [] == line + [RETURN];
    assert Unbroken(line + [RETURN]);
    FirstLine(line + [RETURN], tail);
    assert Parts(bytes) == [line + [RETURN]] + Parts(tail);
    PiecesFirst(line + [RETURN], Parts(tail));
    SomeDoneFirst(line, Pieces([]));
    NoReturn([]);
    OnlyNothing();
  }

  lemma OnlyNothing()
    ensures !SomeDone([[]]) && !SomePiece([[]])
  {
    hide MarksDone, Pieces;
    NothingIsNoMarker();
    NoReturn([]);
  }

  /** A piece that is followed by a carriage return in the middle of a line. */
  lemma AtBareReturn(bytes: Bytes, at: nat)
    requires at == FirstBreak(bytes) && bytes[at] == RETURN
    ensures SomePiece(Parts(bytes)) <==> MarksDone(bytes[..at]) || SomePiece(Parts(bytes[at + 1..]))
  {
    hide MarksDone, Pieces, SomePiece, Lines, Rest, FirstBreak;
    var line, tail := bytes[..at], bytes[at + 1..];
    PlainLine(bytes, at);
    Rejoin(bytes, at);
    var first := Parts(tail)[0];
    assert Parts(tail) == [first] + Parts(tail)[1..];
    assert Unbroken(line + [RETURN]);
    LongerFirst(line + [RETURN], tail);
    WithReturn(line, first);
    PiecesFirst(line + [RETURN] + first, Parts(tail)[1..]);
    PiecesFirst(first, Parts(tail)[1..]);
    SomeDoneFirst(line, Pieces(first));
  }

  /** The line before the first break holds no break. */
  lemma PlainLine(bytes: Bytes, at: nat)
    requires at == FirstBreak(bytes)
    ensures Unbroken(bytes[..at]) && Pieces(bytes[..at]) == [bytes[..at]]
    ensures forall k | 0 <= k < at :: bytes[..at][k] != RETURN
  {
    NoReturn(bytes[..at]);
  }

  lemma WithReturn(line: Bytes, rest: Bytes)
    requires forall k | 0 <= k < |line| :: line[k] != RETURN
    ensures Pieces(line + [RETURN] + rest) == [line] + Pieces(rest)
  {
    var whole := line + [RETURN] + rest;
    assert whole[|line|] == RETURN;
    assert forall k | 0 <= k < |line| :: whole[k] == line[k];
    assert FirstReturn(whole) == |line|;
    assert whole[..|line|] == line && whole[|line| + 1..] == rest;
  }

  /** Bytes without a line feed in front of a stream lengthen its first part. */
  lemma LongerFirst(head: Bytes, tail: Bytes)
    requires Unbroken(head)
    ensures Parts(head + tail) == [head + Parts(tail)[0]] + Parts(tail)[1..]
  {
    var lines, rest := Lines(tail), Rest(tail);
    JoinOfLines(tail);
    PartsAreUnbroken(tail);
    if lines == [] {
      LinesOfJoin([], head + rest);
    } else {
      var longer := [head + lines[0]] + lines[1..];
      assert longer[1..] == lines[1..];
      var others := Join(lines[1..], rest);
      assert head + (lines[0] + [NEWLINE] + others) == head + lines[0] + [NEWLINE] + others;
      LinesOfJoin(longer, rest);
      assert Parts(tail)[1..] == lines[1..] + [rest];
    }
  }

  lemma {:induction false} PartsAreUnbroken(bytes: Bytes)
    ensures forall i | 0 <= i < |Lines(bytes)| :: Unbroken(Lines(bytes)[i])
    ensures Unbroken(Rest(bytes))
  {
    RestIsUnbroken(bytes);
    if bytes != [] {
      PartsAreUnbroken(bytes[..|bytes| - 1]);
    }
  }

  /** The streaming search and the search of the whole response find the same. */
  ghost predicate Agree(bytes: Bytes) {
    SomeDone(Lines(bytes)) <==> SomeDone(SplitLines(bytes))
  }

  predicate AllBlank(text: Bytes) {
    forall k | 0 <= k < |text| :: text[k] in BLANKS
  }

  /** A carriage return stands between the colon and what follows it. */
  predicate Divided(line: Bytes) {
    var at := FirstColon(line);
    at >= 0 && exists k :: at < k < |line| && line[k] == RETURN && AllBlank(line[at + 1..k])
  }

  /** A marking piece stands behind a carriage return, or is followed by more than blanks. */
  ghost predicate Buries(line: Bytes) {
    var pieces := Pieces(line);
    exists k :: 0 <= k < |pieces| && MarksDone(pieces[k]) && (k > 0 || MoreBehind(pieces))
  }

  ghost predicate MoreBehind(pieces: seq<Bytes>) {
    exists k :: 0 < k < |pieces| && !AllBlank(pieces[k])
  }

  lemma {:induction false} FrontIsBlank(text: Bytes) returns (front: Bytes)
    ensures text == front + StripFront(text) && AllBlank(front)
    ensures StripFront(text) == [] || StripFront(text)[0] !in BLANKS
  {
    if text != [] && text[0] in BLANKS {
      front := FrontIsBlank(text[1..]);
      assert text == [text[0]] + text[1..];
      front := [text[0]] + front;
    } else {
      front := [];
    }
  }

  lemma {:induction false} BackIsBlank(text: Bytes) returns (back: Bytes)
    ensures text == StripBack(text) + back && AllBlank(back)
  {
    if text != [] && text[|text| - 1] in BLANKS {
      var last := |text| - 1;
      back := BackIsBlank(text[..last]);
      assert text == text[..last] + [text[last]];
      back := back + [text[last]];
    } else {
      back := [];
    }
  }

  lemma {:induction false} StripBlanks(front: Bytes, back: Bytes)
    requires AllBlank(front) && AllBlank(back)
    ensures Strip(front + DONE + back) == DONE
  {
    DoneIsStripped();
    StripsFront(front, DONE + back);
    assert front + DONE + back == front + (DONE + back);
    assert (DONE + back)[0] !in BLANKS;
    StripsBack(DONE, back);
  }

  lemma {:induction false} StripsFront(front: Bytes, text: Bytes)
    requires AllBlank(front)
    ensures StripFront(front + text) == StripFront(text)
  {
    if front == [] {
      assert front + text == text;
    } else {
      assert (front + text)[1..] == front[1..] + text;
      StripsFront(front[1..], text);
    }
  }

  lemma {:induction false} StripsBack(text: Bytes, back: Bytes)
    requires AllBlank(back)
    ensures StripBack(text + back) == StripBack(text)
  {
    if back == [] {
      assert text + back == text;
    } else {
      var last := |back| - 1;
      assert (text + back)[..|text + back| - 1] == text + back[..last];
      StripsBack(text, back[..last]);
    }
  }

  /** The line that carries the marker between blanks. */
  function Line(front: Bytes, back: Bytes): Bytes {
    DATA + [COLON] + (front + DONE + back)
  }

  lemma LineMarks(front: Bytes, back: Bytes)
    requires AllBlank(front) && AllBlank(back)
    ensures MarksDone(Line(front, back))
  {
    hide MarksDone, Strip;
    StripBlanks(front, back);
    FieldAndValue(DATA, front + DONE + back);
  }

  /** Every marking line is of that form. */
  lemma MarkingLine(line: Bytes) returns (front: Bytes, back: Bytes)
    requires MarksDone(line)
    ensures AllBlank(front) && AllBlank(back) && line == Line(front, back)
  {
    var at := FirstColon(line);
    ColonFound(line);
    var value := line[at + 1..];
    front := FrontIsBlank(value);
    back := BackIsBlank(StripFront(value));
    Rejoin(line, at);
    assert value == front + (DONE + back) == front + DONE + back;
  }

  lemma {:induction false} ColonFound(line: Bytes)
    ensures var at := FirstColon(line); at >= 0 ==> line[at] == COLON
  {
    if line != [] && line[0] != COLON {
      ColonFound(line[1..]);
    }
  }

  lemma {:induction false} NoColonPieces(line: Bytes)
    requires COLON !in line
    ensures !SomeDone(Pieces(line))
    decreases |line|
  {
    hide MarksDone, SomeDone;
    var at := FirstReturn(line);
    if at < 0 {
      NoColon(line);
      SomeDoneFirst(line, []);
      assert [line] + [] == [line];
      NothingDone();
    } else {
      NoColon(line[..at]);
      NoColonPieces(line[at + 1..]);
      SomeDoneFirst(line[..at], Pieces(line[at + 1..]));
    }
  }

  lemma NothingDone()
    ensures !SomeDone([])
  {
  }

  lemma {:induction false} BlankPieces(line: Bytes)
    requires forall k | 0 <= k < |Pieces(line)| :: AllBlank(Pieces(line)[k])
    ensures AllBlank(line)
    decreases |line|
  {
    var at := FirstReturn(line);
    if at >= 0 {
      var pieces, rest := Pieces(line), line[at + 1..];
      assert pieces == [line[..at]] + Pieces(rest);
      assert forall k | 0 <= k < |Pieces(rest)| :: Pieces(rest)[k] == pieces[k + 1];
      BlankPieces(rest);
      assert pieces[0] == line[..at];
      assert forall k | 0 <= k < at :: line[k] == line[..at][k];
      assert forall k | at < k < |line| :: line[k] == rest[k - at - 1];
      assert RETURN in BLANKS;
    } else {
      assert Pieces(line)[0] == line;
    }
  }

  /** A line that marks has a marking piece exactly when no carriage return divides it. */
  lemma MarkingLinePieces(line: Bytes)
    requires MarksDone(line)
    ensures SomeDone(Pieces(line)) <==> !Divided(line)
  {
    hide MarksDone, SomeDone, Pieces, Strip;
    var front, back := MarkingLine(line);
    DividedIff(front, back);
    if RETURN in front {
      DividedLine(front, back);
    } else {
      UndividedLine(front, back);
    }
  }

  lemma DividedIff(front: Bytes, back: Bytes)
    requires AllBlank(front)
    ensures Divided(Line(front, back)) <==> RETURN in front
  {
    hide FirstColon;
    FirstColonAt(DATA, front + DONE + back);
    if RETURN in front {
      ReturnDivides(front, back);
    }
    if Divided(Line(front, back)) {
      var k :| 4 < k < |Line(front, back)| && Line(front, back)[k] == RETURN && AllBlank(Line(front, back)[5..k]);
      BlanksEnd(front, back, k);
    }
  }

  lemma ReturnDivides(front: Bytes, back: Bytes)
    requires AllBlank(front) && RETURN in front
    ensures exists k :: 4 < k < |Line(front, back)| && Line(front, back)[k] == RETURN
                        && AllBlank(Line(front, back)[5..k])
  {
    var line := Line(front, back);
    var k :| 0 <= k < |front| && front[k] == RETURN;
    assert line[5..5 + k] == front[..k];
    assert line[5 + k] == RETURN && AllBlank(front[..k]);
  }

  /** Only blanks before a carriage return: it stands in front of the marker. */
  lemma BlanksEnd(front: Bytes, back: Bytes, k: nat)
    requires 4 < k < |Line(front, back)| && Line(front, back)[k] == RETURN && AllBlank(Line(front, back)[5..k])
    ensures RETURN in front
  {
    var line := Line(front, back);
    assert line[5 + |front|] == DONE[0] && DONE[0] !in BLANKS;
    if k <= 5 + |front| {
      assert line[k] == front[k - 5];
    }
  }

  lemma DividedLine(front: Bytes, back: Bytes)
    requires AllBlank(front) && AllBlank(back) && RETURN in front
    ensures !SomeDone(Pieces(Line(front, back)))
  {
    hide MarksDone, SomeDone, Pieces, Strip;
    var at := FirstReturn(front);
    var first, rest := DATA + [COLON] + front[..at], front[at + 1..] + DONE + back;
    Rejoin(front, at);
    assert Line(front, back) == first + [RETURN] + rest;
    WithReturn(first, rest);
    FieldAndValue(DATA, front[..at]);
    OnlyBlanks(front[..at]);
    assert COLON !in BLANKS && COLON !in DONE;
    NoColonPieces(rest);
    SomeDoneFirst(first, Pieces(rest));
  }

  lemma OnlyBlanks(text: Bytes)
    requires AllBlank(text)
    ensures Strip(text) != DONE
  {
    StripsFront(text, []);
    assert text + [] == text;
  }

  lemma UndividedLine(front: Bytes, back: Bytes)
    requires AllBlank(front) && AllBlank(back) && RETURN !in front
    ensures SomeDone(Pieces(Line(front, back)))
  {
    hide MarksDone, SomeDone, Pieces, Strip;
    var line := Line(front, back);
    var at := FirstReturn(back);
    if at < 0 {
      LineMarks(front, back);
      NoReturn(line);
      SomeDoneFirst(line, []);
      assert [line] + [] == [line];
    } else {
      var first, rest := Line(front, back[..at]), back[at + 1..];
      Rejoin(back, at);
      assert line == first + [RETURN] + rest;
      LineMarks(front, back[..at]);
      WithReturn(first, rest);
      SomeDoneFirst(first, Pieces(rest));
    }
  }

  /** A line that does not mark has a marking piece exactly when that piece is buried. */
  lemma OtherLinePieces(line: Bytes)
    requires !MarksDone(line)
    ensures SomeDone(Pieces(line)) <==> Buries(line)
  {
    hide MarksDone, Pieces;
    if SomeDone(Pieces(line)) && !Buries(line) {
      AloneMarks(line);
    }
  }

  /** A first piece that marks, with only blanks behind it, makes its line mark. */
  lemma AloneMarks(line: Bytes)
    requires MarksDone(Pieces(line)[0]) && !MoreBehind(Pieces(line))
    ensures MarksDone(line)
  {
    hide MarksDone, AllBlank;
    var at := FirstReturn(line);
    if at >= 0 {
      var rest := line[at + 1..];
      BlankBehind(line, at);
      MarksLonger(line[..at], rest);
      Rejoin(line, at);
    }
  }

  lemma BlankBehind(line: Bytes, at: nat)
    requires at == FirstReturn(line) && !MoreBehind(Pieces(line))
    ensures AllBlank(line[at + 1..])
  {
    hide AllBlank, FirstReturn;
    var pieces, rest := Pieces(line), line[at + 1..];
    assert pieces == [line[..at]] + Pieces(rest);
    assert forall k | 0 <= k < |Pieces(rest)| :: Pieces(rest)[k] == pieces[k + 1];
    BlankPieces(rest);
  }

  lemma MarksLonger(piece: Bytes, rest: Bytes)
    requires MarksDone(piece) && AllBlank(rest)
    ensures MarksDone(piece + [RETURN] + rest)
  {
    hide MarksDone, Strip;
    var front, back := MarkingLine(piece);
    var longer := back + [RETURN] + rest;
    assert RETURN in BLANKS;
    assert piece + [RETURN] + rest == Line(front, longer);
    LineMarks(front, longer);
  }

  /** What the search of a whole response finds in one line. */
  ghost predicate FoundAtOnce(line: Bytes) {
    if MarksDone(line) then !Divided(line) else Buries(line)
  }

  ghost predicate SomeFound(lines: seq<Bytes>) {
    exists i :: 0 <= i < |lines| && FoundAtOnce(lines[i])
  }

  /** Some complete line marks, but every marking line is divided and no other line buries a marker. */
  ghost predicate OnlyStreaming(bytes: Bytes) {
    && SomeDone(Lines(bytes))
    && forall i | 0 <= i < |Parts(bytes)| :: var line := Parts(bytes)[i];
                                             if MarksDone(line) then Divided(line) else !Buries(line)
  }

  /** No complete line marks, but one buries a marker, or the unfinished last line carries one. */
  ghost predicate OnlyAtOnce(bytes: Bytes) {
    && !SomeDone(Lines(bytes))
    && ((exists i :: 0 <= i < |Lines(bytes)| && Buries(Lines(bytes)[i])) || FoundAtOnce(Rest(bytes)))
  }

  /** The two ways in which the searches differ. */
  lemma AgreeIff(bytes: Bytes)
    ensures SomeDone(Lines(bytes)) && !SomeDone(SplitLines(bytes)) <==> OnlyStreaming(bytes)
    ensures !SomeDone(Lines(bytes)) && SomeDone(SplitLines(bytes)) <==> OnlyAtOnce(bytes)
    ensures Agree(bytes) <==> !OnlyStreaming(bytes) && !OnlyAtOnce(bytes)
  {
    hide MarksDone, Pieces, Divided, Buries, Parts, Lines, Rest, SplitLines;
    BufferedSearch(bytes);
    FoundInPieces(Parts(bytes));
    FoundInParts(bytes);
  }

  lemma FoundInPieces(lines: seq<Bytes>)
    ensures SomePiece(lines) <==> SomeFound(lines)
  {
    hide MarksDone, Pieces, Divided, Buries, SomeDone;
    forall line: Bytes
      ensures SomeDone(Pieces(line)) <==> FoundAtOnce(line)
    {
      if MarksDone(line) {
        MarkingLinePieces(line);
      } else {
        OtherLinePieces(line);
      }
    }
  }

  lemma FoundInParts(bytes: Bytes)
    ensures SomeFound(Parts(bytes)) <==> SomeFound(Lines(bytes)) || FoundAtOnce(Rest(bytes))
  {
    hide FoundAtOnce, Lines, Rest;
    var lines := Lines(bytes);
    assert forall i | 0 <= i < |lines| :: Parts(bytes)[i] == lines[i];
    assert Parts(bytes)[|lines|] == Rest(bytes);
  }

  /** Every carriage return stands before a line feed. */
  predicate NoBareReturn(bytes: Bytes) {
    forall i | 0 <= i < |bytes| && bytes[i] == RETURN :: i + 1 < |bytes| && bytes[i + 1] == NEWLINE
  }

  /** Without bare carriage returns they agree unless the unfinished last line is the only marker. */
  lemma AgreeOnLineFeeds(bytes: Bytes)
    requires NoBareReturn(bytes)
    ensures Agree(bytes) <==> SomeDone(Lines(bytes)) || !MarksDone(Rest(bytes))
  {
    hide MarksDone, SomeDone, SomePiece, Pieces, Parts;
    BufferedSearch(bytes);
    PiecesOfLineFeeds(bytes);
  }

  lemma {:induction false} PiecesOfLineFeeds(bytes: Bytes)
    requires NoBareReturn(bytes)
    ensures SomePiece(Parts(bytes)) <==> SomeDone(Lines(bytes)) || MarksDone(Rest(bytes))
    decreases |bytes|
  {
    hide MarksDone, SomeDone, SomePiece, Pieces, Lines, Rest;
    var at := FirstBreak(bytes);
    if at < 0 {
      NoBreak(bytes);
    } else {
      var end := if bytes[at] == RETURN then at + 1 else at;
      var line, tail := bytes[..end], bytes[end + 1..];
      assert forall i | 0 <= i < |tail| :: tail[i] == bytes[end + 1 + i];
      PiecesOfLineFeeds(tail);
      FirstFeed(bytes, at, end);
      UnbrokenBefore(bytes, end);
      FirstLine(line, tail);
      Rejoin(bytes, end);
      SomeDoneFirst(line, Lines(tail));
    }
  }

  /** The first line of a stream without bare carriage returns. */
  lemma FirstFeed(bytes: Bytes, at: nat, end: nat)
    requires NoBareReturn(bytes) && at == FirstBreak(bytes) && end == if bytes[at] == RETURN then at + 1 else at
    ensures end < |bytes|
    ensures SomePiece(Parts(bytes)) <==> MarksDone(bytes[..end]) || SomePiece(Parts(bytes[end + 1..]))
  {
    hide MarksDone, SomePiece, Parts;
    if end == at {
      AtNewline(bytes, at);
    } else {
      AtReturnNewline(bytes, at);
      ReturnIsBlank(bytes[..at]);
      assert bytes[..end] == bytes[..at] + [RETURN];
    }
  }

  lemma NoBreak(line: Bytes)
    requires FirstBreak(line) < 0
    ensures SomePiece(Parts(line)) <==> MarksDone(Rest(line))
    ensures !SomeDone(Lines(line))
  {
    hide MarksDone;
    NoReturn(line);
    UnbrokenIsRest(line);
    PiecesFirst(line, []);
    SomeDoneFirst(line, []);
    assert Parts(line) == [line] + [] && [line] + [] == [line];
  }

  lemma Rejoin(bytes: Bytes, at: nat)
    requires at < |bytes|
    ensures bytes[..at] + [bytes[at]] + bytes[at + 1..] == bytes
  {
  }

  lemma UnbrokenBefore(bytes: Bytes, end: nat)
    requires end <= |bytes| && forall k | 0 <= k < end :: bytes[k] != NEWLINE
    ensures Unbroken(bytes[..end])
  {
  }

  lemma SomeDoneFirst(line: Bytes, lines: seq<Bytes>)
    ensures SomeDone([line] + lines) <==> MarksDone(line) || SomeDone(lines)
  {
    hide MarksDone;
    SomeDoneAppend([line], lines);
    assert MarksDone(line) ==> MarksDone([line][0]);
  }

  /** `data:[DONE]` */
  const MARKER: Bytes := DATA + [COLON] + DONE

  lemma MarkerMarks()
    ensures MarksDone(MARKER) && Unbroken(MARKER) && RETURN !in MARKER
  {
    hide MarksDone, Strip;
    FieldAndValue(DATA, DONE);
    DoneIsStripped();
  }

  lemma DoneIsStripped()
    ensures StripFront(DONE) == DONE && StripBack(DONE) == DONE && Strip(DONE) == DONE
  {
  }

  /** How a field and its value decide. */
  lemma FieldAndValue(field: Bytes, value: Bytes)
    requires COLON !in field
    ensures MarksDone(field + [COLON] + value) <==> field == DATA && Strip(value) == DONE
  {
    var line := field + [COLON] + value;
    FirstColonAt(field, value);
    assert line[..|field|] == field && line[|field| + 1..] == value;
  }

  lemma {:induction false} FirstColonAt(field: Bytes, value: Bytes)
    requires COLON !in field
    ensures FirstColon(field + [COLON] + value) == |field|
  {
    if field != [] {
      FirstColonAt(field[1..], value);
      assert (field + [COLON] + value)[1..] == field[1..] + [COLON] + value;
    }
  }

  /** One byte between the colon and the marker is passed over exactly when it is white space. */
  lemma SpacedMarkerIff(b: Byte)
    ensures MarksDone([100, 97, 116, 97, 58, b, 91, 68, 79, 78, 69, 93]) <==> b == 32 || 9 <= b <= 13
  {
    hide MarksDone, Strip;
    var line := [100, 97, 116, 97, 58, b, 91, 68, 79, 78, 69, 93];
    assert line == DATA + [COLON] + ([b] + DONE);
    assert [b] + DONE + [] == [b] + DONE;
    FieldAndValue(DATA, [b] + DONE);
    if b in BLANKS {
      StripBlanks([b], []);
    } else {
      EndsInText([b] + DONE);
    }
  }

  /** A marker in an unfinished last line is found only at once. */
  lemma UnfinishedMarker()
    ensures !SomeDone(Lines(MARKER)) && SomeDone(SplitLines(MARKER))
  {
    hide MarksDone;
    MarkerMarks();
    UnbrokenIsRest(MARKER);
    assert forall i | 0 <= i < |MARKER| :: MARKER[i] in MARKER;
    AgreeOnLineFeeds(MARKER);
  }

  /** A marker that a bare carriage return separates from more text is found only at once. */
  lemma MarkerBeforeReturn(text: Bytes)
    requires text != [] && text[|text| - 1] !in BLANKS && Unbroken(text)
    ensures var bytes := MARKER + [RETURN] + text + [NEWLINE];
            !SomeDone(Lines(bytes)) && SomeDone(SplitLines(bytes))
  {
    hide MarksDone, SplitLines, Pieces;
    var line := MARKER + [RETURN] + text;
    MarkerMarks();
    OneLine(line);
    assert forall i | 0 <= i < |MARKER| :: MARKER[i] in MARKER;
    WithReturn(MARKER, text);
    SomeDoneFirst(MARKER, Pieces(text));
    PiecesFirst(line, [[]]);
    assert line == DATA + [COLON] + (DONE + [RETURN] + text);
    FieldAndValue(DATA, DONE + [RETURN] + text);
    EndsInText(DONE + [RETURN] + text);
    BufferedSearch(line + [NEWLINE]);
  }

  /** A marker that a bare carriage return divides is found only while streaming. */
  lemma MarkerAcrossReturn()
    ensures var bytes := DATA + [COLON] + [RETURN] + DONE + [NEWLINE];
            SomeDone(Lines(bytes)) && !SomeDone(SplitLines(bytes))
  {
    hide MarksDone, SplitLines, Pieces;
    var line := DATA + [COLON] + [RETURN] + DONE;
    OneLine(line);
    assert line == DATA + [COLON] + ([RETURN] + DONE);
    FieldAndValue(DATA, [RETURN] + DONE);
    assert ([RETURN] + DONE)[1..] == DONE;
    DoneIsStripped();
    assert StripFront([RETURN] + DONE) == StripFront(DONE);
    WithReturn(DATA + [COLON], DONE);
    NoReturn(DONE);
    assert DATA + [COLON] + [] == DATA + [COLON];
    FieldAndValue(DATA, []);
    NoColon(DONE);
    SomeDoneFirst(DATA + [COLON], [DONE]);
    SomeDoneFirst(DONE, []);
    assert [DONE] + [] == [DONE];
    PiecesFirst(line, [[]]);
    BufferedSearch(line + [NEWLINE]);
  }

  lemma {:induction false} NoColon(line: Bytes)
    requires COLON !in line
    ensures FirstColon(line) == -1 && !MarksDone(line)
  {
    if line != [] {
      NoColon(line[1..]);
    }
  }

  lemma EndsInText(value: Bytes)
    requires |value| > |DONE| && value[0] !in BLANKS && value[|value| - 1] !in BLANKS
    ensures Strip(value) == value && Strip(value) != DONE
  {
  }

  /** A stream of one complete line. */
  lemma OneLine(line: Bytes)
    requires Unbroken(line)
    ensures Parts(line + [NEWLINE]) == [line] + [[]] && Lines(line + [NEWLINE]) == [line]
    ensures SomeDone(Lines(line + [NEWLINE])) <==> MarksDone(line)
    ensures !SomePiece([[]])
  {
    hide MarksDone;
    FirstLine(line, []);
    assert line + [NEWLINE] + [] == line + [NEWLINE];
    assert [line] + [] == [line];
    SomeDoneFirst(line, []);
    OnlyNothing();
  }

  /** A carriage return at the end of a line does not matter. */
  lemma ReturnIsBlank(line: Bytes)
    ensures MarksDone(line + [RETURN]) <==> MarksDone(line)
  {
    var longer := line + [RETURN];
    ColonBeforeReturn(line);
    var at := FirstColon(line);
    if at >= 0 {
      assert longer[..at] == line[..at];
      assert longer[at + 1..] == line[at + 1..] + [RETURN];
      StripReturn(line[at + 1..]);
    }
  }

  lemma {:induction false} ColonBeforeReturn(line: Bytes)
    ensures FirstColon(line + [RETURN]) == FirstColon(line)
  {
    if line != [] {
      assert (line + [RETURN])[1..] == line[1..] + [RETURN];
      ColonBeforeReturn(line[1..]);
    } else {
      assert [RETURN][1..] == [];
      assert line + [RETURN] == [RETURN];
    }
  }

  lemma {:induction false} StripReturn(text: Bytes)
    ensures Strip(text + [RETURN]) == Strip(text)
  {
    var longer := text + [RETURN];
    if text == [] {
      assert longer == [RETURN] && longer[1..] == [];
    } else if text[0] in BLANKS {
      assert longer[1..] == text[1..] + [RETURN];
      StripReturn(text[1..]);
    } else {
      assert longer[..|longer| - 1] == text;
    }
  }
}
