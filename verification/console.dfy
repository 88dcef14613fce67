/** The command line client that prints a log while it grows (streamLogs and splitLogBuffer in
    cli/remotebazel/remotebazel.go). */
module ConsoleStreams {
  import opened Bytes
  import opened EventLog

  // ----- wrapping -----

  /** strings.Split(s, "\n") */
  function Split(s: seq<Byte>): (lines: seq<seq<Byte>>)
    ensures lines != []
  {
    if s == [] then [[]]
    else
      var rest := Split(s[1..]);
      if s[0] == NEWLINE then [[]] + rest else [[s[0]] + rest[0]] + rest[1..]
  }

  /** Splitting keeps the text, and no line contains a newline. */
  lemma {:induction false} SplitThenJoin(s: seq<Byte>)
    ensures Join(Split(s)) == s
    ensures forall i :: 0 <= i < |Split(s)| ==> NEWLINE !in Split(s)[i]
  {
    if s != [] {
      SplitThenJoin(s[1..]);
      var rest := Split(s[1..]);
      assert [s[0]] + s[1..] == s;
      if s[0] == NEWLINE {
        JoinNewLine(rest);
      } else {
        JoinLongerLine(s[0], rest);
      }
    }
  }

  lemma JoinNewLine(lines: seq<seq<Byte>>)
    requires lines != []
    ensures Join([[]] + lines) == [NEWLINE] + Join(lines)
  {
    assert ([[]] + lines)[1..] == lines;
    assert [] + [NEWLINE] == [NEWLINE];
  }

  lemma JoinLongerLine(b: Byte, lines: seq<seq<Byte>>)
    requires lines != []
    ensures Join([[b] + lines[0]] + lines[1..]) == [b] + Join(lines)
  {
    var longer := [[b] + lines[0]] + lines[1..];
    assert longer[1..] == lines[1..];
    if |lines| > 1 {
      Reassociate([b], lines[0], [NEWLINE]);
      Reassociate([b], lines[0] + [NEWLINE], Join(lines[1..]));
    }
  }

  /** A line cut into pieces of the given width. */
  function Pieces(line: seq<Byte>, width: nat): (pieces: seq<seq<Byte>>)
    requires width > 0 || line == []
    ensures pieces != []
    decreases |line|
  {
    if |line| > width then [line[..width]] + Pieces(line[width..], width) else [line]
  }

  /** Wrapping keeps the text; every piece but the last is as wide as the terminal, and the last is
      no wider, and empty only if the line is. */
  lemma {:induction false} WrappingKeepsText(line: seq<Byte>, width: nat)
    requires width > 0
    ensures var pieces := Pieces(line, width);
      && Flatten(pieces) == line
      && (forall i :: 0 <= i < |pieces| - 1 ==> |pieces[i]| == width)
      && |pieces[|pieces| - 1]| <= width
      && (pieces[|pieces| - 1] == [] ==> line == [])
      && (|pieces| - 1) * width <= |line|
    decreases |line|
  {
    if |line| > width {
      WrappingKeepsText(line[width..], width);
      var rest := Pieces(line[width..], width);
      assert Pieces(line, width)[1..] == rest;
      assert line[..width] + line[width..] == line;
    } else {
      assert [line][1..] == [] && Flatten([line]) == line + Flatten([]);
    }
    PiecesAreFew(line, width);
  }

  lemma {:induction false} PiecesAreFew(line: seq<Byte>, width: nat)
    requires width > 0
    ensures (|Pieces(line, width)| - 1) * width <= |line|
    decreases |line|
  {
    if |line| > width {
      PiecesAreFew(line[width..], width);
      OneTimeMore(|Pieces(line[width..], width)| - 1, width);
    }
  }

  lemma OneTimeMore(n: int, width: nat)
    ensures (n + 1) * width == n * width + width
  {
  }

  /** Can the text be wrapped at all? A terminal without columns takes only empty lines. */
  predicate CanWrap(buf: seq<Byte>, width: nat) {
    width > 0 || forall i :: 0 <= i < |buf| ==> buf[i] == NEWLINE
  }

  predicate AreEmpty(lines: seq<seq<Byte>>) {
    forall i :: 0 <= i < |lines| ==> lines[i] == []
  }

  lemma {:induction false} CannotWrapLongerLines(buf: seq<Byte>)
    ensures CanWrap(buf, 0) <==> AreEmpty(Split(buf))
  {
    if buf != [] {
      CannotWrapLongerLines(buf[1..]);
      var rest := Split(buf[1..]);
      assert CanWrap(buf, 0) <==> buf[0] == NEWLINE && CanWrap(buf[1..], 0);
      if buf[0] == NEWLINE {
        EmptyBefore(rest);
      } else {
        assert Split(buf)[0] == [buf[0]] + rest[0] != [];
      }
    }
  }

  lemma EmptyBefore(lines: seq<seq<Byte>>)
    ensures AreEmpty([[]] + lines) <==> AreEmpty(lines)
  {
    if AreEmpty([[]] + lines) {
      forall i | 0 <= i < |lines| ensures lines[i] == [] {
        assert ([[]] + lines)[i + 1] == lines[i];
      }
    }
  }

  function WrapLines(lines: seq<seq<Byte>>, width: nat): seq<seq<Byte>>
    requires forall i :: 0 <= i < |lines| ==> width > 0 || lines[i] == []
  {
    if lines == [] then [] else WrapLines(lines[..|lines| - 1], width) + Pieces(lines[|lines| - 1], width)
  }

  /** The console lines of a log buffer. */
  function Wrapped(buf: seq<Byte>, width: nat): (lines: seq<seq<Byte>>)
    requires CanWrap(buf, width)
    ensures lines != []
  {
    CannotWrapLongerLines(buf);
    assert Split(buf) != [];
    WrapLines(Split(buf), width)
  }

  /** The pieces of a line that is wrapped: they adjoin to it, and only the last may be shorter than the
      terminal is wide. */
  predicate IsWrapped(pieces: seq<seq<Byte>>, line: seq<Byte>, width: nat) {
    && pieces != [] && Flatten(pieces) == line
    && (forall i :: 0 <= i < |pieces| - 1 ==> |pieces[i]| == width)
    && |pieces[|pieces| - 1]| <= width && (pieces[|pieces| - 1] == [] ==> line == [])
  }

  lemma LineIsWrapped(line: seq<Byte>, width: nat)
    requires width > 0
    ensures IsWrapped(Pieces(line, width), line, width)
  {
    WrappingKeepsText(line, width);
  }

  lemma WrapOneMore(lines: seq<seq<Byte>>, width: nat, groups: seq<seq<seq<Byte>>>, last: seq<Byte>)
    requires width > 0 && Flatten(groups) == WrapLines(lines, width)
    ensures Flatten(groups + [Pieces(last, width)]) == WrapLines(lines + [last], width)
  {
    var group := [Pieces(last, width)];
    FlattenAppend(groups, group);
    assert Flatten(group) == group[0] + Flatten(group[1..]) == group[0];
    assert (lines + [last])[..|lines|] == lines;
  }

  lemma {:induction false} LinesAreWrapped(lines: seq<seq<Byte>>, width: nat) returns (groups: seq<seq<seq<Byte>>>)
    requires width > 0
    ensures |groups| == |lines| && Flatten(groups) == WrapLines(lines, width)
    ensures forall i :: 0 <= i < |lines| ==> IsWrapped(groups[i], lines[i], width)
  {
    groups := [];
    if lines != [] {
      var before, last := lines[..|lines| - 1], lines[|lines| - 1];
      assert lines == before + [last];
      groups := LinesAreWrapped(before, width);
      LineIsWrapped(last, width);
      WrapOneMore(before, width, groups, last);
      groups := groups + [Pieces(last, width)];
    }
  }

  /** The console lines of a buffer are its lines, in order, each of them wrapped. */
  lemma LogIsWrapped(buf: seq<Byte>, width: nat) returns (groups: seq<seq<seq<Byte>>>)
    requires width > 0
    ensures Flatten(groups) == Wrapped(buf, width) && |groups| == |Split(buf)|
    ensures forall i :: 0 <= i < |groups| ==> IsWrapped(groups[i], Split(buf)[i], width)
    ensures Join(Split(buf)) == buf
  {
    SplitThenJoin(buf);
    groups := LinesAreWrapped(Split(buf), width);
  }

  /** splitLogBuffer */
  method SplitLogBuffer(buf: seq<Byte>, termWidth: nat) returns (lines: seq<seq<Byte>>)
    requires CanWrap(buf, termWidth)
    ensures lines == Wrapped(buf, termWidth)
  {
    CannotWrapLongerLines(buf);
    lines := [];
    var split := Split(buf);
    for i := 0 to |split|
      invariant lines == WrapLines(split[..i], termWidth)
    {
      assert split[..i + 1][..i] == split[..i];
      var line := split[i];
      ghost var before := lines;
      while |line| > termWidth
        invariant termWidth > 0 || line == []
        invariant before + Pieces(split[i], termWidth) == lines + Pieces(line, termWidth)
        decreases |line|
      {
        lines := lines + [line[..termWidth]];
        line := line[termWidth..];
      }
      lines := lines + [line];
    }
    assert split[..|split|] == split;
  }

  // ----- the console -----

  /** A terminal: its lines and the row of the cursor, which is at the start of a line. */
  class Console {
    var lines: seq<seq<Byte>>
    var row: nat

    ghost predicate AtEnd()
      reads this
    {
      row == |lines|
    }

    constructor ()
      ensures lines == [] && row == 0
    {
      lines, row := [], 0;
    }

    method CursorMoveUp(n: nat)
      modifies this`row
      ensures row == if n <= old(row) then old(row) - n else 0
    {
      row := if n <= row then row - n else 0;
    }

    method DeleteLines(n: nat)
      requires row <= |lines|
      modifies this`lines
      ensures lines == old(lines)[..row] + old(lines)[if row + n <= |old(lines)| then row + n else |old(lines)|..]
    {
      lines := lines[..row] + lines[if row + n <= |lines| then row + n else |lines|..];
    }

    method WriteLine(line: seq<Byte>)
      requires AtEnd()
      modifies this
      ensures AtEnd() && lines == old(lines) + [line]
    {
      lines := lines + [line];
      row := row + 1;
    }
  }

  // ----- what should be on it -----

  predicate CanWrapAll(responses: seq<Response>, width: nat) {
    forall i :: 0 <= i < |responses| ==> CanWrap(responses[i].buffer, width)
  }

  /** The lines of the responses that are final. */
  function FinalLines(responses: seq<Response>, width: nat): seq<seq<Byte>>
    requires CanWrapAll(responses, width)
  {
    if responses == [] then []
    else
      var last := responses[|responses| - 1];
      FinalLines(responses[..|responses| - 1], width) + if last.live then [] else Wrapped(last.buffer, width)
  }

  /** The lines of the response that may still change. */
  function LiveLines(responses: seq<Response>, width: nat): seq<seq<Byte>>
    requires CanWrapAll(responses, width)
  {
    if responses == [] || !responses[|responses| - 1].live then []
    else Wrapped(responses[|responses| - 1].buffer, width)
  }

  lemma OneMoreResponse(a: seq<Response>, r: Response, width: nat)
    requires CanWrapAll(a, width) && CanWrap(r.buffer, width)
    ensures CanWrapAll(a + [r], width)
    ensures FinalLines(a + [r], width) == FinalLines(a, width) + if r.live then [] else Wrapped(r.buffer, width)
  {
    assert (a + [r])[..|a|] == a;
  }

  /** Final responses follow one another on the console, whatever live ones there were between them. */
  lemma {:induction false} FinalLinesAdjoin(a: seq<Response>, b: seq<Response>, width: nat)
    requires CanWrapAll(a, width) && CanWrapAll(b, width)
    ensures CanWrapAll(a + b, width)
    ensures FinalLines(a + b, width) == FinalLines(a, width) + FinalLines(b, width)
  {
    if b == [] {
      assert a + b == a;
    } else {
      var init, last := b[..|b| - 1], b[|b| - 1];
      assert b == init + [last] && a + b == (a + init) + [last];
      FinalLinesAdjoin(a, init, width);
      OneMoreResponse(a + init, last, width);
      OneMoreResponse(init, last, width);
      Reassociate(
        FinalLines(a, width), FinalLines(init, width), if last.live then [] else Wrapped(last.buffer, width));
    }
  }

  lemma LinesOfOne(r: Response, width: nat)
    requires CanWrap(r.buffer, width)
    ensures FinalLines([r], width) == (if r.live then [] else Wrapped(r.buffer, width))
    ensures LiveLines([r], width) == (if r.live then Wrapped(r.buffer, width) else [])
  {
    assert [r][..0] == [];
  }

  /** Is the last response held back until the next one arrives? */
  predicate IsHeldBack(responses: seq<Response>) {
    |responses| >= 2 && responses[|responses| - 2].live && !responses[|responses| - 1].live
  }

  function Drawn(responses: seq<Response>): seq<Response> {
    if IsHeldBack(responses) then responses[..|responses| - 1] else responses
  }

  function Undrawn(responses: seq<Response>): seq<Response> {
    if IsHeldBack(responses) then [responses[|responses| - 1]] else []
  }

  // ----- streamLogs -----

  class LogStream {
    const console: Console
    const termWidth: nat
    var moveBack: nat

    constructor (console: Console, termWidth: nat)
      ensures this.console == console && this.termWidth == termWidth && moveBack == 0
    {
      this.console, this.termWidth, moveBack := console, termWidth, 0;
    }

    /** The console shows the final lines and then those of the live response. */
    ghost predicate Shows(start: seq<seq<Byte>>, drawn: seq<Response>)
      reads this, console
    {
      && console.AtEnd()
      && CanWrapAll(drawn, termWidth)
      && console.lines == start + FinalLines(drawn, termWidth) + LiveLines(drawn, termWidth)
      && moveBack == |LiveLines(drawn, termWidth)|
    }

    /** Takes the live response off the console. */
    method Erase(ghost start: seq<seq<Byte>>, ghost drawn: seq<Response>)
      requires Shows(start, drawn)
      modifies console
      ensures console.AtEnd() && console.lines == start + FinalLines(drawn, termWidth)
    {
      ghost var kept := start + FinalLines(drawn, termWidth);
      assert console.lines[..|kept|] == kept;
      if moveBack > 0 {
        console.CursorMoveUp(moveBack);
        console.DeleteLines(moveBack);
      }
    }

    method WriteLines(lines: seq<seq<Byte>>)
      requires console.AtEnd()
      modifies console
      ensures console.AtEnd() && console.lines == old(console.lines) + lines
    {
      for i := 0 to |lines|
        invariant console.AtEnd() && console.lines == old(console.lines) + lines[..i]
      {
        console.WriteLine(lines[i]);
      }
      assert lines[..|lines|] == lines;
    }

    /** Draws a response in place of the live one that is on the console. */
    method DrawChunk(chunk: Response, ghost start: seq<seq<Byte>>, ghost drawn: seq<Response>)
      requires Shows(start, drawn) && CanWrap(chunk.buffer, termWidth)
      modifies this, console
      ensures Shows(start, drawn + [chunk])
    {
      Erase(start, drawn);
      var logLines := SplitLogBuffer(chunk.buffer, termWidth);
      if !chunk.live {
        moveBack := 0;
      } else {
        moveBack := |logLines|;
      }
      WriteLines(logLines);
      LinesOfLonger(start, drawn, chunk, termWidth);
    }

    /** Follows the log as long as replies come in, the server names a next chunk and there is no
        error. After any number of replies, at most one response has not been drawn. */
    method StreamLogs(replies: seq<Reply>) returns (ok: bool, ghost received: seq<Response>)
      requires console.AtEnd() && moveBack == 0
      requires forall i :: 0 <= i < |replies| && replies[i].Ok? ==> CanWrap(replies[i].response.buffer, termWidth)
      modifies this, console
      ensures received == Received(replies)
      ensures Shows(old(console.lines), Drawn(received)) && |Undrawn(received)| <= 1
      ensures ok <==> !EndsInError(replies)
    {
      var chunks: seq<Response> := [];
      var wasLive := false;
      ghost var start := console.lines;
      received := [];
      assert start + [] + [] == start;
      var i := 0;
      while i < |replies|
        invariant 0 <= i <= |replies|
        invariant HaveBeenTaken(received, replies, i)
        invariant IsHolding(start, received, chunks, wasLive)
      {
        TakeReply(received, replies, i);
        if replies[i].Err? {
          return false, received;
        }
        var l := replies[i].response;
        chunks := TakeResponse(chunks, wasLive, l, start, received);
        received := received + [l];
        wasLive := l.live;
        if l.next == Blank {
          return true, received;
        }
        i := i + 1;
      }
      return true, received;
    }

    /** What is known whenever the loop starts over. */
    ghost predicate IsHolding(start: seq<seq<Byte>>, received: seq<Response>, chunks: seq<Response>, wasLive: bool)
      reads this, console
    {
      && wasLive == EndsLive(received)
      && chunks == Undrawn(received) && CanWrapAll(chunks, termWidth)
      && Shows(start, Drawn(received))
    }

    /** The middle of the loop: draw everything that is held back, unless this response replaces a
        live one for good. */
    method TakeResponse(held: seq<Response>, wasLive: bool, l: Response,
        ghost start: seq<seq<Byte>>, ghost received: seq<Response>)
      returns (chunks: seq<Response>)
      requires IsHolding(start, received, held, wasLive) && CanWrap(l.buffer, termWidth)
      modifies this, console
      ensures IsHolding(start, received + [l], chunks, l.live)
    {
      chunks := held + [l];
      ghost var drawn, longer := Drawn(received), received + [l];
      HoldingBack(received, l);
      if !wasLive || l.live {
        assert Drawn(longer) == drawn + chunks && Undrawn(longer) == [];
        DrawAll(chunks, start, drawn);
        chunks := [];
      } else {
        assert Drawn(longer) == drawn && Undrawn(longer) == chunks;
      }
    }

    method DrawAll(chunks: seq<Response>, ghost start: seq<seq<Byte>>, ghost drawn: seq<Response>)
      requires Shows(start, drawn) && CanWrapAll(chunks, termWidth)
      modifies this, console
      ensures Shows(start, drawn + chunks)
    {
      ghost var soFar := drawn;
      for k := 0 to |chunks|
        invariant soFar == drawn + chunks[..k]
        invariant Shows(start, soFar)
      {
        DrawChunk(chunks[k], start, soFar);
        OneMoreAppended(drawn, chunks, k);
        soFar := soFar + [chunks[k]];
      }
      assert chunks[..|chunks|] == chunks;
    }
  }

  lemma OneMoreAppended<T>(a: seq<T>, b: seq<T>, k: nat)
    requires k < |b|
    ensures a + b[..k] + [b[k]] == a + b[..k + 1]
  {
  }

  lemma LinesOfLonger(start: seq<seq<Byte>>, drawn: seq<Response>, chunk: Response, width: nat)
    requires CanWrapAll(drawn, width) && CanWrap(chunk.buffer, width)
    ensures CanWrapAll(drawn + [chunk], width)
    ensures start + FinalLines(drawn + [chunk], width) + LiveLines(drawn + [chunk], width)
      == start + FinalLines(drawn, width) + Wrapped(chunk.buffer, width)
    ensures LiveLines(drawn + [chunk], width) == if chunk.live then Wrapped(chunk.buffer, width) else []
  {
    var longer, lines := drawn + [chunk], Wrapped(chunk.buffer, width);
    assert longer[..|longer| - 1] == drawn;
    assert FinalLines(drawn, width) + [] == FinalLines(drawn, width);
    assert start + (FinalLines(drawn, width) + lines) + [] == start + FinalLines(drawn, width) + lines;
  }

  predicate EndsLive(responses: seq<Response>) {
    responses != [] && responses[|responses| - 1].live
  }

  /** One more response is held back exactly if it is the first final one after a live one;
      otherwise everything has been drawn. */
  lemma HoldingBack(received: seq<Response>, l: Response)
    ensures var longer := received + [l];
      if !EndsLive(received) || l.live then
        Drawn(longer) == longer == Drawn(received) + (Undrawn(received) + [l]) && Undrawn(longer) == []
      else
        Drawn(longer) == received == Drawn(received) && Undrawn(longer) == Undrawn(received) + [l] == [l]
  {
    var longer := received + [l];
    assert longer[..|longer| - 1] == received;
    assert Drawn(received) + Undrawn(received) == received;
  }

  /** The responses that the loop takes before it ends. */
  function Received(replies: seq<Reply>): seq<Response> {
    if replies == [] || replies[0].Err? then []
    else if replies[0].response.next == Blank then [replies[0].response]
    else [replies[0].response] + Received(replies[1..])
  }

  predicate EndsInError(replies: seq<Reply>) {
    replies != [] && (replies[0].Err? || (replies[0].response.next != Blank && EndsInError(replies[1..])))
  }

  /** The loop has got to the i-th reply. */
  predicate HaveBeenTaken(received: seq<Response>, replies: seq<Reply>, i: nat)
    requires i <= |replies|
  {
    && Received(replies) == received + Received(replies[i..])
    && EndsInError(replies) == EndsInError(replies[i..])
  }

  lemma TakeReply(received: seq<Response>, replies: seq<Reply>, i: nat)
    requires i < |replies| && HaveBeenTaken(received, replies, i)
    ensures if replies[i].Err? then Received(replies) == received && EndsInError(replies)
      else if replies[i].response.next == Blank then
        Received(replies) == received + [replies[i].response] && !EndsInError(replies)
      else HaveBeenTaken(received + [replies[i].response], replies, i + 1)
  {
    FirstOfRest(replies, i);
    if replies[i].Ok? {
      Reassociate(received, [replies[i].response], Received(replies[i + 1..]));
      assert [replies[i].response] + [] == [replies[i].response];
    } else {
      assert received + [] == received;
    }
  }

  lemma FirstOfRest(replies: seq<Reply>, i: nat)
    requires i < |replies|
    ensures if replies[i].Err? then EndsInError(replies[i..]) && Received(replies[i..]) == []
      else if replies[i].response.next == Blank then
        !EndsInError(replies[i..]) && Received(replies[i..]) == [replies[i].response] + []
      else
        && EndsInError(replies[i..]) == EndsInError(replies[i + 1..])
        && Received(replies[i..]) == [replies[i].response] + Received(replies[i + 1..])
  {
    assert replies[i..][0] == replies[i] && replies[i..][1..] == replies[i + 1..];
  }
}
