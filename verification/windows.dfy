/** The log writer keeps only the last rows editable and flushes the rows above them
    (server/eventlog/eventlog.go). This module relates its screen to one that keeps every row, and
    the bytes it hands on to what that screen would print. */
module Windows {
  import opened Bytes
  import opened Cells
  import opened ParserSpec
  import opened ScreenSpec
  import opened Wrappers

  /** What a log writer holds and what it has handed on: bytes flushed for good, and the volatile
      tail that the next write replaces. */
  datatype WriterState = WriterState(
    parser: ParserState,
    screen: ScreenState,
    flushed: seq<Byte>,
    tail: seq<Byte>,
    silent: nat)  // how many writes popped a single row that prints as nothing

  const MAX_BUILD_LOG_LINES := 10000

  function NewWriter(): WriterState {
    WriterState(START, NewScreen(MAX_BUILD_LOG_LINES), [], [], 0)
  }

  predicate IsWriter(w: WriterState) {
    IsInstructions(w.parser.instructions) && ScreenSpec.Valid(w.screen)
  }

  /** The screen after a chunk. */
  function Parse(codec: ElementCodec, p: ParserState, s: ScreenState, data: seq<Byte>): (r: ScreenState)
    requires IsInstructions(p.instructions) && ScreenSpec.Valid(s)
    ensures ScreenSpec.Valid(r) && IsInstructions(ParseChunk(p, data).state.instructions)
  {
    RunKeepsValid(p.(cursor := 0), data);
    ApplyAll(codec, s, ParseChunk(p, data).ops)
  }

  /** ANSICursorBufferWriter.Write */
  function WriteChunk(codec: ElementCodec, retain: nat, w: WriterState, data: seq<Byte>): (r: WriterState)
    requires IsWriter(w)
    ensures IsWriter(r)
  {
    if data == [] then w
    else
      var s := Parse(codec, w.parser, w.screen, data);
      var popped := AsANSI(s.rows[..PopCount(s, retain)]);
      var t := Pop(s, retain);
      WriterState(
        ParseChunk(w.parser, data).state,
        t,
        w.flushed + (if popped != [] then popped + [NEWLINE] else []),
        AsANSI(t.rows),
        w.silent + if PopCount(s, retain) == 1 && popped == [] then 1 else 0)
  }

  function WriteAll(codec: ElementCodec, retain: nat, w: WriterState, chunks: seq<seq<Byte>>): (r: WriterState)
    requires IsWriter(w)
    ensures IsWriter(r)
    decreases chunks
  {
    if chunks == [] then w else WriteAll(codec, retain, WriteChunk(codec, retain, w, chunks[0]), chunks[1..])
  }

  /** The same chunks on a screen that neither pops rows nor caps their number. */
  function ParseAll(
      codec: ElementCodec, p: ParserState, s: ScreenState, chunks: seq<seq<Byte>>): (r: (ParserState, ScreenState))
    requires IsInstructions(p.instructions) && ScreenSpec.Valid(s)
    ensures ScreenSpec.Valid(r.1)
    decreases chunks
  {
    if chunks == [] then (p, s)
    else
      var next := Parse(codec, p, s, chunks[0]);
      ParseAll(codec, if chunks[0] == [] then p else ParseChunk(p, chunks[0]).state, next, chunks[1..])
  }

  // ----- one screen as a window on the other -----

  /** The bounded screen shows the last rows of the other one, and the cursors coincide. */
  predicate IsWindow(b: ScreenState, u: ScreenState) {
    && u.rows == b.past.removed + b.rows
    && u.y == |b.past.removed| + b.y
    && u.x == b.x
    && u.style == b.style
  }

  /** What every step keeps. Once the cursor has been held back at the top of the window, it stays
      further down than it would be on the other screen. */
  predicate Linked(b: ScreenState, u: ScreenState) {
    && ScreenSpec.Valid(b) && ScreenSpec.Valid(u)
    && u.maxLines <= 0
    && u.x == b.x
    && u.style == b.style
    && (if b.past.clamped then b.past.removed != [] && u.y < |b.past.removed| + b.y else IsWindow(b, u))
  }

  lemma GrowHeightLinked(b: ScreenState, u: ScreenState)
    requires Linked(b, u)
    ensures Linked(GrowHeight(b), GrowHeight(u))
  {
    GrowHeightKeepsCursor(b);
    GrowHeightKeepsCursor(u);
    if !b.past.clamped {
      var removed, grown := b.past.removed, Extended(b.rows, b.y);
      assert Extended(u.rows, u.y) == removed + grown;
      var extra := Excess(b);
      Reassociate(removed, grown[..extra], grown[extra..]);
      assert grown[..extra] + grown[extra..] == grown;
    }
  }

  lemma PutLinked(b: ScreenState, u: ScreenState, n: Node)
    requires Linked(b, u)
    ensures Linked(Put(b, n), Put(u, n))
  {
    GrowHeightKeepsCursor(b);
    GrowHeightKeepsCursor(u);
    GrowHeightLinked(b, u);
    var c, v := GrowHeight(b), GrowHeight(u);
    if !c.past.clamped {
      var line := GrowWidth(c.rows[c.y], c.x)[c.x := n];
      assert v.rows[v.y] == c.rows[c.y];
      assert v.rows[v.y := line] == c.past.removed + c.rows[c.y := line];
    }
  }

  lemma AppendLinked(b: ScreenState, u: ScreenState, data: Rune)
    requires Linked(b, u)
    ensures Linked(AppendChar(b, data), AppendChar(u, data))
  {
    PutLinked(b, u, Node(b.style, None, data));
  }

  lemma {:induction false} AppendManyLinked(b: ScreenState, u: ScreenState, data: seq<Rune>)
    requires Linked(b, u)
    ensures Linked(AppendMany(b, data), AppendMany(u, data))
    decreases data
  {
    if data != [] {
      AppendLinked(b, u, data[0]);
      AppendManyLinked(AppendChar(b, data[0]), AppendChar(u, data[0]), data[1..]);
    }
  }

  lemma ClearLinked(b: ScreenState, u: ScreenState, xStart: int, xEnd: int)
    requires Linked(b, u)
    ensures Linked(Clear(b, b.y, xStart, xEnd), Clear(u, u.y, xStart, xEnd))
  {
    if !b.past.clamped && b.y < |b.rows| {
      assert u.rows[u.y] == b.rows[b.y];
      var line := Clear(b, b.y, xStart, xEnd).rows[b.y];
      assert u.rows[u.y := line] == b.past.removed + b.rows[b.y := line];
    }
  }

  lemma EscapeLinked(b: ScreenState, u: ScreenState, code: Rune, instructions: seq<seq<Byte>>)
    requires Linked(b, u) && IsInstructions(instructions)
    ensures Linked(ApplyEscape(b, code, instructions), ApplyEscape(u, code, instructions))
  {
    if code == 'K' as int {
      ClearLinked(b, u, b.x, END_OF_LINE);
      ClearLinked(b, u, START_OF_LINE, b.x);
      ClearLinked(b, u, START_OF_LINE, END_OF_LINE);
    }
  }

  lemma ElementLinked(b: ScreenState, u: ScreenState, e: Element)
    requires Linked(b, u)
    ensures Linked(AppendElement(b, e), AppendElement(u, e))
  {
    PutLinked(b, u, Node(b.style, Some(e), 0));
  }

  lemma OwnLineLinked(b: ScreenState, u: ScreenState)
    requires Linked(b, u)
    ensures Linked(OwnLine(b), OwnLine(u))
  {
    if b.x != 0 {
      ClearLinked(StartNewLine(b), StartNewLine(u), START_OF_LINE, END_OF_LINE);
    } else {
      ClearLinked(b, u, START_OF_LINE, END_OF_LINE);
    }
  }

  lemma OscLinked(b: ScreenState, u: ScreenState, result: ElementResult)
    requires Linked(b, u)
    ensures Linked(PutOscElement(b, result), PutOscElement(u, result))
  {
    OwnLineLinked(b, u);
    match result {
      case NoElement =>
      case Parsed(e) =>
        ElementLinked(b, u, e);
        ElementLinked(OwnLine(b), OwnLine(u), e);
      case Failed(message) =>
        AppendManyLinked(OwnLine(b), OwnLine(u), OSC_ERROR);
        AppendManyLinked(AppendMany(OwnLine(b), OSC_ERROR), AppendMany(OwnLine(u), OSC_ERROR), message);
    }
  }

  lemma ApcLinked(b: ScreenState, u: ScreenState, result: ElementResult)
    requires Linked(b, u)
    ensures Linked(PutApcElement(b, result), PutApcElement(u, result))
  {
    match result {
      case NoElement =>
      case Parsed(e) => ElementLinked(b, u, e);
      case Failed(message) =>
        AppendManyLinked(b, u, APC_ERROR);
        AppendManyLinked(AppendMany(b, APC_ERROR), AppendMany(u, APC_ERROR), message);
    }
  }

  lemma ApplyLinked(codec: ElementCodec, b: ScreenState, u: ScreenState, op: Op)
    requires Linked(b, u) && IsOp(op)
    ensures Linked(Apply(codec, b, op), Apply(codec, u, op))
  {
    match op {
      case Append(c) => AppendLinked(b, u, c);
      case Sequence(code, instructions) => EscapeLinked(b, u, code, instructions);
      case OscElement(payload) => OscLinked(b, u, codec.osc(payload));
      case ApcElement(payload) => ApcLinked(b, u, codec.apc(payload));
      case _ =>
    }
  }

  lemma {:induction false} ApplyAllLinked(codec: ElementCodec, b: ScreenState, u: ScreenState, ops: seq<Op>)
    requires Linked(b, u) && AreOps(ops)
    ensures Linked(ApplyAll(codec, b, ops), ApplyAll(codec, u, ops))
    decreases ops
  {
    if ops != [] {
      ApplyLinked(codec, b, u, ops[0]);
      ApplyAllLinked(codec, Apply(codec, b, ops[0]), Apply(codec, u, ops[0]), ops[1..]);
    }
  }

  lemma PopLinked(b: ScreenState, u: ScreenState, retain: nat)
    requires Linked(b, u)
    ensures Linked(Pop(b, retain), u)
  {
    var extra := PopCount(b, retain);
    assert b.rows[..extra] + b.rows[extra..] == b.rows;
    Reassociate(b.past.removed, b.rows[..extra], b.rows[extra..]);
  }

  lemma ParseNothing(codec: ElementCodec, p: ParserState, s: ScreenState)
    requires IsInstructions(p.instructions) && ScreenSpec.Valid(s)
    ensures Parse(codec, p, s, []) == s
  {
  }

  lemma {:induction false} WritesStayLinked(
      codec: ElementCodec, retain: nat, w: WriterState, u: ScreenState, chunks: seq<seq<Byte>>)
    requires IsWriter(w) && Linked(w.screen, u)
    ensures var last := WriteAll(codec, retain, w, chunks); var (q, v) := ParseAll(codec, w.parser, u, chunks);
      Linked(last.screen, v) && last.parser == q
    decreases chunks
  {
    if chunks != [] {
      var data := chunks[0];
      var next := Parse(codec, w.parser, u, data);
      if data == [] {
        ParseNothing(codec, w.parser, u);
      } else {
        RunKeepsValid(w.parser.(cursor := 0), data);
        ApplyAllLinked(codec, w.screen, u, ParseChunk(w.parser, data).ops);
        PopLinked(Parse(codec, w.parser, w.screen, data), next, retain);
      }
      WritesStayLinked(codec, retain, WriteChunk(codec, retain, w, data), next, chunks[1..]);
    }
  }

  /** After any sequence of writes, the bounded screen is a window on the untrimmed one exactly when
      the cursor was never held back at the top after rows had gone; the parsers always agree. */
  lemma BoundedScreenIsWindowExactly(codec: ElementCodec, retain: nat, chunks: seq<seq<Byte>>)
    ensures var w := WriteAll(codec, retain, NewWriter(), chunks);
      var (p, u) := ParseAll(codec, START, NewScreen(0), chunks);
      && w.parser == p
      && (IsWindow(w.screen, u) <==> !w.screen.past.clamped)
  {
    WritesStayLinked(codec, retain, NewWriter(), NewScreen(0), chunks);
  }

  // ----- what stays editable -----

  /** No more rows than these are kept, unless the cursor is on the first one. */
  predicate IsTrimmed(s: ScreenState, retain: nat) {
    |s.rows| <= retain || s.y == 0
  }

  /** The number of rows that a pop takes is the only one that leaves the cursor row alone, trims the
      screen and takes no row that was to be retained. */
  lemma PopCountExactly(s: ScreenState, retain: nat, n: nat)
    requires ScreenSpec.Valid(s)
    ensures n == PopCount(s, retain) <==>
      && n <= |s.rows| && n <= s.y
      && (|s.rows| - n <= retain || n == s.y)
      && (n > 0 ==> |s.rows| - n >= retain)
  {
    var m := PopCount(s, retain);
    if n < m && n <= s.y {
      assert |s.rows| - n > |s.rows| - m >= retain;
    }
  }

  lemma {:induction false} WritesTrim(codec: ElementCodec, retain: nat, w: WriterState, chunks: seq<seq<Byte>>)
    requires IsWriter(w) && IsTrimmed(w.screen, retain)
    ensures IsTrimmed(WriteAll(codec, retain, w, chunks).screen, retain)
    ensures WriteAll(codec, retain, w, chunks).screen.maxLines == w.screen.maxLines
    decreases chunks
  {
    if chunks != [] {
      RunKeepsValid(w.parser.(cursor := 0), chunks[0]);
      WritesTrim(codec, retain, WriteChunk(codec, retain, w, chunks[0]), chunks[1..]);
    }
  }

  /** After any writes, at most the retained number of rows is still editable, unless the cursor holds more
      back, and never more than 10000; and no write takes a row away that was to be retained. */
  lemma OnlyLastRowsStayEditable(codec: ElementCodec, retain: nat, chunks: seq<seq<Byte>>, data: seq<Byte>)
    ensures var w := WriteAll(codec, retain, NewWriter(), chunks);
      && (|w.screen.rows| <= retain || w.screen.y == 0)
      && |w.screen.rows| <= w.screen.maxLines == 10000
      && var s, t := Parse(codec, w.parser, w.screen, data), WriteChunk(codec, retain, w, data).screen;
      && s.past.removed + s.rows == t.past.removed + t.rows
      && (|t.past.removed| > |s.past.removed| ==> |t.rows| >= retain)
  {
    WritesTrim(codec, retain, NewWriter(), chunks);
    var w := WriteAll(codec, retain, NewWriter(), chunks);
    ParseNothing(codec, w.parser, w.screen);
    var s := Parse(codec, w.parser, w.screen, data);
    var n := PopCount(s, retain);
    assert s.rows == s.rows[..n] + s.rows[n..];
    Reassociate(s.past.removed, s.rows[..n], s.rows[n..]);
  }
}
