/** Inputs on which the claims about the terminal and the log fail that hold under conditions only. */
module TerminalExamples {
  import opened Bytes
  import opened Cells
  import opened ParserSpec
  import opened RoundTrip
  import opened ScreenSpec
  import opened Strconv
  import opened Streaming
  import opened Styles
  import opened Utf8
  import opened WholeLogs
  import opened Windows
  import opened Wrappers
  import opened WriteLoops

  const A: Byte := 'a' as int
  const B: Byte := 'b' as int
  const X: Byte := 'X' as int

  /** Text sends the same operations to whoever is in normal mode. */
  lemma SendsFrom(p: ParserState, data: seq<Byte>, ops: seq<Op>)
    requires p.mode == Normal && Sends(data, ops)
    ensures ParseChunk(p, data).ops == ops && ParseChunk(p, data).state.mode == Normal
  {
    RunAgrees(p.(cursor := 0), START, [], data);
    assert [] + data == data;
  }

  lemma LetterSends(letter: Byte)
    requires ' ' as int <= letter < 127
    ensures Sends([letter], [Append(letter)])
  {
    RuneSends(letter);
  }

  function Plain(letter: Byte): Node {
    Node(EMPTY_STYLE, None, letter)
  }

  // ----- a pop that goes without its newline -----

  lemma LinesPrint()
    ensures AsANSI([[]]) == [] && AsANSI([[Plain(A)]]) == [A] && AsANSI([[], [Plain(A)]]) == [NEWLINE, A]
  {
    PlainRowPrints(A);
    assert OutputLines([[]]) == [[]] && OutputLines([[Plain(A)]]) == [[A]];
    assert OutputLines([[], [Plain(A)]]) == [[], [A]] && [[], [A]][1..] == [[A]];
    assert [] + [NEWLINE] + [A] == [NEWLINE, A];
  }

  lemma PlainRowPrints(letter: Byte)
    requires ' ' as int < letter < 127
    ensures OutputLine([Plain(letter)]) == [letter]
  {
    var row := [Plain(letter)];
    PrintedPlainCell(row);
    assert row[..0] == [] && Printed([]) == [];
    TrimLastRune([], letter);
    assert [] + [letter] == [letter];
  }

  lemma NewlineThenLetterSends()
    ensures Sends([NEWLINE, A], [NewLine, Append(A)])
  {
    NewlineSends();
    LetterSends(A);
    SendsTogether([NEWLINE], [NewLine], [A], [Append(A)]);
    assert [NEWLINE] + [A] == [NEWLINE, A] && [NewLine] + [Append(A)] == [NewLine, Append(A)];
  }

  lemma FirstRowIsPopped(s: ScreenState)
    requires ScreenSpec.Valid(s) && s.rows == [[], [Plain(A)]] && s.y == 1
    ensures PopCount(s, 1) == 1 && AsANSI(s.rows[..1]) == [] && AsANSI(Pop(s, 1).rows) == [A]
  {
    LinesPrint();
    assert s.rows[..1] == [[]] && s.rows[1..] == [[Plain(A)]];
  }

  /** A newline and a letter, written at once to a writer that retains one row: the empty first row is
      popped, and its newline is nowhere. */
  lemma SilentPopLosesNewline(codec: ElementCodec)
    ensures var chunks := [[NEWLINE, A]];
      var w := WriteAll(codec, 1, NewWriter(), chunks); var (_, u) := ParseAll(codec, START, NewScreen(0), chunks);
      && w.silent == 1 && w.flushed == [] && w.tail == [A] && !w.screen.past.clamped
      && AsANSI(u.rows) == [NEWLINE, A]
  {
    NewlineThenLetterSends();
    NewLineThenLetter(codec, MAX_BUILD_LOG_LINES);
    NewLineThenLetter(codec, 0);
    LinesPrint();
    OneChunk(codec, 1, NewWriter(), NewScreen(0), [NEWLINE, A]);
    FirstRowIsPopped(Parse(codec, START, NewScreen(MAX_BUILD_LOG_LINES), [NEWLINE, A]));
  }

  lemma OneChunk(codec: ElementCodec, retain: nat, w: WriterState, u: ScreenState, data: seq<Byte>)
    requires IsWriter(w) && ScreenSpec.Valid(u) && data != []
    ensures WriteAll(codec, retain, w, [data]) == WriteChunk(codec, retain, w, data)
    ensures ParseAll(codec, w.parser, u, [data]).1 == Parse(codec, w.parser, u, data)
  {
    assert [data][1..] == [];
  }

  lemma ApplyTwo(codec: ElementCodec, s: ScreenState, a: Op, b: Op)
    requires ScreenSpec.Valid(s) && IsOp(a) && IsOp(b)
    ensures AreOps([a, b]) && ApplyAll(codec, s, [a, b]) == Apply(codec, Apply(codec, s, a), b)
  {
    assert [a, b] == [a] + [b];
    ApplyOne(codec, s, a);
    ApplyOne(codec, Apply(codec, s, a), b);
    ApplyAllAppend(codec, s, [a], [b]);
  }

  lemma ApplyOne(codec: ElementCodec, s: ScreenState, a: Op)
    requires ScreenSpec.Valid(s) && IsOp(a)
    ensures AreOps([a]) && ApplyAll(codec, s, [a]) == Apply(codec, s, a)
  {
    assert [a][1..] == [];
  }

  /** A letter written at the start of a line below the grid. */
  lemma LetterStartsLine(s: ScreenState, letter: Byte)
    requires ScreenSpec.Valid(s) && s.x == 0 && s.y >= |s.rows| && s.style == EMPTY_STYLE
    requires s.maxLines <= 0 || s.y < s.maxLines
    ensures AppendChar(s, letter)
      == s.(rows := s.rows + BlankRows(s.y - |s.rows|) + [[Plain(letter)]], x := 1)
  {
    AppendExtendsRow(s, [], EMPTY_STYLE, letter);
    assert [] + [Node(EMPTY_STYLE, None, letter)] == [Plain(letter)];
    assert WithRow(s, []).(style := EMPTY_STYLE) == s;
  }

  lemma NewLineThenLetter(codec: ElementCodec, maxLines: int)
    requires maxLines <= 0 || maxLines >= 2
    ensures AreOps([NewLine, Append(A)])
    ensures var s := ApplyAll(codec, NewScreen(maxLines), [NewLine, Append(A)]);
      s.rows == [[], [Plain(A)]] && s.y == 1 && s.past == NO_HISTORY
  {
    var t := StartNewLine(NewScreen(maxLines));
    ApplyTwo(codec, NewScreen(maxLines), NewLine, Append(A));
    LetterStartsLine(t, A);
    var empty: Row := [];
    assert BlankRows(1) == [empty];
  }

  // ----- a tail that is forgotten -----

  lemma LetterIsShown(codec: ElementCodec, maxLines: int)
    requires maxLines <= 0 || maxLines >= 2
    ensures IsOp(Append(A))
    ensures var s := ApplyAll(codec, NewScreen(maxLines), [Append(A)]);
      s.rows == [[Plain(A)]] && s.y == 0 && s.past == NO_HISTORY
  {
    ApplyOne(codec, NewScreen(maxLines), Append(A));
    LetterStartsLine(NewScreen(maxLines), A);
    assert [] + BlankRows(0) + [[Plain(A)]] == [[Plain(A)]];
  }

  /** Nothing is popped yet: the letter is all tail. */
  lemma LetterIsTail(codec: ElementCodec)
    ensures var w := WriteChunk(codec, 1, NewWriter(), [A]);
      && w.flushed == [] && w.tail == [A] && w.screen.past == NO_HISTORY && w.screen.y == 0
      && w.screen.rows == [[Plain(A)]]
    ensures AsANSI(Parse(codec, START, NewScreen(0), [A]).rows) == [A]
  {
    LetterSends(A);
    LetterIsShown(codec, MAX_BUILD_LOG_LINES);
    LetterIsShown(codec, 0);
    LinesPrint();
    var s := Parse(codec, START, NewScreen(MAX_BUILD_LOG_LINES), [A]);
    assert s.rows[..0] == [] && s.rows[0..] == s.rows && OutputLines([]) == [];
  }

  const BLOCKS := Options(100, true)
  const IMMEDIATE := Luck(1, false)

  lemma LoopForgets()
    ensures Iteration(BLOCKS, IDLE, Write([], Some([A])), IMMEDIATE) == IDLE.(volatileTail := [A])
    ensures Iteration(BLOCKS, IDLE.(volatileTail := [A]), Write([], Some([])), IMMEDIATE) == IDLE
    ensures Iteration(BLOCKS, IDLE, Close, IMMEDIATE) == LoopState([[]], [], [], false, false)
  {
  }

  /** The first letter is printed, and somebody asks for the id of the last chunk. */
  const ASKED := [Turn(Data([A]), IMMEDIATE), Turn(AskLastChunk, IMMEDIATE)]

  lemma TwoTurns(o: Options, codec: ElementCodec, retain: nat, log: LogState, a: Turn, b: Turn)
    requires IsWriter(log.writer)
    ensures TakeTurns(o, codec, retain, log, [a, b])
      == TakeTurn(o, codec, retain, TakeTurn(o, codec, retain, log, a), b)
  {
    var turns, first := [a, b], TakeTurn(o, codec, retain, log, a);
    assert turns[1..] == [b] && [b][1..] == [];
    assert TakeTurns(o, codec, retain, log, turns) == TakeTurns(o, codec, retain, first, [b]);
    assert TakeTurns(o, codec, retain, first, [b]) == TakeTurn(o, codec, retain, first, b);
  }

  lemma TailIsTaken(codec: ElementCodec, w: WriterState, r: WriterState)
    requires IsWriter(w) && r == WriterAfter(codec, 1, w, Data([A]))
    requires w.flushed == [] && r.flushed == [] && r.tail == [A]
    ensures TakeTurn(BLOCKS, codec, 1, LogState(w, IDLE), Turn(Data([A]), IMMEDIATE))
      == LogState(r, IDLE.(volatileTail := [A]))
  {
    LoopForgets();
    assert SentEvent(codec, 1, w, Data([A])) == Write([], Some([A]));
  }

  lemma FirstTurn(codec: ElementCodec)
    ensures var first := TakeTurn(BLOCKS, codec, 1, NEW_LOG, Turn(Data([A]), IMMEDIATE));
      first.writer.screen.past == NO_HISTORY && first.loop == IDLE.(volatileTail := [A])
  {
    LetterIsTail(codec);
    TailIsTaken(codec, NewWriter(), WriterAfter(codec, 1, NewWriter(), Data([A])));
  }

  lemma SecondTurn(codec: ElementCodec, log: LogState)
    requires IsWriter(log.writer) && log.loop == IDLE.(volatileTail := [A])
    ensures var next := TakeTurn(BLOCKS, codec, 1, log, Turn(AskLastChunk, IMMEDIATE));
      next.writer == log.writer && next.loop == IDLE
  {
    LoopForgets();
    var e := SentEvent(codec, 1, log.writer, AskLastChunk);
    assert e == Write([], Some([]));
    assert Iteration(BLOCKS, log.loop, e, IMMEDIATE) == IDLE;
  }

  lemma AskedForgets(codec: ElementCodec)
    ensures var log := TakeTurns(BLOCKS, codec, 1, NEW_LOG, ASKED);
      log.writer.screen.past == NO_HISTORY && log.loop == IDLE
  {
    var a, b := Turn(Data([A]), IMMEDIATE), Turn(AskLastChunk, IMMEDIATE);
    FirstTurn(codec);
    SecondTurn(codec, TakeTurn(BLOCKS, codec, 1, NEW_LOG, a));
    TwoTurns(BLOCKS, codec, 1, NEW_LOG, a, b);
  }

  lemma AskedData()
    ensures DataOf(ASKED) == [[A]] && Forgets(false, ASKED)
  {
    assert ASKED[1..] == [ASKED[1]] && ASKED[1..][1..] == [];
    assert DataOf([]) == [];
    assert DataOf([ASKED[1]]) == [];
  }

  /** One letter, a question for the last chunk, and the end: the log is stored without the letter. */
  lemma AskingForgetsTail(codec: ElementCodec)
    ensures var t := Closed(BLOCKS, codec, 1, ASKED, Close, IMMEDIATE);
      t.stored == [[]] && !t.failed && !TakeTurns(BLOCKS, codec, 1, NEW_LOG, ASKED).writer.screen.past.clamped
    ensures AsANSI(ParseAll(codec, START, NewScreen(0), DataOf(ASKED)).1.rows) == [A]
  {
    AskedForgets(codec);
    LoopForgets();
    TerminalShowsLetter(codec);
  }

  lemma TerminalShowsLetter(codec: ElementCodec)
    ensures AsANSI(ParseAll(codec, START, NewScreen(0), DataOf(ASKED)).1.rows) == [A]
  {
    AskedData();
    LetterIsTail(codec);
    OneChunk(codec, 1, NewWriter(), NewScreen(0), [A]);
  }

  // ----- a colour that printing loses -----

  const THIRTY_EIGHT: seq<Byte> := ['3' as int, '8' as int]
  const FIVE: seq<Byte> := ['5' as int]
  const ONE_DIGIT: seq<Byte> := ['1' as int]
  const RED := [THIRTY_EIGHT, FIVE, ONE_DIGIT]
  const RED_SEQUENCE: seq<Byte> :=
    [ESCAPE, '[' as int, '3' as int, '8' as int, ';' as int, '5' as int, ';' as int, '1' as int, 'm' as int]

  /** The state after an instruction that ends at a semicolon. */
  function AfterInstruction(p: ParserState, data: seq<Byte>, end: nat): ParserState
    requires p.cursor < end < |data|
  {
    p.(cursor := end + 1, instructionStartedAt := end + 1, instructions := p.instructions + [data[p.cursor..end]])
  }

  lemma SemicolonStep(p: ParserState, data: seq<Byte>, end: nat)
    requires p.mode == Control && p.instructionStartedAt == p.cursor < end < |data| && data[end] == ';' as int
    ensures Step(p.(cursor := end), data) == Effect(AfterInstruction(p, data, end), [])
  {
    var d := CharactersAreRead(data, end);
    assert d == Decoded(';' as int, 1);
  }

  lemma InstructionRun(p: ParserState, data: seq<Byte>, end: nat)
    requires p.mode == Control && p.instructionStartedAt == p.cursor < end < |data| && data[end] == ';' as int
    requires forall i :: p.cursor <= i < end ==> IsParameterByte(data[i])
    ensures Run(p, data) == Run(AfterInstruction(p, data, end), data)
  {
    QuietBytes(p, data, end);
    SemicolonStep(p, data, end);
    QuietStepRun(p.(cursor := end), data, AfterInstruction(p, data, end));
  }

  lemma TwoInstructionsRun(p: ParserState, data: seq<Byte>, j: nat)
    requires p.mode == Control && p.instructionStartedAt == p.cursor < j && j + 2 < |data| && |p.instructions| == 1
    requires data[j] == ';' as int && data[|data| - 1] == 'm' as int
    requires forall k :: p.cursor <= k < |data| - 1 && k != j ==> IsParameterByte(data[k])
    ensures Run(p, data).ops == [Sequence(M, [p.instructions[0], data[p.cursor..j], data[j + 1..|data| - 1]])]
    ensures Run(p, data).state.mode == Normal
  {
    InstructionRun(p, data, j);
    var q := AfterInstruction(p, data, j);
    LastInstructionRun(q, data);
    assert q.instructions + [data[j + 1..|data| - 1]]
      == [p.instructions[0], data[p.cursor..j], data[j + 1..|data| - 1]];
  }

  /** A colour sequence of three instructions. */
  lemma ThreeInstructionsRun(data: seq<Byte>, i: nat, j: nat)
    requires 2 < i && i + 1 < j && j + 2 < |data|
    requires data[0] == ESCAPE && data[1] == '[' as int && data[i] == ';' as int && data[j] == ';' as int
    requires data[|data| - 1] == 'm' as int
    requires forall k :: 2 <= k < |data| - 1 && k != i && k != j ==> IsParameterByte(data[k])
    ensures Run(START, data).ops == [Sequence(M, [data[2..i], data[i + 1..j], data[j + 1..|data| - 1]])]
    ensures Run(START, data).state.mode == Normal
  {
    EntersControl(data);
    InstructionRun(IN_CONTROL, data, i);
    TwoInstructionsRun(AfterInstruction(IN_CONTROL, data, i), data, j);
    assert [] + [data[2..i]] == [data[2..i]];
  }

  lemma RedSends()
    ensures Sends(RED_SEQUENCE, [Sequence(M, RED)])
  {
    var data := RED_SEQUENCE;
    AsciiEndsOnRuneBoundary(data);
    ThreeInstructionsRun(data, 4, 6);
    assert data[2..4] == THIRTY_EIGHT && data[5..6] == FIVE && data[7..8] == ONE_DIGIT;
  }

  lemma RedLetterSends()
    ensures Sends(RED_SEQUENCE + [X], [Sequence(M, RED), Append(X)])
  {
    RedSends();
    LetterSends(X);
    SendsTogether(RED_SEQUENCE, [Sequence(M, RED)], [X], [Append(X)]);
    assert [Sequence(M, RED)] + [Append(X)] == [Sequence(M, RED), Append(X)];
  }

  lemma RedLetterIsShown(codec: ElementCodec) returns (n: Node)
    ensures Parse(codec, START, NewScreen(0), RED_SEQUENCE + [X]).rows == [[n]]
    ensures n.style == Color(EMPTY_STYLE, RED) && n.blob == X && HasPrintableCodes(n.style)
  {
    RedLetterSends();
    ColorKeepsPrintableCodes(EMPTY_STYLE, RED);
    ApplyTwo(codec, NewScreen(0), Sequence(M, RED), Append(X));
    var style := Color(EMPTY_STYLE, RED);
    n := Node(style, None, X);
    StyledLetterStartsLine(style);
    assert Apply(codec, NewScreen(0), Sequence(M, RED)) == NewScreen(0).(style := style);
  }

  lemma StyledLetterStartsLine(style: Style)
    ensures AppendChar(NewScreen(0).(style := style), X).rows == [[Node(style, None, X)]]
  {
    AppendExtendsRow(NewScreen(0), [], style, X);
    assert WithRow(NewScreen(0), []).(style := style) == NewScreen(0).(style := style);
    assert [] + [Node(style, None, X)] == [Node(style, None, X)];
    assert [] + BlankRows(0) + [[Node(style, None, X)]] == [[Node(style, None, X)]];
  }

  /** A letter in a colour of the 256-colour palette: the screen that is printed does not come back. */
  lemma ExtendedColorDoesNotComeBack(codec: ElementCodec)
    ensures var rows := Parse(codec, START, NewScreen(0), RED_SEQUENCE + [X]).rows;
      !Reproduces(Reparsed(codec, 0, rows), rows)
  {
    ShortNumbers('1' as int, '1' as int, '1' as int);
    UnfaithfulLists(ONE_DIGIT);
    var n := RedLetterIsShown(codec);
    var rows := [[n]];
    assert IsPrintable(rows[0]);
    assert TrimRow(rows[0]) == rows[0] && IsLeader(rows[0], 0);
    assert !HasFaithfulLeaders(TrimRow(rows[0]));
    PrintedScreenComesBackExactly(codec, 0, rows);
  }

  // ----- a cursor that is held back -----

  const UP: seq<Byte> := [ESCAPE, '[' as int, 'A' as int]

  lemma UpSends()
    ensures Sends(UP, [Sequence('A' as int, [])])
  {
    AsciiEndsOnRuneBoundary(UP);
    EntersControl(UP);
    OneStepRun(IN_CONTROL, UP);
  }

  const TWO_LINES: seq<Byte> := [A, NEWLINE, B]
  const UP_AND_X: seq<Byte> := UP + [X]

  lemma TwoLinesSend()
    ensures Sends(TWO_LINES, [Append(A), NewLine, Append(B)])
  {
    LetterSends(A);
    NewlineSends();
    LetterSends(B);
    SendsTogether([A], [Append(A)], [NEWLINE], [NewLine]);
    SendsTogether([A] + [NEWLINE], [Append(A)] + [NewLine], [B], [Append(B)]);
    assert [A] + [NEWLINE] + [B] == TWO_LINES;
    assert [Append(A)] + [NewLine] + [Append(B)] == [Append(A), NewLine, Append(B)];
  }

  lemma UpAndXSend()
    ensures Sends(UP_AND_X, [Sequence('A' as int, []), Append(X)])
  {
    UpSends();
    LetterSends(X);
    SendsTogether(UP, [Sequence('A' as int, [])], [X], [Append(X)]);
    assert [Sequence('A' as int, [])] + [Append(X)] == [Sequence('A' as int, []), Append(X)];
  }

  lemma TwoLinesAreShown(codec: ElementCodec, maxLines: int)
    requires maxLines <= 0 || maxLines >= 2
    ensures AreOps([Append(A), NewLine, Append(B)])
    ensures ApplyAll(codec, NewScreen(maxLines), [Append(A), NewLine, Append(B)])
      == NewScreen(maxLines).(rows := [[Plain(A)], [Plain(B)]], x := 1, y := 1)
  {
    var s := NewScreen(maxLines);
    LetterStartsLine(s, A);
    var t := s.(rows := [[Plain(A)]], x := 1);
    assert [] + BlankRows(0) + [[Plain(A)]] == [[Plain(A)]];
    assert AppendChar(s, A) == t;
    ApplyTwo(codec, s, Append(A), NewLine);
    var u := StartNewLine(t);
    LetterStartsLine(u, B);
    assert [[Plain(A)]] + BlankRows(0) + [[Plain(B)]] == [[Plain(A)], [Plain(B)]];
    ApplyOne(codec, u, Append(B));
    ApplyAllAppend(codec, s, [Append(A), NewLine], [Append(B)]);
    assert [Append(A), NewLine] + [Append(B)] == [Append(A), NewLine, Append(B)];
  }

  /** A second letter on a line, one line higher if there is one. */
  lemma XIsShownAbove(codec: ElementCodec, s: ScreenState, letter: Byte)
    requires ScreenSpec.Valid(s) && s.x == 1 && 0 <= s.y <= 1 && s.y < |s.rows| && s.style == EMPTY_STYLE
    requires s.rows[0] == [Plain(letter)]
    ensures AreOps([Sequence('A' as int, []), Append(X)])
    ensures ApplyAll(codec, s, [Sequence('A' as int, []), Append(X)])
      == Up(s, []).(rows := s.rows[0 := [Plain(letter), Plain(X)]], x := 2)
  {
    ApplyTwo(codec, s, Sequence('A' as int, []), Append(X));
    var t := Up(s, []);
    assert t.y == 0 && Extended(t.rows, t.y) == t.rows;
    assert GrowWidth([Plain(letter)], 1)[1 := Plain(X)] == [Plain(letter), Plain(X)];
  }

  lemma TwoLettersPrint(letter: Byte)
    requires ' ' as int < letter < 127
    ensures OutputLine([Plain(letter), Plain(X)]) == [letter, X]
  {
    var row := [Plain(letter), Plain(X)];
    PrintedPlainCell(row);
    PrintedPlainCell([Plain(letter)]);
    assert row[..1] == [Plain(letter)] && [Plain(letter)][..0] == [] && Printed([]) == [];
    assert [] + [letter] == [letter] && [letter] + [X] == [letter, X];
    TrimLastRune([letter], X);
  }

  lemma TwoChunks(codec: ElementCodec, retain: nat, w: WriterState, u: ScreenState, a: seq<Byte>, b: seq<Byte>)
    requires IsWriter(w) && ScreenSpec.Valid(u) && a != [] && b != []
    ensures WriteAll(codec, retain, w, [a, b]) == WriteChunk(codec, retain, WriteChunk(codec, retain, w, a), b)
    ensures ParseAll(codec, w.parser, u, [a, b]).1
      == Parse(codec, ParseChunk(w.parser, a).state, Parse(codec, w.parser, u, a), b)
  {
    assert [a, b][1..] == [b] && [b][1..] == [];
    OneChunk(codec, retain, WriteChunk(codec, retain, w, a), Parse(codec, w.parser, u, a), b);
  }

  lemma FirstLineIsPopped(s: ScreenState)
    requires ScreenSpec.Valid(s) && s.rows == [[Plain(A)], [Plain(B)]] && s.y == 1
    ensures PopCount(s, 1) == 1 && AsANSI(s.rows[..1]) == [A]
    ensures Pop(s, 1) == s.(rows := [[Plain(B)]], y := 0, past := s.past.(removed := s.past.removed + [[Plain(A)]]))
  {
    LinesPrint();
    assert s.rows[..1] == [[Plain(A)]] && s.rows[1..] == [[Plain(B)]];
  }

  /** The log writer after two lines: the first has been flushed, the second is the tail. */
  lemma FirstLineIsFlushed(codec: ElementCodec)
    ensures var w := WriteChunk(codec, 1, NewWriter(), TWO_LINES);
      && w.parser.mode == Normal && w.flushed == [A, NEWLINE] && w.silent == 0
      && w.screen == NewScreen(MAX_BUILD_LOG_LINES).(
        rows := [[Plain(B)]], x := 1, past := History([[Plain(A)]], 0, false))
  {
    TwoLinesSend();
    TwoLinesAreShown(codec, MAX_BUILD_LOG_LINES);
    FirstLineIsPopped(Parse(codec, START, NewScreen(MAX_BUILD_LOG_LINES), TWO_LINES));
    assert [] + [[Plain(A)]] == [[Plain(A)]];
    assert [] + ([A] + [NEWLINE]) == [A, NEWLINE];
  }

  /** Then the cursor goes up: it is held back, and the letter lands on the wrong line. */
  lemma LetterLandsBelow(codec: ElementCodec, w: WriterState)
    requires IsWriter(w) && w.parser.mode == Normal && w.flushed == [A, NEWLINE] && w.silent == 0
    requires w.screen == NewScreen(MAX_BUILD_LOG_LINES).(
      rows := [[Plain(B)]], x := 1, past := History([[Plain(A)]], 0, false))
    ensures var v := WriteChunk(codec, 1, w, UP_AND_X);
      v.flushed == [A, NEWLINE] && v.tail == [B, X] && v.silent == 0 && v.screen.past == History([[Plain(A)]], 0, true)
  {
    UpAndXSend();
    SendsFrom(w.parser, UP_AND_X, [Sequence('A' as int, []), Append(X)]);
    XIsShownAbove(codec, w.screen, B);
    TwoLettersPrint(B);
    var s := Parse(codec, w.parser, w.screen, UP_AND_X);
    assert s.rows == [[Plain(B), Plain(X)]] && s.rows[..0] == [] && s.rows[0..] == s.rows;
    assert OutputLines([]) == [] && OutputLines(s.rows) == [[B, X]];
    assert [A, NEWLINE] + [] == [A, NEWLINE];
  }

  /** On the untrimmed terminal, it lands on the first line. */
  lemma LetterLandsAbove(codec: ElementCodec, p: ParserState)
    requires p.mode == Normal && IsInstructions(p.instructions)
    ensures ScreenSpec.Valid(Parse(codec, START, NewScreen(0), TWO_LINES))
    ensures Parse(codec, p, Parse(codec, START, NewScreen(0), TWO_LINES), UP_AND_X).rows
      == [[Plain(A), Plain(X)], [Plain(B)]]
  {
    TwoLinesSend();
    TwoLinesAreShown(codec, 0);
    UpAndXSend();
    SendsFrom(p, UP_AND_X, [Sequence('A' as int, []), Append(X)]);
    XIsShownAbove(codec, Parse(codec, START, NewScreen(0), TWO_LINES), A);
  }

  lemma TwoLinesPrint()
    ensures AsANSI([[Plain(A), Plain(X)], [Plain(B)]]) == [A, X, NEWLINE, B]
  {
    var rows, lines: seq<seq<Byte>> := [[Plain(A), Plain(X)], [Plain(B)]], [[A, X], [B]];
    TwoLettersPrint(A);
    PlainRowPrints(B);
    assert OutputLines(rows) == lines;
    assert lines[1..] == [[B]] && Join([[B]]) == [B];
    assert [A, X] + [NEWLINE] + [B] == [A, X, NEWLINE, B];
  }

  lemma WriterMovesText(codec: ElementCodec, w: WriterState)
    requires w == WriteChunk(codec, 1, NewWriter(), TWO_LINES)
    ensures IsWriter(w)
    ensures var v := WriteChunk(codec, 1, w, UP_AND_X);
      && v.screen.past.clamped && v.screen.past.lost == 0 && v.silent == 0
      && v.flushed + v.tail == [A, NEWLINE, B, X]
  {
    FirstLineIsFlushed(codec);
    LetterLandsBelow(codec, w);
    assert [A, NEWLINE] + [B, X] == [A, NEWLINE, B, X];
  }

  lemma WriterMovesBoth(codec: ElementCodec)
    ensures var w := WriteAll(codec, 1, NewWriter(), [TWO_LINES, UP_AND_X]);
      && w.screen.past.clamped && w.screen.past.lost == 0 && w.silent == 0
      && w.flushed + w.tail == [A, NEWLINE, B, X]
  {
    var w := WriteChunk(codec, 1, NewWriter(), TWO_LINES);
    WriterMovesText(codec, w);
    TwoChunks(codec, 1, NewWriter(), NewScreen(0), TWO_LINES, UP_AND_X);
  }

  lemma TerminalShowsBoth(codec: ElementCodec)
    ensures AsANSI(ParseAll(codec, START, NewScreen(0), [TWO_LINES, UP_AND_X]).1.rows) == [A, X, NEWLINE, B]
  {
    TwoLinesSend();
    var p, u := ParseChunk(START, TWO_LINES).state, Parse(codec, START, NewScreen(0), TWO_LINES);
    assert IsInstructions(p.instructions) && ScreenSpec.Valid(u);
    LetterLandsAbove(codec, p);
    TwoLinesPrint();
    TwoChunks(codec, 1, NewWriter(), NewScreen(0), TWO_LINES, UP_AND_X);
  }

  /** Two lines, and then a letter one line up, written to a writer that retains one row: neither the
      cap nor a silent pop is to blame, but the log is not what the terminal shows. */
  lemma HeldBackCursorMovesText(codec: ElementCodec)
    ensures var chunks := [TWO_LINES, UP_AND_X];
      var w := WriteAll(codec, 1, NewWriter(), chunks); var (_, u) := ParseAll(codec, START, NewScreen(0), chunks);
      && w.screen.past.clamped && w.screen.past.lost == 0 && w.silent == 0
      && w.flushed + w.tail == [A, NEWLINE, B, X] && AsANSI(u.rows) == [A, X, NEWLINE, B]
  {
    WriterMovesBoth(codec);
    TerminalShowsBoth(codec);
  }
}
