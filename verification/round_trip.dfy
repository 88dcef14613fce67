/** Printing a screen and parsing the text on a fresh one: what comes back. */
module RoundTrip {
  import opened Bytes
  import opened Cells
  import opened ParserSpec
  import opened ScreenSpec
  import opened Strconv
  import opened Streaming
  import opened Styles
  import opened Utf8
  import opened Wrappers

  /** Runes that the parser puts on the screen as they are. */
  predicate IsPlainRune(r: Rune) {
    IsScalar(r) && r != NEWLINE && r != 13 && r != 8 && r != ESCAPE
  }

  predicate IsPrintable(row: Row) {
    forall j :: 0 <= j < |row| ==> IsPlainRune(row[j].blob) && HasPrintableCodes(row[j].style)
  }

  // ----- what the printed text sends -----

  const M: Rune := 'M' as int

  function CodeOps(colors: seq<seq<Byte>>): seq<Op> {
    if colors == [] then [] else CodeOps(colors[..|colors| - 1]) + [Sequence(M, [colors[|colors| - 1]])]
  }

  const RESET_OPS := [Sequence(M, [RESET_CODE])]

  function TransitionOps(before: Row, n: Node): seq<Op> {
    var codes := if n.style.IsEmpty() then [] else CodeOps(n.style.colors);
    if before == [] then codes
    else
      var previous := before[|before| - 1].style;
      if n.style.IsEqual(previous) then []
      else (if previous.IsEmpty() then [] else RESET_OPS) + codes
  }

  function BodyOps(row: Row): seq<Op> {
    if row == [] then []
    else
      var before, n := row[..|row| - 1], row[|row| - 1];
      BodyOps(before) + TransitionOps(before, n) + [Append(n.blob)]
  }

  function PrintedOps(row: Row): seq<Op> {
    BodyOps(row) + if EndsStyled(row) then RESET_OPS else []
  }

  function TextOps(rows: seq<Row>): seq<Op> {
    if rows == [] then []
    else if |rows| == 1 then PrintedOps(TrimRow(rows[0]))
    else PrintedOps(TrimRow(rows[0])) + [NewLine] + TextOps(rows[1..])
  }

  lemma NothingSends()
    ensures Sends([], [])
  {
  }

  lemma AsciiEndsOnRuneBoundary(data: seq<Byte>)
    requires forall i :: 0 <= i < |data| ==> data[i] < 0x80
    ensures EndsOnRuneBoundary(data)
  {
    forall i | 0 <= i < |data| ensures FullRune(data[i..]) {
      assert data[i..][0] == data[i];
    }
  }

  const IN_CONTROL := ParserState(Control, 2, 0, 2, [])

  lemma EntersControl(data: seq<Byte>)
    requires |data| > 2 && data[0] == ESCAPE && data[1] == '[' as int
    ensures Run(START, data) == Run(IN_CONTROL, data)
  {
    var inEscape := START.(mode := Escape, cursor := 1);
    assert Step(START, data) == Effect(inEscape, []);
    QuietStepRun(START, data, inEscape);
    assert Step(inEscape, data) == Effect(IN_CONTROL, []);
    QuietStepRun(inEscape, data, IN_CONTROL);
  }

  /** The last instruction of a colour sequence, at the end of the text. */
  lemma LastInstructionRun(p: ParserState, data: seq<Byte>)
    requires p.mode == Control && p.instructionStartedAt == p.cursor < |data| - 1 && data[|data| - 1] == 'm' as int
    requires forall i :: p.cursor <= i < |data| - 1 ==> IsParameterByte(data[i])
    ensures Run(p, data).ops == [Sequence(M, p.instructions + [data[p.cursor..|data| - 1]])]
    ensures Run(p, data).state.mode == Normal
  {
    var end := |data| - 1;
    QuietBytes(p, data, end);
    var q := p.(cursor := end);
    assert AddInstruction(q, data) == p.instructions + [data[p.cursor..end]];
    var d := CharactersAreRead(data, end);
    assert d == Decoded('m' as int, 1);
    OneStepRun(q, data);
  }

  lemma CodeSequenceSends(code: seq<Byte>)
    requires code != [] && IsParameter(code)
    ensures Sends(CodeSequence(code), [Sequence(M, [code])])
  {
    var data, n := CodeSequence(code), |code| + 2;
    assert forall i :: 2 <= i < n ==> data[i] == code[i - 2];
    AsciiEndsOnRuneBoundary(data);
    EntersControl(data);
    LastInstructionRun(IN_CONTROL, data);
    assert data[2..n] == code && [] + [code] == [code];
  }

  lemma {:induction false} StyleBytesSend(colors: seq<seq<Byte>>)
    requires forall i :: 0 <= i < |colors| ==> colors[i] != [] && IsParameter(colors[i])
    ensures Sends(StyleBytes(colors), CodeOps(colors))
  {
    if colors == [] {
      NothingSends();
    } else {
      var init, last := colors[..|colors| - 1], colors[|colors| - 1];
      StyleBytesSend(init);
      CodeSequenceSends(last);
      SendsTogether(StyleBytes(init), CodeOps(init), CodeSequence(last), [Sequence(M, [last])]);
    }
  }

  lemma ResetSends()
    ensures Sends(RESET, RESET_OPS)
  {
    CodeSequenceSends(RESET_CODE);
    assert CodeSequence(RESET_CODE) == RESET;
  }

  lemma RuneSends(r: Rune)
    requires IsPlainRune(r)
    ensures Sends(EncodeRune(r), [Append(r)])
  {
    EncodingRoundTrip(r, []);
    assert EncodeRune(r) + [] == EncodeRune(r) && EncodeRune(r)[0..] == EncodeRune(r);
    OneStepRun(START, EncodeRune(r));
  }

  lemma NewlineSends()
    ensures Sends([NEWLINE], [NewLine])
  {
    OneStepRun(START, [NEWLINE]);
  }

  lemma TransitionSends(before: Row, n: Node)
    requires HasPrintableCodes(n.style)
    ensures Sends(Transition(before, n), TransitionOps(before, n))
  {
    NothingSends();
    ResetSends();
    StyleBytesSend(n.style.colors);
    var codes := if n.style.IsEmpty() then [] else StyleBytes(n.style.colors);
    var ops := if n.style.IsEmpty() then [] else CodeOps(n.style.colors);
    SendsTogether(RESET, RESET_OPS, codes, ops);
    assert [] + codes == codes && [] + ops == ops;
  }

  lemma {:induction false} BodySends(row: Row)
    requires IsPrintable(row)
    ensures Sends(Body(row), BodyOps(row))
  {
    if row == [] {
      NothingSends();
    } else {
      var before, n := row[..|row| - 1], row[|row| - 1];
      BodySends(before);
      TransitionSends(before, n);
      RuneSends(n.blob);
      SendsTogether(Body(before), BodyOps(before), Transition(before, n), TransitionOps(before, n));
      SendsTogether(Body(before) + Transition(before, n), BodyOps(before) + TransitionOps(before, n),
        EncodeRune(n.blob), [Append(n.blob)]);
    }
  }

  lemma PrintedSends(row: Row)
    requires IsPrintable(row)
    ensures Sends(Printed(row), PrintedOps(row))
  {
    BodySends(row);
    ResetSends();
    SendsTogether(Body(row), BodyOps(row), RESET, RESET_OPS);
    assert Body(row) + [] == Body(row) && BodyOps(row) + [] == BodyOps(row);
  }

  lemma {:induction false} TextSends(rows: seq<Row>)
    requires forall i :: 0 <= i < |rows| ==> IsPrintable(rows[i])
    ensures Sends(AsANSI(rows), TextOps(rows))
  {
    if rows == [] {
      NothingSends();
    } else {
      var first := TrimRow(rows[0]);
      OutputLineTrimsCells(rows[0]);
      PrintedSends(first);
      if |rows| > 1 {
        TextSends(rows[1..]);
        assert OutputLines(rows)[1..] == OutputLines(rows[1..]);
        NewlineSends();
        SendsTogether(Printed(first), PrintedOps(first), [NEWLINE], [NewLine]);
        SendsTogether(Printed(first) + [NEWLINE], PrintedOps(first) + [NewLine], AsANSI(rows[1..]), TextOps(rows[1..]));
      }
    }
  }

  // ----- what the operations show -----

  /** The style in force after the cells of a row have been printed, before the final reset. */
  function StyleAfter(row: Row): Style {
    if row == [] || row[|row| - 1].style.IsEmpty() then EMPTY_STYLE
    else
      var before, n := row[..|row| - 1], row[|row| - 1];
      if before != [] && n.style.IsEqual(before[|before| - 1].style) then StyleAfter(before)
      else Replay(n.style.colors)
  }

  /** The row that parsing the printed row puts on the screen. */
  function Shown(row: Row): (r: Row)
    ensures |r| == |row|
  {
    if row == [] then []
    else Shown(row[..|row| - 1]) + [Node(StyleAfter(row), None, row[|row| - 1].blob)]
  }

  lemma {:induction false} OpsAreOps(row: Row)
    requires IsPrintable(row)
    ensures AreOps(BodyOps(row)) && AreOps(PrintedOps(row))
  {
    assert AreOps(RESET_OPS);
    if row != [] {
      var before, n := row[..|row| - 1], row[|row| - 1];
      OpsAreOps(before);
      CodeOpsAreOps(n.style.colors);
      assert AreOps(TransitionOps(before, n));
      assert AreOps(BodyOps(row));
    }
  }

  lemma {:induction false} CodeOpsAreOps(colors: seq<seq<Byte>>)
    requires forall i :: 0 <= i < |colors| ==> colors[i] != [] && IsParameter(colors[i])
    ensures AreOps(CodeOps(colors))
  {
    if colors != [] {
      CodeOpsAreOps(colors[..|colors| - 1]);
    }
  }

  lemma {:induction false} CodesSetStyle(codec: ElementCodec, s: ScreenState, colors: seq<seq<Byte>>)
    requires ScreenSpec.Valid(s) && s.style == EMPTY_STYLE && AreOps(CodeOps(colors))
    ensures ApplyAll(codec, s, CodeOps(colors)) == s.(style := Replay(colors))
  {
    if colors != [] {
      var init, last := colors[..|colors| - 1], [Sequence(M, [colors[|colors| - 1]])];
      assert AreOps(CodeOps(init)) && AreOps(last) by {
        assert CodeOps(colors) == CodeOps(init) + last;
        assert forall i :: 0 <= i < |CodeOps(init)| ==> CodeOps(init)[i] == CodeOps(colors)[i];
        assert last[0] == CodeOps(colors)[|CodeOps(init)|];
      }
      CodesSetStyle(codec, s, init);
      ApplyAllAppend(codec, s, CodeOps(init), last);
    }
  }

  lemma ResetClearsStyle(codec: ElementCodec, s: ScreenState)
    requires ScreenSpec.Valid(s)
    ensures AreOps(RESET_OPS) && ApplyAll(codec, s, RESET_OPS) == s.(style := EMPTY_STYLE)
  {
    assert IsOp(RESET_OPS[0]);
  }

  lemma TransitionSetsStyle(codec: ElementCodec, s: ScreenState, before: Row, n: Node)
    requires ScreenSpec.Valid(s) && HasPrintableCodes(n.style) && s.style == StyleAfter(before)
    ensures AreOps(TransitionOps(before, n))
    ensures ApplyAll(codec, s, TransitionOps(before, n)) == s.(style := StyleAfter(before + [n]))
  {
    CodeOpsAreOps(n.style.colors);
    ResetClearsStyle(codec, s);
    var row, clear := before + [n], s.(style := EMPTY_STYLE);
    assert row[..|row| - 1] == before;
    var codes := if n.style.IsEmpty() then [] else CodeOps(n.style.colors);
    CodesSetStyle(codec, clear, n.style.colors);
    ApplyAllAppend(codec, s, RESET_OPS, codes);
    assert [] + codes == codes;
  }

  /** A line to write on: the cursor is at the start of a line that is not on the grid yet, and the
      cap is not in the way. */
  predicate IsAtNewLine(s: ScreenState) {
    && ScreenSpec.Valid(s)
    && s.x == 0
    && s.y >= |s.rows|
    && s.style == EMPTY_STYLE
    && (s.maxLines > 0 ==> s.y < s.maxLines)
  }

  /** The screen with a row written on the cursor's line. */
  function WithRow(s: ScreenState, row: Row): ScreenState
    requires IsAtNewLine(s)
  {
    s.(x := |row|, rows := if row == [] then s.rows else s.rows + BlankRows(s.y - |s.rows|) + [row])
  }

  lemma AppendExtendsRow(s: ScreenState, row: Row, style: Style, r: Rune)
    requires IsAtNewLine(s)
    ensures var t := WithRow(s, row).(style := style);
      ScreenSpec.Valid(t)
      && AppendChar(t, r) == WithRow(s, row + [Node(style, None, r)]).(style := style)
  {
    var t, n := WithRow(s, row).(style := style), Node(style, None, r);
    GrowHeightKeepsCursor(t);
    var above := s.rows + BlankRows(s.y - |s.rows|);
    if row == [] {
      assert Extended(t.rows, t.y) == above + [[]] && row + [n] == [n];
      assert (above + [[]])[t.y := [n]] == above + [[n]];
      assert GrowWidth([], 0)[0 := n] == [n];
    } else {
      assert Extended(t.rows, t.y) == above + [row];
      assert (above + [row])[t.y := row + [n]] == above + [row + [n]];
      assert GrowWidth(row, |row|)[|row| := n] == row + [n];
    }
  }

  /** One more cell: the style is switched if need be, and then the rune is written. */
  lemma CellShows(codec: ElementCodec, s: ScreenState, before: Row, n: Node)
    requires IsAtNewLine(s) && HasPrintableCodes(n.style) && AreOps(TransitionOps(before, n)) && IsOp(Append(n.blob))
    ensures var t := WithRow(s, Shown(before)).(style := StyleAfter(before));
      && ScreenSpec.Valid(t)
      && ApplyAll(codec, t, TransitionOps(before, n) + [Append(n.blob)])
        == WithRow(s, Shown(before) + [Node(StyleAfter(before + [n]), None, n.blob)])
          .(style := StyleAfter(before + [n]))
  {
    AppendExtendsRow(s, Shown(before), StyleAfter(before), 0);
    var t := WithRow(s, Shown(before)).(style := StyleAfter(before));
    TransitionSetsStyle(codec, t, before, n);
    AppendExtendsRow(s, Shown(before), StyleAfter(before + [n]), n.blob);
    ApplyAllAppend(codec, t, TransitionOps(before, n), [Append(n.blob)]);
  }

  lemma {:induction false} BodyShows(codec: ElementCodec, s: ScreenState, row: Row)
    requires IsAtNewLine(s) && IsPrintable(row) && AreOps(BodyOps(row))
    ensures ApplyAll(codec, s, BodyOps(row)) == WithRow(s, Shown(row)).(style := StyleAfter(row))
  {
    if row != [] {
      var before, n := row[..|row| - 1], row[|row| - 1];
      assert before + [n] == row;
      OpsAreOps(before);
      BodyShows(codec, s, before);
      var last := TransitionOps(before, n) + [Append(n.blob)];
      Reassociate(BodyOps(before), TransitionOps(before, n), [Append(n.blob)]);
      LastOpsAreOps(BodyOps(before), last);
      LastOpsAreOps(TransitionOps(before, n), [Append(n.blob)]);
      CellShows(codec, s, before, n);
      ApplyAllAppend(codec, s, BodyOps(before), last);
    }
  }

  lemma OpsTogether(a: seq<Op>, b: seq<Op>)
    requires AreOps(a) && AreOps(b)
    ensures AreOps(a + b)
  {
  }

  lemma LastOpsAreOps(a: seq<Op>, b: seq<Op>)
    requires AreOps(a + b)
    ensures AreOps(a) && AreOps(b)
  {
    assert forall i :: 0 <= i < |a| ==> a[i] == (a + b)[i];
    assert forall i :: 0 <= i < |b| ==> b[i] == (a + b)[|a| + i];
  }

  lemma PrintedShows(codec: ElementCodec, s: ScreenState, row: Row)
    requires IsAtNewLine(s) && IsPrintable(row) && AreOps(PrintedOps(row))
    ensures ApplyAll(codec, s, PrintedOps(row)) == WithRow(s, Shown(row))
  {
    OpsAreOps(row);
    BodyShows(codec, s, row);
    AppendExtendsRow(s, Shown(row), StyleAfter(row), 0);
    if EndsStyled(row) {
      ResetClearsStyle(codec, WithRow(s, Shown(row)).(style := StyleAfter(row)));
      ApplyAllAppend(codec, s, BodyOps(row), RESET_OPS);
    } else {
      assert PrintedOps(row) == BodyOps(row);
    }
  }

  /** A row of the grid; a row that was never written counts as empty. */
  function RowAt(s: ScreenState, k: nat): Row {
    if k < |s.rows| then s.rows[k] else []
  }

  /** The screen t has the printed rows from line y on, and above it the rows of s. */
  ghost predicate HasText(s: ScreenState, y: nat, t: ScreenState, rows: seq<Row>) {
    && (forall k :: 0 <= k < y ==> RowAt(t, k) == RowAt(s, k))
    && (forall i :: 0 <= i < |rows| ==> RowAt(t, y + i) == Shown(TrimRow(rows[i])))
    && |t.rows| <= y + |rows|
  }

  lemma HasTextBelow(s: ScreenState, next: ScreenState, t: ScreenState, rows: seq<Row>)
    requires IsAtNewLine(s) && rows != []
    requires next.rows == WithRow(s, Shown(TrimRow(rows[0]))).rows
    requires HasText(next, s.y + 1, t, rows[1..])
    ensures HasText(s, s.y, t, rows)
  {
    assert RowAt(t, s.y) == RowAt(next, s.y) == Shown(TrimRow(rows[0]));
    forall i | 1 <= i < |rows| ensures RowAt(t, s.y + i) == Shown(TrimRow(rows[i])) {
      assert RowAt(t, s.y + 1 + (i - 1)) == Shown(TrimRow(rows[1..][i - 1]));
    }
    forall k | 0 <= k < s.y ensures RowAt(t, k) == RowAt(s, k) {
      assert RowAt(t, k) == RowAt(next, k);
    }
  }

  lemma LineShows(codec: ElementCodec, s: ScreenState, row: Row)
    requires IsAtNewLine(s) && IsPrintable(row)
    ensures AreOps(PrintedOps(row) + [NewLine])
    ensures ApplyAll(codec, s, PrintedOps(row) + [NewLine]) == StartNewLine(WithRow(s, Shown(row)))
  {
    OpsAreOps(row);
    PrintedShows(codec, s, row);
    assert IsOp(NewLine);
    ApplyAllAppend(codec, s, PrintedOps(row), [NewLine]);
  }

  lemma LastLineShows(codec: ElementCodec, s: ScreenState, row: Row)
    requires IsAtNewLine(s) && IsPrintable(row)
    ensures AreOps(TextOps([row]))
    ensures HasText(s, s.y, ApplyAll(codec, s, TextOps([row])), [row])
  {
    var first := TrimRow(row);
    OpsAreOps(first);
    PrintedShows(codec, s, first);
    HasTextBelow(s, StartNewLine(WithRow(s, Shown(first))), WithRow(s, Shown(first)), [row]);
  }

  /** The first of several lines is shown, and then the others. */
  lemma FirstLineShows(codec: ElementCodec, s: ScreenState, next: ScreenState, rows: seq<Row>)
    requires IsAtNewLine(s) && |rows| > 1 && IsPrintable(TrimRow(rows[0]))
    requires next == StartNewLine(WithRow(s, Shown(TrimRow(rows[0]))))
    requires ScreenSpec.Valid(next) && AreOps(TextOps(rows[1..]))
    ensures AreOps(TextOps(rows))
    ensures ApplyAll(codec, s, TextOps(rows)) == ApplyAll(codec, next, TextOps(rows[1..]))
  {
    var line := PrintedOps(TrimRow(rows[0])) + [NewLine];
    LineShows(codec, s, TrimRow(rows[0]));
    assert TextOps(rows) == line + TextOps(rows[1..]);
    OpsTogether(line, TextOps(rows[1..]));
    ApplyAllAppend(codec, s, line, TextOps(rows[1..]));
  }

  lemma {:induction false} TextShows(codec: ElementCodec, s: ScreenState, rows: seq<Row>)
    requires IsAtNewLine(s) && rows != []
    requires forall i :: 0 <= i < |rows| ==> IsPrintable(rows[i])
    requires s.maxLines > 0 ==> s.y + |rows| <= s.maxLines
    ensures AreOps(TextOps(rows))
    ensures HasText(s, s.y, ApplyAll(codec, s, TextOps(rows)), rows)
    decreases |rows|
  {
    var first := TrimRow(rows[0]);
    var next := StartNewLine(WithRow(s, Shown(first)));
    if |rows| == 1 {
      LastLineShows(codec, s, rows[0]);
      assert rows == [rows[0]];
    } else {
      TextShows(codec, next, rows[1..]);
      FirstLineShows(codec, s, next, rows);
      HasTextBelow(s, next, ApplyAll(codec, next, TextOps(rows[1..])), rows);
    }
  }

  // ----- which screens come back -----

  /** A cell whose style is written out when its row is printed. */
  predicate IsLeader(row: Row, j: nat)
    requires j < |row|
  {
    !row[j].style.IsEmpty() && (j == 0 || !row[j].style.IsEqual(row[j - 1].style))
  }

  predicate IsCopy(row: Row, shown: Row) {
    && |shown| == |row|
    && forall j :: 0 <= j < |row| ==>
      shown[j].blob == row[j].blob && shown[j].style.meta == row[j].style.meta
  }

  predicate HasFaithfulLeaders(row: Row) {
    forall j :: 0 <= j < |row| && IsLeader(row, j) ==> IsFaithful(row[j].style)
  }

  lemma CopyOfLonger(row: Row, shown: Row, n: Node, m: Node)
    requires |row| == |shown|
    ensures IsCopy(row + [n], shown + [m])
      <==> IsCopy(row, shown) && m.blob == n.blob && m.style.meta == n.style.meta
  {
    if IsCopy(row + [n], shown + [m]) {
      forall j | 0 <= j < |row| ensures shown[j].blob == row[j].blob && shown[j].style.meta == row[j].style.meta {
        assert (shown + [m])[j] == shown[j] && (row + [n])[j] == row[j];
      }
      assert (shown + [m])[|row|] == m;
    }
  }

  lemma LeadersOfLonger(row: Row, n: Node)
    ensures var longer := row + [n];
      HasFaithfulLeaders(longer) <==> HasFaithfulLeaders(row) && (IsLeader(longer, |row|) ==> IsFaithful(n.style))
  {
    var longer := row + [n];
    assert forall j :: 0 <= j < |row| ==> (IsLeader(longer, j) <==> IsLeader(row, j));
    assert longer[|row|] == n;
  }

  /** Every cell keeps its rune. The styles come back exactly when those written out are faithful. */
  lemma {:induction false} RowComesBackExactly(row: Row)
    ensures IsCopy(row, Shown(row)) <==> HasFaithfulLeaders(row)
    ensures row != [] ==> Shown(row)[|row| - 1].style == StyleAfter(row)
  {
    if row != [] {
      var before, n := row[..|row| - 1], row[|row| - 1];
      assert row == before + [n];
      RowComesBackExactly(before);
      CopyOfLonger(before, Shown(before), n, Node(StyleAfter(row), None, n.blob));
      LeadersOfLonger(before, n);
    }
  }

  /** Runes come back in any case. */
  lemma {:induction false} RunesComeBack(row: Row)
    ensures forall j :: 0 <= j < |row| ==> Shown(row)[j].blob == row[j].blob && Shown(row)[j].elem == None
  {
    if row != [] {
      RunesComeBack(row[..|row| - 1]);
    }
  }

  /** The text of rows, parsed on a fresh screen. */
  function Reparsed(codec: ElementCodec, maxLines: int, rows: seq<Row>): ScreenState {
    RunKeepsValid(START, AsANSI(rows));
    ApplyAll(codec, NewScreen(maxLines), ParseChunk(START, AsANSI(rows)).ops)
  }

  /** Each row comes back without the blanks at its end. */
  predicate Reproduces(s: ScreenState, rows: seq<Row>) {
    && |s.rows| <= |rows|
    && forall i :: 0 <= i < |rows| ==> IsCopy(TrimRow(rows[i]), RowAt(s, i))
  }

  /** Printing and parsing again gives back every cell's rune and attributes, up to blanks at the
      end of a row and blank rows at the end, exactly when each style that is written out is one
      that its stored codes reproduce. */
  lemma PrintedScreenComesBackExactly(codec: ElementCodec, maxLines: int, rows: seq<Row>)
    requires forall i :: 0 <= i < |rows| ==> IsPrintable(rows[i])
    requires maxLines > 0 ==> |rows| <= maxLines
    ensures Reproduces(Reparsed(codec, maxLines, rows), rows)
      <==> forall i :: 0 <= i < |rows| ==> HasFaithfulLeaders(TrimRow(rows[i]))
  {
    TextSends(rows);
    if rows != [] {
      TextShows(codec, NewScreen(maxLines), rows);
    }
    forall i | 0 <= i < |rows|
      ensures IsCopy(TrimRow(rows[i]), RowAt(Reparsed(codec, maxLines, rows), i))
        <==> HasFaithfulLeaders(TrimRow(rows[i]))
    {
      RowComesBackExactly(TrimRow(rows[i]));
      assert RowAt(Reparsed(codec, maxLines, rows), 0 + i) == Shown(TrimRow(rows[i]));
    }
  }
}
