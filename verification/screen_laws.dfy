/** What a screen shows, said without its operations: where the cursor is after each of them, and for
    every cell, the last one that wrote or erased it (server/terminal/screen.go). */
module ScreenLaws {
  import opened Bytes
  import opened Cells
  import opened ScreenSpec
  import opened Strconv
  import opened StyleLaws
  import opened Styles
  import opened Wrappers

  /** The first instruction of a sequence; one without instructions has an empty one. */
  function FirstOf(instructions: seq<seq<Byte>>): seq<Byte> {
    if instructions == [] then [] else instructions[0]
  }

  /** How far a sequence moves the cursor: by one if it does not say, by 127 at most, and not at all if
      what it says is not a number. */
  ghost function Amount(instructions: seq<seq<Byte>>): nat {
    var i := FirstOf(instructions);
    if i == [] then 1
    else if Overflows(i) then 127
    else if !AreDigits(i) then 0
    else if Decimal(i) > 127 then 127
    else Decimal(i)
  }

  lemma PiIsAmount(instructions: seq<seq<Byte>>)
    requires IsInstructions(instructions)
    ensures Pi(FirstOf(instructions)) == Amount(instructions)
  {
    var i := FirstOf(instructions);
    ParsesDecimals(i);
    if i != [] {
      assert IsParameterByte(i[0]);
      assert AreDigits(i) && !Overflows(i) ==> Decimal(i) <= 255 by {
        assert AreDigits(i) ==> i[..|i|] == i && (Decimal(i) > 255 ==> SpellsTooMuch(i[..|i|]));
      }
    }
  }

  /** The cell of a row at a column, and that of a grid; there is nothing to be seen outside. */
  function CellOf(row: Row, c: nat): Node {
    if c < |row| then row[c] else EMPTY_NODE
  }

  function CellAt(rows: seq<Row>, r: nat, c: nat): Node {
    if r < |rows| then CellOf(rows[r], c) else EMPTY_NODE
  }

  // ----- control sequences -----

  /** Does an erasing sequence erase this column, when the cursor is at x? */
  predicate Erases(instructions: seq<seq<Byte>>, x: int, c: nat) {
    var i := FirstOf(instructions);
    || ((i == [] || i == ['0' as int]) && c >= x)
    || (i == ['1' as int] && c <= x)
    || i == ['2' as int]
  }

  /** Nothing but the cursor row has changed, and there exactly these cells are blank. */
  ghost predicate IsErased(s: ScreenState, r: ScreenState, instructions: seq<seq<Byte>>)
    requires s.y >= 0
  {
    && r == s.(rows := r.rows)
    && |r.rows| == |s.rows|
    && (forall i :: 0 <= i < |s.rows| && i != s.y ==> r.rows[i] == s.rows[i])
    && (s.y < |s.rows| ==>
        && |r.rows[s.y]| <= |s.rows[s.y]|
        && forall c: nat ::
          CellOf(r.rows[s.y], c) == if Erases(instructions, s.x, c) then EMPTY_NODE else CellOf(s.rows[s.y], c))
  }

  lemma ClearErases(s: ScreenState, instructions: seq<seq<Byte>>)
    requires Valid(s) && IsInstructions(instructions)
    ensures IsErased(s, ApplyEscape(s, 'K' as int, instructions), instructions)
  {
    var i, r := FirstOf(instructions), ApplyEscape(s, 'K' as int, instructions);
    if s.y < |s.rows| && (i in {[], ['0' as int], ['1' as int], ['2' as int]}) {
      assert r.rows == s.rows[s.y := r.rows[s.y]];
    }
  }

  lemma MovesGoAsFarAsTheySay(s: ScreenState, code: Rune, instructions: seq<seq<Byte>>)
    requires Valid(s) && IsInstructions(instructions) && 'A' as int <= code <= 'G' as int
    ensures var r, n := ApplyEscape(s, code, instructions), Amount(instructions);
      if code == 'A' as int then
        && r.y == (if s.y < n then 0 else s.y - n)
        && r == s.(y := r.y, past := s.past.(clamped := s.past.clamped || (s.y < n && s.past.removed != [])))
      else if code == 'B' as int then r == s.(y := s.y + n)
      else if code == 'C' as int then r == s.(x := s.x + n)
      else if code == 'D' as int then r == s.(x := if s.x < n then 0 else s.x - n)
      else if code == 'G' as int then r == s.(x := 0)
      else r == s
  {
    PiIsAmount(instructions);
  }

  lemma ColorsAreSet(s: ScreenState, instructions: seq<seq<Byte>>)
    requires Valid(s)
    ensures var r := ApplyEscape(s, 'M' as int, instructions);
      && r == s.(style := r.style)
      && Decides(s.style.meta, ItemsOf(if instructions == [] then [[]] else instructions), r.style.meta)
  {
    LastCodeDecides(s.style, if instructions == [] then [[]] else instructions);
  }

  /** What each control sequence does to any screen, in terms of the number that its first instruction
      spells: the cursor goes up and down, right and left by it, and stops at the edges; G takes it to the
      first column; K erases to the right, to the left or everything in the cursor row; M sets the style
      as its codes say. Others do nothing. */
  lemma SequencesDoAsTheySay(codec: ElementCodec, s: ScreenState, code: Rune, instructions: seq<seq<Byte>>)
    requires Valid(s) && IsInstructions(instructions)
    ensures var r, n := Apply(codec, s, Sequence(code, instructions)), Amount(instructions);
      if code == 'A' as int then
        && r.y == (if s.y < n then 0 else s.y - n)
        && r == s.(y := r.y, past := s.past.(clamped := s.past.clamped || (s.y < n && s.past.removed != [])))
      else if code == 'B' as int then r == s.(y := s.y + n)
      else if code == 'C' as int then r == s.(x := s.x + n)
      else if code == 'D' as int then r == s.(x := if s.x < n then 0 else s.x - n)
      else if code == 'G' as int then r == s.(x := 0)
      else if code == 'K' as int then IsErased(s, r, instructions)
      else if code == 'M' as int then
        && r == s.(style := r.style)
        && Decides(s.style.meta, ItemsOf(if instructions == [] then [[]] else instructions), r.style.meta)
      else r == s
  {
    var r := Apply(codec, s, Sequence(code, instructions));
    assert r == ApplyEscape(s, code, instructions);
    if 'A' as int <= code <= 'G' as int {
      MovesGoAsFarAsTheySay(s, code, instructions);
    } else if code == 'K' as int {
      ClearErases(s, instructions);
    } else if code == 'M' as int {
      ColorsAreSet(s, instructions);
    } else {
      OthersDoNothing(s, code, instructions);
    }
  }

  lemma OthersDoNothing(s: ScreenState, code: Rune, instructions: seq<seq<Byte>>)
    requires Valid(s) && (code < 'A' as int || code > 'G' as int) && code != 'K' as int && code != 'M' as int
    ensures ApplyEscape(s, code, instructions) == s
  {
  }

  // ----- elements -----

  /** All cells but those of one row are the same. */
  ghost predicate IsOnlyRow(s: ScreenState, t: ScreenState, y: nat) {
    forall r: nat, c: nat :: r != y ==> CellAt(t.rows, r, c) == CellAt(s.rows, r, c)
  }

  /** Text written at a column: the cells that it takes, and the rest of the row. */
  ghost predicate HasText(s: ScreenState, t: ScreenState, y: nat, x: nat, text: seq<Rune>) {
    && (forall c: nat :: x <= c < x + |text| ==> CellAt(t.rows, y, c) == Node(s.style, None, text[c - x]))
    && (forall c: nat :: !(x <= c < x + |text|) ==> CellAt(t.rows, y, c) == CellAt(s.rows, y, c))
  }

  lemma PutTouchesOne(s: ScreenState, n: Node)
    requires Valid(s) && s.maxLines <= 0
    ensures var t := Put(s, n);
      && t == s.(rows := t.rows)
      && forall r: nat, c: nat ::
        CellAt(t.rows, r, c) == if (r, c) == (s.y, s.x) then n else CellAt(s.rows, r, c)
  {
    GrowHeightKeepsCursor(s);
    var t := Put(s, n);
    var grown := Extended(s.rows, s.y);
    forall r: nat, c: nat
      ensures CellAt(t.rows, r, c) == if (r, c) == (s.y, s.x) then n else CellAt(s.rows, r, c)
    {
      assert r != s.y && r < |grown| ==> t.rows[r] == grown[r];
    }
  }

  /** One rune, and then the others to the right of it. */
  lemma TextFollows(s: ScreenState, next: ScreenState, t: ScreenState, y: nat, x: nat, text: seq<Rune>)
    requires text != [] && next.style == s.style
    requires forall r: nat, c: nat ::
      CellAt(next.rows, r, c) == if (r, c) == (y, x) then Node(s.style, None, text[0]) else CellAt(s.rows, r, c)
    requires IsOnlyRow(next, t, y) && HasText(next, t, y, x + 1, text[1..])
    ensures IsOnlyRow(s, t, y) && HasText(s, t, y, x, text)
  {
    forall c: nat | x <= c < x + |text| ensures CellAt(t.rows, y, c) == Node(s.style, None, text[c - x]) {
      if c > x {
        assert text[1..][c - (x + 1)] == text[c - x];
      }
    }
  }

  /** Text goes from the cursor to the right. */
  lemma {:induction false} ManyAreWritten(s: ScreenState, text: seq<Rune>)
    requires Valid(s) && s.maxLines <= 0
    ensures var t := AppendMany(s, text);
      && t == s.(rows := t.rows, x := s.x + |text|)
      && IsOnlyRow(s, t, s.y) && HasText(s, t, s.y, s.x, text)
    decreases text
  {
    if text != [] {
      var next := AppendChar(s, text[0]);
      WriteMovesOn(s, text[0]);
      WriteTouchesOne(s, text[0]);
      ManyAreWritten(next, text[1..]);
      TextFollows(s, next, AppendMany(s, text), s.y, s.x, text);
    }
  }

  lemma TextIsWritten(s: ScreenState, prefix: seq<Rune>, message: seq<Rune>)
    requires Valid(s) && s.maxLines <= 0
    ensures AppendMany(AppendMany(s, prefix), message) == AppendMany(s, prefix + message)
    decreases prefix
  {
    if prefix == [] {
      assert prefix + message == message;
    } else {
      assert (prefix + message)[1..] == prefix[1..] + message;
      TextIsWritten(AppendChar(s, prefix[0]), prefix[1..], message);
    }
  }

  /** An element that is written at the cursor takes one cell. */
  lemma ElementTakesOneCell(s: ScreenState, e: Element)
    requires Valid(s) && s.maxLines <= 0
    ensures var t := AppendElement(s, e);
      && t == s.(rows := t.rows, x := s.x + 1)
      && forall r: nat, c: nat ::
        CellAt(t.rows, r, c) == if (r, c) == (s.y, s.x) then Node(s.style, Some(e), 0) else CellAt(s.rows, r, c)
  {
    PutTouchesOne(s, Node(s.style, Some(e), 0));
  }

  /** The row on which something gets a line of its own. */
  function OwnRow(s: ScreenState): int {
    if s.x != 0 then s.y + 1 else s.y
  }

  lemma OwnLineIsBlank(s: ScreenState)
    requires Valid(s) && s.maxLines <= 0
    ensures var t, y := OwnLine(s), OwnRow(s);
      && t == s.(rows := t.rows, x := 0, y := y)
      && IsOnlyRow(s, t, y) && forall c: nat :: CellAt(t.rows, y, c) == EMPTY_NODE
  {
  }

  /** The row holds this text from its first column on, and nothing else. */
  ghost predicate IsMessage(s: ScreenState, t: ScreenState, y: nat, text: seq<Rune>) {
    forall c: nat :: CellAt(t.rows, y, c) == if c < |text| then Node(s.style, None, text[c]) else EMPTY_NODE
  }

  /** The row holds this element in its first column, and nothing else. */
  ghost predicate IsElement(s: ScreenState, t: ScreenState, y: nat, e: Element) {
    forall c: nat :: CellAt(t.rows, y, c) == if c == 0 then Node(s.style, Some(e), 0) else EMPTY_NODE
  }

  /** An OSC element: a link stands at the cursor; an image, or the message for what could not be read, on
      a line of its own, and the cursor goes to the line after it. */
  lemma OscElementsAreShown(codec: ElementCodec, s: ScreenState, payload: seq<Byte>)
    requires Valid(s) && s.maxLines <= 0
    ensures var t, y := Apply(codec, s, OscElement(payload)), OwnRow(s);
      match codec.osc(payload)
      case NoElement => t == s
      case Parsed(e) =>
        if e.elementType == Link then
          && t == s.(rows := t.rows, x := s.x + 1)
          && forall r: nat, c: nat ::
            CellAt(t.rows, r, c) == if (r, c) == (s.y, s.x) then Node(s.style, Some(e), 0) else CellAt(s.rows, r, c)
        else
          && t == s.(rows := t.rows, x := 0, y := y + 1)
          && IsOnlyRow(s, t, y) && IsElement(s, t, y, e)
      case Failed(message) =>
        && t == s.(rows := t.rows, x := 0, y := y + 1)
        && IsOnlyRow(s, t, y)
        && IsMessage(s, t, y, Ascii("*** Error parsing custom element escape sequence: ") + message)
  {
    var own := OwnLine(s);
    OwnLineIsBlank(s);
    match codec.osc(payload) {
      case NoElement =>
      case Parsed(e) => ElementTakesOneCell(if e.elementType == Link then s else own, e);
      case Failed(message) =>
        TextIsWritten(own, OSC_ERROR, message);
        ManyAreWritten(own, OSC_ERROR + message);
    }
  }

  /** An APC element or message stands at the cursor. */
  lemma ApcElementsAreShown(codec: ElementCodec, s: ScreenState, payload: seq<Byte>)
    requires Valid(s) && s.maxLines <= 0
    ensures var t := Apply(codec, s, ApcElement(payload));
      match codec.apc(payload)
      case NoElement => t == s
      case Parsed(e) =>
        && t == s.(rows := t.rows, x := s.x + 1)
        && forall r: nat, c: nat ::
          CellAt(t.rows, r, c) == if (r, c) == (s.y, s.x) then Node(s.style, Some(e), 0) else CellAt(s.rows, r, c)
      case Failed(message) =>
        var text := Ascii("*** Error parsing buildkite element escape sequence: ") + message;
        && t == s.(rows := t.rows, x := s.x + |text|)
        && IsOnlyRow(s, t, s.y) && HasText(s, t, s.y, s.x, text)
  {
    match codec.apc(payload) {
      case NoElement =>
      case Parsed(e) => ElementTakesOneCell(s, e);
      case Failed(message) =>
        TextIsWritten(s, APC_ERROR, message);
        ManyAreWritten(s, APC_ERROR + message);
    }
  }

  // ----- whole runs -----

  predicate HasNoElements(ops: seq<Op>) {
    forall i :: 0 <= i < |ops| ==> !ops[i].OscElement? && !ops[i].ApcElement?
  }

  /** The cursor, row before column. */
  type Position = (nat, nat)

  ghost function Moved(at: Position, op: Op): Position {
    var (y, x) := at;
    match op
    case NewLine => (y + 1, 0)
    case CarriageReturn => (y, 0)
    case Backspace => (y, if x > 0 then x - 1 else 0)
    case Append(_) => (y, x + 1)
    case Sequence(code, instructions) =>
      var n := Amount(instructions);
      if code == 'A' as int then (if y < n then 0 else y - n, x)
      else if code == 'B' as int then (y + n, x)
      else if code == 'C' as int then (y, x + n)
      else if code == 'D' as int then (y, if x < n then 0 else x - n)
      else if code == 'G' as int then (y, 0)
      else at
    case _ => at
  }

  /** Where the operations leave the cursor of a terminal that keeps every row. */
  ghost function Cursor(ops: seq<Op>): Position {
    if ops == [] then (0, 0) else Moved(Cursor(ops[..|ops| - 1]), ops[|ops| - 1])
  }

  /** The style in force after the operations. */
  function StyleAfter(ops: seq<Op>): Style {
    if ops == [] then EMPTY_STYLE
    else
      var before, op := StyleAfter(ops[..|ops| - 1]), ops[|ops| - 1];
      if op.Sequence? && op.code == 'M' as int then
        Color(before, if op.instructions == [] then [[]] else op.instructions)
      else before
  }

  /** Does an operation write or erase this cell, when the cursor is there? */
  predicate IsTouched(at: Position, op: Op, r: nat, c: nat) {
    && at.0 == r
    && match op
       case Append(_) => at.1 == c
       case Sequence(code, instructions) => code == 'K' as int && Erases(instructions, at.1, c)
       case _ => false
  }

  ghost predicate Touches(ops: seq<Op>, i: nat, r: nat, c: nat)
    requires i < |ops|
  {
    IsTouched(Cursor(ops[..i]), ops[i], r, c)
  }

  /** What it leaves there. */
  function Left(ops: seq<Op>, i: nat): Node
    requires i < |ops|
  {
    if ops[i].Append? then Node(StyleAfter(ops[..i]), None, ops[i].rune) else EMPTY_NODE
  }

  /** The last operation that touches a cell. */
  ghost predicate TouchesLast(ops: seq<Op>, i: nat, r: nat, c: nat)
    requires i < |ops|
  {
    Touches(ops, i, r, c) && forall j :: i < j < |ops| ==> !Touches(ops, j, r, c)
  }

  /** How many rows have been written to, with those above. */
  ghost function RowsWritten(ops: seq<Op>): nat {
    if ops == [] then 0
    else
      var before, (y, _) := RowsWritten(ops[..|ops| - 1]), Cursor(ops[..|ops| - 1]);
      if ops[|ops| - 1].Append? && y >= before then y + 1 else before
  }

  /** The screen is what the operations say. */
  ghost predicate IsWhatTheySay(s: ScreenState, ops: seq<Op>) {
    && Valid(s) && s.maxLines <= 0
    && (s.y, s.x) == Cursor(ops)
    && s.style == StyleAfter(ops)
    && |s.rows| == RowsWritten(ops)
    && (forall r: nat, c: nat, i: nat ::
        i < |ops| && TouchesLast(ops, i, r, c) ==> CellAt(s.rows, r, c) == Left(ops, i))
    && (forall r: nat, c: nat :: IsUntouched(ops, r, c) ==> CellAt(s.rows, r, c) == EMPTY_NODE)
  }

  ghost predicate IsUntouched(ops: seq<Op>, r: nat, c: nat) {
    forall i: nat :: i < |ops| ==> !Touches(ops, i, r, c)
  }

  /** A write adds rows down to the cursor, and moves it one column on. */
  lemma WriteMovesOn(s: ScreenState, rune: Rune)
    requires Valid(s) && s.maxLines <= 0
    ensures var t := AppendChar(s, rune);
      && t == s.(rows := t.rows, x := s.x + 1)
      && |t.rows| == if s.y >= |s.rows| then s.y + 1 else |s.rows|
  {
    GrowHeightKeepsCursor(s);
  }

  /** It changes one cell. */
  lemma WriteTouchesOne(s: ScreenState, rune: Rune)
    requires Valid(s) && s.maxLines <= 0
    ensures var t := AppendChar(s, rune);
      forall r: nat, c: nat ::
        CellAt(t.rows, r, c) == if (r, c) == (s.y, s.x) then Node(s.style, None, rune) else CellAt(s.rows, r, c)
  {
    PutTouchesOne(s, Node(s.style, None, rune));
  }

  /** The next screen after one more operation has the cells that this one leaves alone. */
  ghost predicate TouchesAsItShould(s: ScreenState, t: ScreenState, before: seq<Op>, op: Op) {
    var ops := before + [op];
    forall r: nat, c: nat ::
      CellAt(t.rows, r, c) == if Touches(ops, |before|, r, c) then Left(ops, |before|) else CellAt(s.rows, r, c)
  }

  ghost predicate IsAt(s: ScreenState, ops: seq<Op>) {
    && Valid(s) && s.maxLines <= 0
    && (s.y, s.x) == Cursor(ops) && s.style == StyleAfter(ops) && |s.rows| == RowsWritten(ops)
  }

  /** What the last of some operations adds to the account of them. */
  lemma OneMore(before: seq<Op>, op: Op)
    ensures var ops := before + [op];
      && ops[..|before|] == before && ops[|before|] == op
      && Left(ops, |before|) == (if op.Append? then Node(StyleAfter(before), None, op.rune) else EMPTY_NODE)
      && forall r: nat, c: nat :: Touches(ops, |before|, r, c) <==> IsTouched(Cursor(before), op, r, c)
  {
    var ops := before + [op];
    assert ops[..|before|] == before;
  }

  lemma OneMoreMoves(before: seq<Op>, op: Op)
    ensures Cursor(before + [op]) == Moved(Cursor(before), op)
    ensures StyleAfter(before + [op])
      == if op.Sequence? && op.code == 'M' as int then
           Color(StyleAfter(before), if op.instructions == [] then [[]] else op.instructions)
         else StyleAfter(before)
    ensures RowsWritten(before + [op])
      == if op.Append? && Cursor(before).0 >= RowsWritten(before) then Cursor(before).0 + 1 else RowsWritten(before)
  {
    assert (before + [op])[..|before|] == before;
  }

  lemma WrittenIsAt(s: ScreenState, t: ScreenState, before: seq<Op>, rune: Rune)
    requires IsAt(s, before) && t == s.(rows := t.rows, x := s.x + 1)
    requires |t.rows| == if s.y >= |s.rows| then s.y + 1 else |s.rows|
    ensures IsAt(t, before + [Append(rune)])
  {
    OneMoreMoves(before, Append(rune));
  }

  lemma AppendIsAt(s: ScreenState, before: seq<Op>, rune: Rune)
    requires IsAt(s, before)
    ensures IsAt(AppendChar(s, rune), before + [Append(rune)])
  {
    WriteMovesOn(s, rune);
    WrittenIsAt(s, AppendChar(s, rune), before, rune);
  }

  lemma AppendTouches(codec: ElementCodec, s: ScreenState, before: seq<Op>, rune: Rune)
    requires IsAt(s, before)
    ensures var t := Apply(codec, s, Append(rune));
      IsAt(t, before + [Append(rune)]) && TouchesAsItShould(s, t, before, Append(rune))
  {
    AppendIsAt(s, before, rune);
    OneMore(before, Append(rune));
    WriteTouchesOne(s, rune);
    var t, n := Apply(codec, s, Append(rune)), |before|;
    assert t == AppendChar(s, rune);
    var ops := before + [Append(rune)];
    forall r: nat, c: nat
      ensures CellAt(t.rows, r, c) == if Touches(ops, n, r, c) then Left(ops, n) else CellAt(s.rows, r, c)
    {
      assert Touches(ops, n, r, c) <==> (r, c) == (s.y, s.x);
    }
  }

  lemma ErasingTouches(codec: ElementCodec, s: ScreenState, before: seq<Op>, instructions: seq<seq<Byte>>)
    requires IsAt(s, before) && IsInstructions(instructions)
    ensures var op := Sequence('K' as int, instructions);
      var t := Apply(codec, s, op);
      IsAt(t, before + [op]) && TouchesAsItShould(s, t, before, op)
  {
    OneMore(before, Sequence('K' as int, instructions));
    OneMoreMoves(before, Sequence('K' as int, instructions));
    SequencesDoAsTheySay(codec, s, 'K' as int, instructions);
  }

  lemma ColorTouchesNothing(codec: ElementCodec, s: ScreenState, before: seq<Op>, instructions: seq<seq<Byte>>)
    requires IsAt(s, before) && IsInstructions(instructions)
    ensures var op := Sequence('M' as int, instructions); var t := Apply(codec, s, op);
      IsAt(t, before + [op]) && t.rows == s.rows
  {
    OneMoreMoves(before, Sequence('M' as int, instructions));
    var t := ApplyEscape(s, 'M' as int, instructions);
    assert t == s.(style := Color(s.style, if instructions == [] then [[]] else instructions));
  }

  lemma MovesMoveCursor(s: ScreenState, code: Rune, instructions: seq<seq<Byte>>)
    requires Valid(s) && IsInstructions(instructions) && 'A' as int <= code <= 'G' as int
    ensures var t := ApplyEscape(s, code, instructions);
      && (t.y, t.x) == Moved((s.y, s.x), Sequence(code, instructions))
      && t.rows == s.rows && t.style == s.style && t.maxLines == s.maxLines
  {
    MovesGoAsFarAsTheySay(s, code, instructions);
  }

  lemma MoveTouchesNothing(
      codec: ElementCodec, s: ScreenState, before: seq<Op>, code: Rune, instructions: seq<seq<Byte>>)
    requires IsAt(s, before) && IsInstructions(instructions) && 'A' as int <= code <= 'G' as int
    ensures var op := Sequence(code, instructions); var t := Apply(codec, s, op);
      IsAt(t, before + [op]) && t.rows == s.rows
  {
    OneMoreMoves(before, Sequence(code, instructions));
    MovesMoveCursor(s, code, instructions);
  }

  lemma SequenceTouchesNothing(codec: ElementCodec, s: ScreenState, before: seq<Op>, op: Op)
    requires IsAt(s, before) && IsOp(op) && op.Sequence? && op.code != 'K' as int
    ensures IsAt(Apply(codec, s, op), before + [op])
    ensures Apply(codec, s, op).rows == s.rows
  {
    if op.code == 'M' as int {
      ColorTouchesNothing(codec, s, before, op.instructions);
    } else if 'A' as int <= op.code <= 'G' as int {
      MoveTouchesNothing(codec, s, before, op.code, op.instructions);
    } else {
      OneMoreMoves(before, op);
      OthersDoNothing(s, op.code, op.instructions);
    }
  }

  lemma ControlMovesCursor(codec: ElementCodec, s: ScreenState, op: Op)
    requires Valid(s) && (op.NewLine? || op.CarriageReturn? || op.Backspace?)
    ensures var t := Apply(codec, s, op);
      && Valid(t) && (t.y, t.x) == Moved((s.y, s.x), op)
      && t.rows == s.rows && t.style == s.style && t.maxLines == s.maxLines
  {
  }

  lemma ControlTouchesNothing(codec: ElementCodec, s: ScreenState, before: seq<Op>, op: Op)
    requires IsAt(s, before) && (op.NewLine? || op.CarriageReturn? || op.Backspace?)
    ensures IsAt(Apply(codec, s, op), before + [op])
    ensures Apply(codec, s, op).rows == s.rows
  {
    OneMoreMoves(before, op);
    ControlMovesCursor(codec, s, op);
  }

  lemma MovingTouchesNothing(codec: ElementCodec, s: ScreenState, before: seq<Op>, op: Op)
    requires IsAt(s, before) && IsOp(op) && HasNoElements([op])
    requires !op.Append? && (op.Sequence? ==> op.code != 'K' as int)
    ensures var t := Apply(codec, s, op); IsAt(t, before + [op]) && TouchesAsItShould(s, t, before, op)
  {
    assert [op][0] == op;
    OneMore(before, op);
    if op.Sequence? {
      SequenceTouchesNothing(codec, s, before, op);
    } else {
      ControlTouchesNothing(codec, s, before, op);
    }
  }

  lemma OperationTouches(codec: ElementCodec, s: ScreenState, before: seq<Op>, op: Op)
    requires IsAt(s, before) && IsOp(op) && HasNoElements([op])
    ensures var t := Apply(codec, s, op); IsAt(t, before + [op]) && TouchesAsItShould(s, t, before, op)
  {
    if op.Append? {
      AppendTouches(codec, s, before, op.rune);
    } else if op.Sequence? && op.code == 'K' as int {
      ErasingTouches(codec, s, before, op.instructions);
    } else {
      MovingTouchesNothing(codec, s, before, op);
    }
  }

  lemma {:induction false} RunShows(codec: ElementCodec, ops: seq<Op>)
    requires AreOps(ops) && HasNoElements(ops)
    ensures IsWhatTheySay(ApplyAll(codec, NewScreen(0), ops), ops)
  {
    if ops != [] {
      var before, op := ops[..|ops| - 1], ops[|ops| - 1];
      assert ops == before + [op];
      RunShows(codec, before);
      ApplyAllAppend(codec, NewScreen(0), before, [op]);
      assert [op][1..] == [] && [op][0] == op;
      var s := ApplyAll(codec, NewScreen(0), before);
      OperationTouches(codec, s, before, op);
      ShowsLonger(s, Apply(codec, s, op), before, op);
    }
  }

  /** Whether an operation touches a cell does not depend on later ones. */
  lemma TouchesInLonger(before: seq<Op>, op: Op, i: nat, r: nat, c: nat)
    requires i < |before|
    ensures Touches(before + [op], i, r, c) == Touches(before, i, r, c)
    ensures Left(before + [op], i) == Left(before, i)
  {
    assert (before + [op])[..i] == before[..i];
  }

  lemma ShowsLonger(s: ScreenState, t: ScreenState, before: seq<Op>, op: Op)
    requires IsWhatTheySay(s, before) && IsAt(t, before + [op]) && TouchesAsItShould(s, t, before, op)
    ensures IsWhatTheySay(t, before + [op])
  {
    var ops := before + [op];
    forall r: nat, c: nat, i: nat | i < |before|
      ensures Touches(ops, i, r, c) == Touches(before, i, r, c) && Left(ops, i) == Left(before, i)
    {
      TouchesInLonger(before, op, i, r, c);
    }
    forall r: nat, c: nat, i: nat | i < |ops| && TouchesLast(ops, i, r, c)
      ensures CellAt(t.rows, r, c) == Left(ops, i)
    {
      if i < |before| {
        assert !Touches(ops, |before|, r, c) && TouchesLast(before, i, r, c);
      }
    }
    forall r: nat, c: nat | IsUntouched(ops, r, c) ensures CellAt(t.rows, r, c) == EMPTY_NODE {
      assert !Touches(ops, |before|, r, c) && IsUntouched(before, r, c);
    }
  }

  /** Cells are all that matters for printing: rows that show the same print the same. */
  lemma SameCellsPrintAlike(a: Row, b: Row)
    requires forall c: nat :: CellOf(a, c) == CellOf(b, c)
    ensures TrimRow(a) == TrimRow(b)
  {
    TrimsNoFurther(a, b);
    TrimsNoFurther(b, a);
    assert forall c: nat :: c < |TrimRow(a)| ==> TrimRow(a)[c] == CellOf(a, c) == CellOf(b, c) == TrimRow(b)[c];
  }

  lemma TrimsNoFurther(a: Row, b: Row)
    requires forall c: nat :: CellOf(a, c) == CellOf(b, c)
    ensures |TrimRow(a)| <= |TrimRow(b)|
  {
    TrimRowIsMaximal(a);
    TrimRowIsMaximal(b);
    if TrimRow(a) != [] {
      var last := |TrimRow(a)| - 1;
      assert CellOf(a, last) == a[last] && !IsBlankCell(CellOf(b, last));
    }
  }
}
