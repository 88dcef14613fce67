/** The screen as a value: a grid of cells, a cursor and what each operation does to them
    (server/terminal/screen.go). The class in screens.dfy does the same in place. */
module ScreenSpec {
  import opened Bytes
  import opened Cells
  import opened Strconv
  import opened Styles
  import opened Utf8
  import opened Wrappers

  /** What a screen has done so far that its rows no longer show. */
  datatype History = History(
    removed: seq<Row>,  // every row taken off the top, in order
    lost: nat,          // how many of them growScreenHeight dropped, so that nobody received them
    clamped: bool)      // whether the cursor was stopped at the top after rows had been removed

  const NO_HISTORY := History([], 0, false)

  datatype ScreenState = ScreenState(
    rows: seq<Row>,
    x: int,
    y: int,
    style: Style,
    maxLines: int,
    past: History)

  function NewScreen(maxLines: int): ScreenState {
    ScreenState([], 0, 0, EMPTY_STYLE, maxLines, NO_HISTORY)
  }

  /** The cursor is on or below the grid and to the right of its edge; the grid keeps to its cap. */
  predicate Valid(s: ScreenState) {
    && s.x >= 0
    && s.y >= 0
    && (s.maxLines > 0 ==> |s.rows| <= s.maxLines)
  }

  /** What any operation keeps: the screen is valid, rows that have gone stay gone, and rows go
      only because the cap is exceeded, which leaves some. */
  predicate Follows(s: ScreenState, r: ScreenState) {
    && Valid(r)
    && r.maxLines == s.maxLines
    && s.past.removed <= r.past.removed
    && |r.past.removed| - |s.past.removed| == r.past.lost - s.past.lost
    && (s.past.clamped ==> r.past.clamped)
    && (s.rows != [] || r.past.lost > s.past.lost ==> r.rows != [])
  }

  /** The operations that the parser sends to the screen. */
  datatype Op =
    | NewLine
    | CarriageReturn
    | Backspace
    | Append(rune: Rune)
    | Sequence(code: Rune, instructions: seq<seq<Byte>>)
    | OscElement(payload: seq<Byte>)
    | ApcElement(payload: seq<Byte>)

  /** How the payload of an OSC or APC sequence reads; the screen does not depend on the details. */
  datatype ElementResult = NoElement | Parsed(element: Element) | Failed(message: seq<Scalar>)

  datatype ElementCodec = ElementCodec(osc: seq<Byte> -> ElementResult, apc: seq<Byte> -> ElementResult)

  /** The instructions of a sequence are non-empty parameters. */
  predicate IsInstructions(instructions: seq<seq<Byte>>) {
    forall i :: 0 <= i < |instructions| ==> instructions[i] != [] && IsParameter(instructions[i])
  }

  predicate IsOp(op: Op) {
    op.Sequence? ==> IsInstructions(op.instructions)
  }

  predicate AreOps(ops: seq<Op>) {
    forall i :: 0 <= i < |ops| ==> IsOp(ops[i])
  }

  // ----- what each operation does -----

  const END_OF_LINE := -1
  const START_OF_LINE := 0

  function BlankNodes(n: nat): Row {
    seq(n, _ => EMPTY_NODE)
  }

  function BlankRows(n: nat): seq<Row> {
    seq(n, _ => [])
  }

  /** A line whose cells from one position to another (inclusive) have been blanked. */
  function ClearedLine(line: Row, xStart: int, xEnd: int): Row {
    seq(|line|, i requires 0 <= i < |line| => if xStart <= i <= xEnd then EMPTY_NODE else line[i])
  }

  function Clear(s: ScreenState, y: int, xStart: int, xEnd: int): ScreenState
    requires 0 <= y
  {
    if |s.rows| <= y then s
    else if xStart == START_OF_LINE && xEnd == END_OF_LINE then s.(rows := s.rows[y := []])
    else
      var end := if xEnd == END_OF_LINE then |s.rows[y]| - 1 else xEnd;
      s.(rows := s.rows[y := ClearedLine(s.rows[y], xStart, end)])
  }

  /** pi: a missing instruction counts as one, a malformed one as zero, a large one as 127. */
  function Pi(i: seq<Byte>): (n: int)
    ensures IsParameter(i) ==> n >= 0
  {
    ParametersAreNotNegativeIfAny(i);
    if i == [] then 1 else ParseInt8(i)
  }

  lemma ParametersAreNotNegativeIfAny(i: seq<Byte>)
    ensures IsParameter(i) ==> ParseInt8(i) >= 0
  {
    if IsParameter(i) {
      ParametersAreNotNegative(i);
    }
  }

  function Up(s: ScreenState, i: seq<Byte>): ScreenState {
    var y := s.y - Pi(i);
    if y < 0 then
      s.(y := 0, past := s.past.(clamped := s.past.clamped || s.past.removed != []))
    else
      s.(y := y)
  }

  function Down(s: ScreenState, i: seq<Byte>): ScreenState {
    s.(y := s.y + Pi(i))
  }

  function Forward(s: ScreenState, i: seq<Byte>): ScreenState {
    s.(x := s.x + Pi(i))
  }

  function Backward(s: ScreenState, i: seq<Byte>): ScreenState {
    s.(x := if s.x - Pi(i) < 0 then 0 else s.x - Pi(i))
  }

  /** The rows with blank ones added so that the cursor is on one. */
  function Extended(rows: seq<Row>, y: int): seq<Row> {
    if |rows| <= y then rows + BlankRows(y + 1 - |rows|) else rows
  }

  /** Rows beyond the cap. */
  function Excess(s: ScreenState): (n: nat)
    ensures n <= |Extended(s.rows, s.y)|
  {
    var extra := |Extended(s.rows, s.y)| - s.maxLines;
    if s.maxLines > 0 && extra > 0 then extra else 0
  }

  function GrowHeight(s: ScreenState): ScreenState {
    var grown, extra := Extended(s.rows, s.y), Excess(s);
    if extra == 0 then s.(rows := grown)
    else s.(
      rows := grown[extra..],
      y := if s.y - extra < 0 then 0 else s.y - extra,
      past := s.past.(removed := s.past.removed + grown[..extra], lost := s.past.lost + extra))
  }

  /** Growing a valid screen leaves the cursor on one of its rows. If rows are dropped, it is the
      last row, and the cursor row did not have to be moved back to the top. */
  lemma GrowHeightKeepsCursor(s: ScreenState)
    requires Valid(s)
    ensures Valid(GrowHeight(s)) && GrowHeight(s).y < |GrowHeight(s).rows|
    ensures Excess(s) > 0 ==> GrowHeight(s).y == |GrowHeight(s).rows| - 1 == s.maxLines - 1
    ensures s.y - Excess(s) >= 0 && GrowHeight(s).y == s.y - Excess(s)
    ensures GrowHeight(s).past.removed + GrowHeight(s).rows == s.past.removed + Extended(s.rows, s.y)
  {
  }

  function GrowWidth(line: Row, x: int): (r: Row)
    ensures |line| <= x ==> |r| == x + 1
    ensures x < |line| ==> r == line
  {
    if |line| <= x then line + BlankNodes(x + 1 - |line|) else line
  }

  /** Put one node at the cursor. */
  function Put(s: ScreenState, n: Node): (r: ScreenState)
    requires Valid(s)
    ensures Follows(s, r)
  {
    GrowHeightKeepsCursor(s);
    var t := GrowHeight(s);
    t.(rows := t.rows[t.y := GrowWidth(t.rows[t.y], t.x)[t.x := n]])
  }

  function Write(s: ScreenState, data: Rune): ScreenState
    requires Valid(s)
  {
    Put(s, Node(s.style, None, data))
  }

  function AppendChar(s: ScreenState, data: Rune): (r: ScreenState)
    requires Valid(s)
    ensures Follows(s, r)
  {
    var t := Write(s, data);
    t.(x := t.x + 1)
  }

  function AppendMany(s: ScreenState, data: seq<Rune>): (r: ScreenState)
    requires Valid(s)
    ensures Follows(s, r)
    decreases data
  {
    if data == [] then s else AppendMany(AppendChar(s, data[0]), data[1..])
  }

  /** The runes of an element cell are zero, the value of an unset field. */
  function AppendElement(s: ScreenState, e: Element): (r: ScreenState)
    requires Valid(s)
    ensures Follows(s, r)
  {
    var t := Put(s, Node(s.style, Some(e), 0));
    t.(x := t.x + 1)
  }

  function StartNewLine(s: ScreenState): ScreenState {
    s.(x := 0, y := s.y + 1)
  }

  function StepBack(s: ScreenState): ScreenState {
    if s.x > 0 then s.(x := s.x - 1) else s
  }

  function ApplyEscape(s: ScreenState, code: Rune, instructions: seq<seq<Byte>>): (r: ScreenState)
    requires Valid(s)
    ensures IsInstructions(instructions) ==> Follows(s, r)
  {
    var args := if instructions == [] then [[]] else instructions;
    if code == 'M' as int then s.(style := Color(s.style, args))
    else if code == 'G' as int then s.(x := 0)
    else if code == 'K' as int then
      if args[0] == ['0' as int] || args[0] == [] then Clear(s, s.y, s.x, END_OF_LINE)
      else if args[0] == ['1' as int] then Clear(s, s.y, START_OF_LINE, s.x)
      else if args[0] == ['2' as int] then Clear(s, s.y, START_OF_LINE, END_OF_LINE)
      else s
    else if code == 'A' as int then Up(s, args[0])
    else if code == 'B' as int then Down(s, args[0])
    else if code == 'C' as int then Forward(s, args[0])
    else if code == 'D' as int then Backward(s, args[0])
    else s
  }

  const OSC_ERROR: seq<Rune> := Ascii("*** Error parsing custom element escape sequence: ")
  const APC_ERROR: seq<Rune> := Ascii("*** Error parsing buildkite element escape sequence: ")

  /** Printable ASCII text as runes; other characters do not occur in the messages. */
  function Ascii(s: string): seq<Rune> {
    seq(|s|, i requires 0 <= i < |s| => if 32 <= s[i] as int < 127 then s[i] as int else SPACE)
  }

  /** Elements other than links, and error messages, get a line of their own. */
  function PutOscElement(s: ScreenState, result: ElementResult): (r: ScreenState)
    requires Valid(s)
    ensures Follows(s, r)
  {
    match result
    case NoElement => s
    case Parsed(e) =>
      if e.elementType == Link then AppendElement(s, e)
      else StartNewLine(AppendElement(OwnLine(s), e))
    case Failed(message) =>
      StartNewLine(AppendMany(AppendMany(OwnLine(s), OSC_ERROR), message))
  }

  function OwnLine(s: ScreenState): (r: ScreenState)
    requires Valid(s)
    ensures Follows(s, r)
  {
    var t := if s.x != 0 then StartNewLine(s) else s;
    Clear(t, t.y, START_OF_LINE, END_OF_LINE)
  }

  function PutApcElement(s: ScreenState, result: ElementResult): (r: ScreenState)
    requires Valid(s)
    ensures Follows(s, r)
  {
    match result
    case NoElement => s
    case Parsed(e) => AppendElement(s, e)
    case Failed(message) => AppendMany(AppendMany(s, APC_ERROR), message)
  }

  /** One operation; a valid screen stays valid, so no write is ever out of bounds. */
  function Apply(codec: ElementCodec, s: ScreenState, op: Op): (r: ScreenState)
    requires Valid(s) && IsOp(op)
    ensures Follows(s, r)
  {
    match op
    case NewLine => StartNewLine(s)
    case CarriageReturn => s.(x := 0)
    case Backspace => StepBack(s)
    case Append(c) => AppendChar(s, c)
    case Sequence(code, instructions) => ApplyEscape(s, code, instructions)
    case OscElement(payload) => PutOscElement(s, codec.osc(payload))
    case ApcElement(payload) => PutApcElement(s, codec.apc(payload))
  }

  function ApplyAll(codec: ElementCodec, s: ScreenState, ops: seq<Op>): (r: ScreenState)
    requires Valid(s) && AreOps(ops)
    ensures Follows(s, r)
    decreases ops
  {
    if ops == [] then s else ApplyAll(codec, Apply(codec, s, ops[0]), ops[1..])
  }

  lemma {:induction false} ApplyAllAppend(codec: ElementCodec, s: ScreenState, a: seq<Op>, b: seq<Op>)
    requires Valid(s) && AreOps(a) && AreOps(b)
    ensures ApplyAll(codec, s, a + b) == ApplyAll(codec, ApplyAll(codec, s, a), b)
    decreases a
  {
    if a == [] {
      assert a + b == b;
    } else {
      assert (a + b)[1..] == a[1..] + b;
      ApplyAllAppend(codec, Apply(codec, s, a[0]), a[1..], b);
    }
  }

  // ----- printing and popping -----

  function OutputLines(rows: seq<Row>): (lines: seq<seq<Byte>>)
    ensures |lines| == |rows|
    ensures forall i :: 0 <= i < |rows| ==> lines[i] == OutputLine(rows[i])
  {
    seq(|rows|, i requires 0 <= i < |rows| => OutputLine(rows[i]))
  }

  function AsANSI(rows: seq<Row>): seq<Byte> {
    Join(OutputLines(rows))
  }

  /** How many rows popExtraLines takes: never the cursor row or one below it, all others that are not
      to be retained, and none that is. */
  function PopCount(s: ScreenState, linesToRetain: nat): (n: nat)
    requires Valid(s)
    ensures n <= |s.rows|
    ensures n <= s.y
    ensures |s.rows| - n <= linesToRetain || n == s.y
    ensures n > 0 ==> |s.rows| - n >= linesToRetain
  {
    var extra := |s.rows| - linesToRetain;
    var stopped := if extra > s.y then s.y else extra;
    if stopped < 1 then 0 else stopped
  }

  /** popExtraLines as a change of state; what it returns is AsANSI of the rows it takes. */
  function Pop(s: ScreenState, linesToRetain: nat): (r: ScreenState)
    requires Valid(s)
    ensures Valid(r)
  {
    var extra := PopCount(s, linesToRetain);
    s.(rows := s.rows[extra..], y := s.y - extra, past := s.past.(removed := s.past.removed + s.rows[..extra]))
  }
}
