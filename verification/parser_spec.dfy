/** The ANSI parser as a value (server/terminal/parser.go). Parsing a chunk yields the operations
    that the screen must carry out; what the screen shows never influences the parser. */
module ParserSpec {
  import opened Bytes
  import opened Cells
  import opened ScreenSpec
  import opened Strconv
  import opened Utf8

  datatype Mode = Normal | Escape | Control | Osc | Charset | Apc

  datatype ParserState = ParserState(
    mode: Mode,
    cursor: nat,
    escapeStartedAt: nat,
    instructionStartedAt: nat,
    instructions: seq<seq<Byte>>)

  const START := ParserState(Normal, 0, 0, 0, [])

  /** What handling one character does: the parser's new state and the screen's work. */
  datatype Effect = Effect(state: ParserState, ops: seq<Op>)

  const BELL: Rune := 7

  /** unicode.ToUpper, as far as it can decide a case of handleControlSequence: no other rune has
      one of the letters compared there as its upper case. */
  function ToUpper(rune: Rune): Rune {
    if 'a' as int <= rune <= 'z' as int then rune - 32 else rune
  }

  predicate WithinBounds(data: seq<Byte>, start: nat, end: nat) {
    start <= end <= |data|
  }

  function AddInstruction(p: ParserState, data: seq<Byte>): seq<seq<Byte>> {
    if !WithinBounds(data, p.instructionStartedAt, p.cursor) || p.instructionStartedAt == p.cursor then p.instructions
    else p.instructions + [data[p.instructionStartedAt..p.cursor]]
  }

  /** A false alarm: go back to where the escape began. */
  function Rewind(p: ParserState): ParserState {
    p.(cursor := p.escapeStartedAt, mode := Normal)
  }

  function HandleNormal(p: ParserState, rune: Rune): Effect {
    if rune == NEWLINE then Effect(p, [NewLine])
    else if rune == 13 then Effect(p, [CarriageReturn])
    else if rune == 8 then Effect(p, [Backspace])
    else if rune == ESCAPE then Effect(p.(escapeStartedAt := p.cursor, mode := Escape), [])
    else Effect(p, [Append(rune)])
  }

  function HandleEscape(p: ParserState, rune: Rune): Effect {
    if rune == '[' as int then
      Effect(p.(instructionStartedAt := p.cursor + 1, instructions := [], mode := Control), [])
    else if rune == ']' as int then Effect(p.(instructionStartedAt := p.cursor + 1, mode := Osc), [])
    else if rune == ')' as int || rune == '(' as int then
      Effect(p.(instructionStartedAt := p.cursor + 1, mode := Charset), [])
    else if rune == '_' as int then Effect(p.(instructionStartedAt := p.cursor + 1, mode := Apc), [])
    else Effect(Rewind(p), [])
  }

  /** The final characters that are sent on to the screen. */
  predicate IsSequenceEnd(rune: Rune) {
    rune == 'Q' as int || rune == 'K' as int || rune == 'G' as int || rune == 'A' as int
    || rune == 'B' as int || rune == 'C' as int || rune == 'D' as int || rune == 'M' as int
  }

  function HandleControl(p: ParserState, data: seq<Byte>, read: Rune): Effect {
    var rune := ToUpper(read);
    if rune < 256 && IsParameterByte(rune) then Effect(p, [])
    else if rune == ';' as int then
      Effect(p.(instructions := AddInstruction(p, data), instructionStartedAt := p.cursor + 1), [])
    else if IsSequenceEnd(rune) then
      var instructions := AddInstruction(p, data);
      Effect(p.(instructions := instructions, mode := Normal), [Sequence(rune, instructions)])
    else if rune == 'H' as int || rune == 'L' as int then Effect(p.(mode := Normal), [])
    else Effect(Rewind(p), [])
  }

  /** Both kinds of payload end at a bell. */
  function HandlePayload(p: ParserState, data: seq<Byte>, rune: Rune): Effect {
    if rune != BELL then Effect(p, [])
    else if !WithinBounds(data, p.instructionStartedAt, p.cursor) then Effect(p.(mode := Normal), [])
    else
      var payload := data[p.instructionStartedAt..p.cursor];
      Effect(p.(mode := Normal), [if p.mode == Osc then OscElement(payload) else ApcElement(payload)])
  }

  function Handle(p: ParserState, data: seq<Byte>, rune: Rune): Effect {
    match p.mode
    case Normal => HandleNormal(p, rune)
    case Escape => HandleEscape(p, rune)
    case Control => HandleControl(p, data, rune)
    case Charset => Effect(p.(mode := Normal), [])
    case Osc => HandlePayload(p, data, rune)
    case Apc => HandlePayload(p, data, rune)
  }

  /** What a round does with the character that it has read. The width is that of this character,
      also when handling it moved the cursor back. */
  function StepOver(p: ParserState, data: seq<Byte>, d: Decoded): Effect {
    var e := Handle(p, data, d.rune);
    e.(state := e.state.(cursor := e.state.cursor + d.width))
  }

  /** One round of the loop in parseChunk. */
  function Step(p: ParserState, data: seq<Byte>): Effect
    requires p.cursor < |data|
  {
    StepOver(p, data, DecodeRune(data[p.cursor..]))
  }

  // ----- why the loop ends -----

  /** The first escape character at or after a position. */
  function NextEscape(data: seq<Byte>, c: nat): (n: nat)
    ensures c <= |data| ==> c <= n <= |data|
    ensures n <= |data|
    ensures forall i :: c <= i < n ==> data[i] != ESCAPE
    ensures c < |data| && n < |data| ==> data[n] == ESCAPE
    decreases |data| - c
  {
    if c >= |data| then |data| else if data[c] == ESCAPE then c else NextEscape(data, c + 1)
  }

  /** The escape being scanned began in this chunk, before the cursor, and no other has begun since
      (payloads may contain further escape characters: scanning one never rewinds). */
  predicate IsGenuine(p: ParserState, data: seq<Byte>) {
    p.escapeStartedAt < p.cursor
    && (p.mode == Escape || p.mode == Control ==> NextEscape(data, p.escapeStartedAt + 1) >= p.cursor)
  }

  /** An upper bound for the rounds that are left. */
  function Potential(p: ParserState, data: seq<Byte>): nat {
    var n := |data|;
    if p.cursor >= n then 0
    else if p.mode == Normal then (n - p.cursor) + (n - NextEscape(data, p.cursor))
    else if IsGenuine(p, data) then (n - p.escapeStartedAt) + (n - p.cursor)
    else 2 * n + (n - p.cursor)
  }

  lemma NextEscapeIsMonotone(data: seq<Byte>, c: nat, d: nat)
    requires c <= d <= |data|
    ensures NextEscape(data, c) <= NextEscape(data, d)
    ensures (forall i :: c <= i < d ==> data[i] != ESCAPE) ==> NextEscape(data, c) == NextEscape(data, d)
  {
  }

  /** What matters of a character that has been read: it lies within the chunk, and its bytes are
      ASCII exactly if it is. */
  predicate IsRead(data: seq<Byte>, cursor: nat, d: Decoded) {
    && cursor < |data|
    && 1 <= d.width <= |data| - cursor && d.width <= 4
    && (d.rune < 0x80 <==> data[cursor] < 0x80)
    && (data[cursor] < 0x80 ==> d == Decoded(data[cursor], 1))
    && forall i :: cursor < i < cursor + d.width ==> data[i] >= 0x80
  }

  lemma CharactersAreRead(data: seq<Byte>, cursor: nat) returns (d: Decoded)
    requires cursor < |data|
    ensures d == DecodeRune(data[cursor..]) && IsRead(data, cursor, d)
  {
    var rest := data[cursor..];
    d := DecodeRune(rest);
    assert forall i :: 0 <= i < |rest| ==> rest[i] == data[cursor + i];
    forall i | cursor < i < cursor + d.width ensures data[i] >= 0x80 {
      assert rest[i - cursor] == data[i];
    }
  }

  /** Scanning on inside an escape sequence reads no escape character. */
  lemma ScanStaysGenuine(p: ParserState, data: seq<Byte>, d: Decoded)
    requires IsRead(data, p.cursor, d) && (p.mode == Escape || p.mode == Control)
    requires StepOver(p, data, d).state.mode != Normal && IsGenuine(p, data)
    ensures IsGenuine(StepOver(p, data, d).state, data)
  {
    assert d.rune < 128 && d.width == 1 && data[p.cursor] != ESCAPE;
    NextEscapeIsMonotone(data, p.cursor, p.cursor + 1);
    NextEscapeIsMonotone(data, p.escapeStartedAt + 1, p.cursor);
  }

  lemma NormalStepAdvances(p: ParserState, data: seq<Byte>, d: Decoded)
    requires IsRead(data, p.cursor, d) && p.mode == Normal
    ensures Potential(StepOver(p, data, d).state, data) < Potential(p, data)
  {
    NextEscapeIsMonotone(data, p.cursor, p.cursor + d.width);
  }

  lemma ScanAdvances(p: ParserState, data: seq<Byte>, d: Decoded)
    requires IsRead(data, p.cursor, d) && p.mode != Normal && IsGenuine(p, data)
    ensures Potential(StepOver(p, data, d).state, data) < Potential(p, data)
  {
    var next := StepOver(p, data, d).state;
    if next.mode == Normal {
      if next.cursor < |data| {
        NextEscapeBound(p, data, d);
      }
    } else {
      assert next.escapeStartedAt == p.escapeStartedAt && next.cursor == p.cursor + d.width;
      if p.mode == Escape || p.mode == Control {
        ScanStaysGenuine(p, data, d);
      }
    }
  }

  lemma StrayScanAdvances(p: ParserState, data: seq<Byte>, d: Decoded)
    requires IsRead(data, p.cursor, d) && p.mode != Normal && !IsGenuine(p, data)
    ensures Potential(StepOver(p, data, d).state, data) < Potential(p, data)
  {
  }

  lemma StepDecreasesPotential(p: ParserState, data: seq<Byte>)
    requires p.cursor < |data|
    ensures Potential(Step(p, data).state, data) < Potential(p, data)
  {
    var d := CharactersAreRead(data, p.cursor);
    if p.mode == Normal {
      NormalStepAdvances(p, data, d);
    } else if IsGenuine(p, data) {
      ScanAdvances(p, data, d);
    } else {
      StrayScanAdvances(p, data, d);
    }
  }

  /** Leaving an escape sequence, the next escape is not before the position just read, or at
      least not before the resumed cursor when a payload ended. */
  lemma NextEscapeBound(p: ParserState, data: seq<Byte>, d: Decoded)
    requires IsRead(data, p.cursor, d) && p.mode != Normal && IsGenuine(p, data)
    requires StepOver(p, data, d).state.mode == Normal && StepOver(p, data, d).state.cursor < |data|
    ensures NextEscape(data, StepOver(p, data, d).state.cursor) >= p.cursor
  {
    var next := StepOver(p, data, d).state;
    if next.cursor < p.cursor {
      NextEscapeIsMonotone(data, p.escapeStartedAt + 1, next.cursor);
    }
  }

  /** The rest of parseChunk from a state at the head of its loop. */
  function Run(p: ParserState, data: seq<Byte>): Effect
    decreases Potential(p, data)
  {
    if p.cursor >= |data| then Effect(p, [])
    else
      StepDecreasesPotential(p, data);
      var e := Step(p, data);
      var rest := Run(e.state, data);
      Effect(rest.state, e.ops + rest.ops)
  }

  /** parseChunk: the cursor starts over, everything else carries on from the chunk before. */
  function ParseChunk(p: ParserState, data: seq<Byte>): Effect {
    Run(p.(cursor := 0), data)
  }

  /** Every operation sent is well formed: in a control sequence, what lies between the start of
      the current instruction and the cursor consists of digits and question marks, even if the
      start is left over from an earlier chunk. */
  predicate Valid(p: ParserState, data: seq<Byte>) {
    && IsInstructions(p.instructions)
    && (p.mode == Control ==>
        forall i :: p.instructionStartedAt <= i < p.cursor && i < |data| ==> IsParameterByte(data[i]))
  }

  lemma StepKeepsValid(p: ParserState, data: seq<Byte>)
    requires p.cursor < |data| && Valid(p, data)
    ensures Valid(Step(p, data).state, data) && AreOps(Step(p, data).ops)
  {
    var d := DecodeRune(data[p.cursor..]);
    if p.mode == Control {
      if p.instructionStartedAt < p.cursor {
        assert IsParameter(data[p.instructionStartedAt..p.cursor]);
      }
      assert IsInstructions(AddInstruction(p, data));
      if d.rune < 128 {
        assert data[p.cursor] == d.rune;
      }
    }
  }

  lemma {:induction false} RunKeepsValid(p: ParserState, data: seq<Byte>)
    requires Valid(p, data)
    ensures Valid(Run(p, data).state, data) && AreOps(Run(p, data).ops)
    decreases Potential(p, data)
  {
    if p.cursor < |data| {
      StepDecreasesPotential(p, data);
      StepKeepsValid(p, data);
      RunKeepsValid(Step(p, data).state, data);
    }
  }
}
