/** What the parser makes of terminal input that is written as it should be, and of false alarms
    (server/terminal/parser.go). */
module TerminalInput {
  import opened Bytes
  import opened Cells
  import opened ParserSpec
  import opened RoundTrip
  import opened ScreenLaws
  import opened ScreenSpec
  import opened Streaming
  import opened Strconv
  import opened Utf8
  import opened Windows

  /** The pieces of terminal input. The instructions of a control sequence are what stands between its
      semicolons, and may be empty. */
  datatype Token =
    | Text(rune: Rune)
    | Newline
    | Return
    | Back
    | ControlSequence(instructions: seq<seq<Byte>>, final: Byte)
    | CharacterSet(open: Byte, rune: Rune)
    | OperatingSystem(payload: seq<Byte>)
    | ApplicationProgram(payload: seq<Byte>)

  const SEMICOLON: Byte := ';' as int
  const LETTERS: seq<Rune> := Ascii("QKGABCDM")

  /** The letters that end a control sequence, in either case: those that are sent on, and two more. */
  predicate IsFinal(b: Byte) {
    IsSent(b) || b == 'H' as int || b == 'h' as int || b == 'L' as int || b == 'l' as int
  }

  predicate IsSent(b: Byte) {
    b in LETTERS || ('a' as int <= b <= 'z' as int && b - 32 in LETTERS)
  }

  function Capital(b: Byte): Rune {
    if b >= 'a' as int then b - 32 else b
  }

  predicate IsToken(t: Token) {
    match t
    case Text(rune) => IsPlainRune(rune)
    case ControlSequence(instructions, final) =>
      instructions != [] && IsFinal(final) && forall i :: 0 <= i < |instructions| ==> IsParameter(instructions[i])
    case CharacterSet(open, rune) => (open == '(' as int || open == ')' as int) && IsScalar(rune)
    case OperatingSystem(payload) => IsPayload(payload)
    case ApplicationProgram(payload) => IsPayload(payload)
    case _ => true
  }

  /** A payload is ended by the first bell. */
  predicate IsPayload(payload: seq<Byte>) {
    forall i :: 0 <= i < |payload| ==> payload[i] != 7
  }

  function WithSemicolons(instructions: seq<seq<Byte>>): seq<Byte>
    requires instructions != []
  {
    if |instructions| == 1 then instructions[0]
    else instructions[0] + [SEMICOLON] + WithSemicolons(instructions[1..])
  }

  function Written(t: Token): seq<Byte>
    requires IsToken(t)
  {
    match t
    case Text(rune) => EncodeRune(rune)
    case Newline => [NEWLINE]
    case Return => [13]
    case Back => [8]
    case ControlSequence(instructions, final) => [ESCAPE, '[' as int] + WithSemicolons(instructions) + [final]
    case CharacterSet(open, rune) => [ESCAPE, open] + EncodeRune(rune)
    case OperatingSystem(payload) => [ESCAPE, ']' as int] + payload + [7]
    case ApplicationProgram(payload) => [ESCAPE, '_' as int] + payload + [7]
  }

  function NonEmpty(instructions: seq<seq<Byte>>): seq<seq<Byte>> {
    if instructions == [] then []
    else (if instructions[0] == [] then [] else [instructions[0]]) + NonEmpty(instructions[1..])
  }

  /** What it asks the screen to do. */
  function Meant(t: Token): seq<Op>
    requires IsToken(t)
  {
    match t
    case Text(rune) => [Append(rune)]
    case Newline => [NewLine]
    case Return => [CarriageReturn]
    case Back => [Backspace]
    case ControlSequence(instructions, final) =>
      if IsSent(final) then [Sequence(Capital(final), NonEmpty(instructions))] else []
    case CharacterSet(_, _) => []
    case OperatingSystem(payload) => [OscElement(payload)]
    case ApplicationProgram(payload) => [ApcElement(payload)]
  }

  predicate AreTokens(tokens: seq<Token>) {
    forall i :: 0 <= i < |tokens| ==> IsToken(tokens[i])
  }

  function AllWritten(tokens: seq<Token>): seq<Byte>
    requires AreTokens(tokens)
  {
    if tokens == [] then [] else Written(tokens[0]) + AllWritten(tokens[1..])
  }

  function AllMeant(tokens: seq<Token>): seq<Op>
    requires AreTokens(tokens)
  {
    if tokens == [] then [] else Meant(tokens[0]) + AllMeant(tokens[1..])
  }

  // ----- one piece -----

  lemma ControlCharacterSends(b: Byte, op: Op)
    requires (b == NEWLINE && op == NewLine) || (b == 13 && op == CarriageReturn) || (b == 8 && op == Backspace)
    ensures Sends([b], [op])
  {
    OneStepRun(START, [b]);
  }

  /** The state behind an opening character. */
  function Opened(mode: Mode): ParserState {
    ParserState(mode, 2, 0, 2, [])
  }

  lemma Opens(data: seq<Byte>, mode: Mode)
    requires |data| >= 2 && data[0] == ESCAPE
    requires match mode
      case Control => data[1] == '[' as int
      case Osc => data[1] == ']' as int
      case Charset => data[1] == '(' as int || data[1] == ')' as int
      case Apc => data[1] == '_' as int
      case _ => false
    ensures Run(START, data) == Run(Opened(mode), data)
  {
    var inEscape := START.(mode := Escape, cursor := 1);
    assert Step(START, data) == Effect(inEscape, []);
    QuietStepRun(START, data, inEscape);
    assert Step(inEscape, data) == Effect(Opened(mode), []);
    QuietStepRun(inEscape, data, Opened(mode));
  }

  /** Anything but a bell only moves the cursor on; no character contains one. */
  lemma {:induction false} PayloadRun(p: ParserState, data: seq<Byte>, end: nat)
    requires (p.mode == Osc || p.mode == Apc) && p.cursor <= end < |data| && data[end] == 7
    requires forall i :: p.cursor <= i < end ==> data[i] != 7
    ensures Run(p, data) == Run(p.(cursor := end), data)
    decreases end - p.cursor
  {
    if p.cursor < end {
      var d := CharactersAreRead(data, p.cursor);
      var next := p.(cursor := p.cursor + d.width);
      assert Step(p, data) == Effect(next, []);
      QuietStepRun(p, data, next);
      PayloadRun(next, data, end);
    }
  }

  /** Text that ends in ASCII does not cut a character short. */
  lemma AsciiEndIsBoundary(data: seq<Byte>)
    requires data != [] && data[|data| - 1] < 0x80
    ensures EndsOnRuneBoundary(data)
  {
    forall i | 0 <= i < |data| ensures FullRune(data[i..]) {
      assert data[i..][|data| - 1 - i] == data[|data| - 1];
    }
  }

  lemma PayloadSends(open: Byte, mode: Mode, payload: seq<Byte>)
    requires IsPayload(payload)
    requires (open == ']' as int && mode == Osc) || (open == '_' as int && mode == Apc)
    ensures Sends([ESCAPE, open] + payload + [7], [if mode == Osc then OscElement(payload) else ApcElement(payload)])
  {
    var data, end := [ESCAPE, open] + payload + [7], |payload| + 2;
    AsciiEndIsBoundary(data);
    Opens(data, mode);
    PayloadRun(Opened(mode), data, end);
    assert data[2..end] == payload && data[end] == 7;
    OneStepRun(Opened(mode).(cursor := end), data);
  }

  lemma CharacterSetSends(open: Byte, rune: Rune)
    requires (open == '(' as int || open == ')' as int) && IsScalar(rune)
    ensures Sends([ESCAPE, open] + EncodeRune(rune), [])
  {
    var data := [ESCAPE, open] + EncodeRune(rune);
    EncodingRoundTrip(rune, []);
    AsciiEndsOnRuneBoundary([ESCAPE, open]);
    BoundaryAppend([ESCAPE, open], EncodeRune(rune));
    assert EncodeRune(rune) + [] == EncodeRune(rune) && data[2..] == EncodeRune(rune);
    Opens(data, Charset);
    OneStepRun(Opened(Charset), data);
  }

  // ----- control sequences -----

  /** The sequence from its i-th byte on consists of these instructions and the final letter. */
  predicate IsRest(data: seq<Byte>, i: nat, instructions: seq<seq<Byte>>, final: Byte) {
    && instructions != [] && (forall k :: 0 <= k < |instructions| ==> IsParameter(instructions[k]))
    && IsFinal(final)
    && i <= |data| && data[i..] == WithSemicolons(instructions) + [final]
  }

  lemma FirstInstruction(data: seq<Byte>, i: nat, instructions: seq<seq<Byte>>, final: Byte)
    requires IsRest(data, i, instructions, final)
    ensures var end := i + |instructions[0]|;
      && end < |data| && data[i..end] == instructions[0]
      && (forall k :: i <= k < end ==> IsParameterByte(data[k]))
      && (if |instructions| == 1 then end == |data| - 1 && data[end] == final
          else data[end] == SEMICOLON && IsRest(data, end + 1, instructions[1..], final))
  {
    var first, end := instructions[0], i + |instructions[0]|;
    assert data[i..][..|first|] == first;
    assert forall k :: i <= k < end ==> data[k] == data[i..][k - i];
    if |instructions| > 1 {
      var rest := WithSemicolons(instructions[1..]);
      assert data[i..] == first + [SEMICOLON] + (rest + [final]);
      assert data[i..][|first|..] == [SEMICOLON] + (rest + [final]);
      assert data[end..] == [SEMICOLON] + (rest + [final]);
      assert data[end + 1..] == data[end..][1..];
    }
  }

  lemma InstructionIsAdded(p: ParserState, data: seq<Byte>, end: nat)
    requires p.instructionStartedAt == p.cursor <= end <= |data|
    ensures AddInstruction(p.(cursor := end), data) == p.instructions + NonEmpty([data[p.cursor..end]])
  {
    var i: seq<seq<Byte>> := [data[p.cursor..end]];
    assert i[1..] == [] && i + NonEmpty([]) == i;
    assert p.instructions + [] == p.instructions;
  }

  lemma LettersAre()
    ensures LETTERS == ['Q' as int, 'K' as int, 'G' as int, 'A' as int, 'B' as int, 'C' as int, 'D' as int, 'M' as int]
  {
  }

  lemma FinalLetterIsHandled(p: ParserState, data: seq<Byte>, final: Byte)
    requires IsFinal(final)
    ensures HandleControl(p, data, final)
      == if IsSent(final) then
           var instructions := AddInstruction(p, data);
           Effect(p.(instructions := instructions, mode := Normal), [Sequence(Capital(final), instructions)])
         else Effect(p.(mode := Normal), [])
  {
    LettersAre();
  }

  lemma FinalLetterEnds(p: ParserState, data: seq<Byte>)
    requires p.mode == Control && p.cursor == |data| - 1 && IsFinal(data[p.cursor])
    ensures Run(p, data).state.mode == Normal
    ensures Run(p, data).ops
      == if IsSent(data[p.cursor]) then [Sequence(Capital(data[p.cursor]), AddInstruction(p, data))] else []
  {
    LettersAre();
    var d := CharactersAreRead(data, p.cursor);
    FinalLetterIsHandled(p, data, data[p.cursor]);
    OneStepRun(p, data);
  }

  /** Behind a semicolon, the next instruction begins. */
  lemma SemicolonRun(p: ParserState, data: seq<Byte>)
    requires p.mode == Control && p.cursor < |data| && data[p.cursor] == SEMICOLON
    ensures Run(p, data) == Run(
      p.(cursor := p.cursor + 1, instructionStartedAt := p.cursor + 1, instructions := AddInstruction(p, data)), data)
  {
    var d := CharactersAreRead(data, p.cursor);
    assert d == Decoded(SEMICOLON, 1);
    QuietStepRun(p, data,
      p.(cursor := p.cursor + 1, instructionStartedAt := p.cursor + 1, instructions := AddInstruction(p, data)));
  }

  lemma NonEmptyOfLonger(first: seq<Byte>, rest: seq<seq<Byte>>)
    ensures NonEmpty([first] + rest) == NonEmpty([first]) + NonEmpty(rest)
  {
    var one: seq<seq<Byte>> := [first];
    assert (one + rest)[1..] == rest && one[1..] == [];
    assert NonEmpty(one) == (if first == [] then [] else one) + NonEmpty([]);
  }

  lemma UpToSemicolon(p: ParserState, data: seq<Byte>, end: nat)
    requires p.mode == Control && p.instructionStartedAt == p.cursor <= end < |data| && data[end] == SEMICOLON
    requires forall k :: p.cursor <= k < end ==> IsParameterByte(data[k])
    ensures Run(p, data) == Run(AfterSemicolon(p, data[p.cursor..end], end), data)
  {
    QuietBytes(p, data, end);
    InstructionIsAdded(p, data, end);
    SemicolonRun(p.(cursor := end), data);
  }

  /** The state behind the semicolon that ends this instruction. */
  function AfterSemicolon(p: ParserState, instruction: seq<Byte>, end: nat): ParserState {
    p.(cursor := end + 1, instructionStartedAt := end + 1, instructions := p.instructions + NonEmpty([instruction]))
  }

  /** One instruction and the semicolon behind it. */
  lemma InstructionRuns(p: ParserState, data: seq<Byte>, instructions: seq<seq<Byte>>, final: Byte)
    returns (q: ParserState)
    requires p.mode == Control && p.instructionStartedAt == p.cursor && |instructions| > 1
    requires IsRest(data, p.cursor, instructions, final)
    ensures q == AfterSemicolon(p, instructions[0], p.cursor + |instructions[0]|)
    ensures IsRest(data, q.cursor, instructions[1..], final) && Run(p, data) == Run(q, data)
  {
    var end := p.cursor + |instructions[0]|;
    q := AfterSemicolon(p, instructions[0], end);
    FirstInstruction(data, p.cursor, instructions, final);
    UpToSemicolon(p, data, end);
  }

  /** The last instruction and the final letter. */
  lemma LastInstructionEnds(p: ParserState, data: seq<Byte>, instruction: seq<Byte>, final: Byte)
    requires p.mode == Control && p.instructionStartedAt == p.cursor
    requires IsRest(data, p.cursor, [instruction], final)
    ensures Run(p, data).state.mode == Normal
    ensures Run(p, data).ops
      == if IsSent(final) then [Sequence(Capital(final), p.instructions + NonEmpty([instruction]))] else []
  {
    var end := p.cursor + |instruction|;
    FirstInstruction(data, p.cursor, [instruction], final);
    QuietBytes(p, data, end);
    InstructionIsAdded(p, data, end);
    FinalLetterEnds(p.(cursor := end), data);
  }

  lemma {:induction false} InstructionsRun(p: ParserState, data: seq<Byte>, instructions: seq<seq<Byte>>, final: Byte)
    requires p.mode == Control && p.instructionStartedAt == p.cursor
    requires IsRest(data, p.cursor, instructions, final)
    ensures Run(p, data).state.mode == Normal
    ensures Run(p, data).ops
      == if IsSent(final) then [Sequence(Capital(final), p.instructions + NonEmpty(instructions))] else []
    decreases |instructions|
  {
    var first, rest := instructions[0], instructions[1..];
    assert instructions == [first] + rest;
    if rest == [] {
      assert instructions == [first];
      LastInstructionEnds(p, data, first, final);
    } else {
      var q := InstructionRuns(p, data, instructions, final);
      InstructionsRun(q, data, rest, final);
      NonEmptyOfLonger(first, rest);
      Reassociate(p.instructions, NonEmpty([first]), NonEmpty(rest));
    }
  }

  lemma SequenceIsRest(instructions: seq<seq<Byte>>, final: Byte)
    requires IsToken(ControlSequence(instructions, final))
    ensures var data := Written(ControlSequence(instructions, final));
      data[0] == ESCAPE && data[1] == '[' as int && data[|data| - 1] == final && IsRest(data, 2, instructions, final)
  {
    var data := Written(ControlSequence(instructions, final));
    assert data[2..] == WithSemicolons(instructions) + [final];
  }

  lemma ControlSends(instructions: seq<seq<Byte>>, final: Byte)
    requires IsToken(ControlSequence(instructions, final))
    ensures Sends(Written(ControlSequence(instructions, final)), Meant(ControlSequence(instructions, final)))
  {
    var data := Written(ControlSequence(instructions, final));
    AsciiEndIsBoundary(data);
    Opens(data, Control);
    SequenceIsRest(instructions, final);
    InstructionsRun(Opened(Control), data, instructions, final);
    assert Opened(Control).instructions + NonEmpty(instructions) == NonEmpty(instructions);
  }

  lemma TokenSends(t: Token)
    requires IsToken(t)
    ensures Sends(Written(t), Meant(t))
  {
    match t {
      case Text(rune) => RuneSends(rune);
      case Newline => ControlCharacterSends(NEWLINE, NewLine);
      case Return => ControlCharacterSends(13, CarriageReturn);
      case Back => ControlCharacterSends(8, Backspace);
      case ControlSequence(instructions, final) => ControlSends(instructions, final);
      case CharacterSet(open, rune) => CharacterSetSends(open, rune);
      case OperatingSystem(payload) => PayloadSends(']' as int, Osc, payload);
      case ApplicationProgram(payload) => PayloadSends('_' as int, Apc, payload);
    }
  }

  // ----- any input of such pieces -----

  /** Any such input is understood: the parser asks the screen for what is meant, piece by piece, and
      leaves nothing open. */
  lemma {:induction false} InputIsUnderstood(tokens: seq<Token>)
    requires AreTokens(tokens)
    ensures Sends(AllWritten(tokens), AllMeant(tokens))
  {
    if tokens == [] {
      NothingSends();
    } else {
      TokenSends(tokens[0]);
      InputIsUnderstood(tokens[1..]);
      SendsTogether(Written(tokens[0]), Meant(tokens[0]), AllWritten(tokens[1..]), AllMeant(tokens[1..]));
    }
  }

  predicate HasNoPayloads(tokens: seq<Token>) {
    forall i :: 0 <= i < |tokens| ==> !tokens[i].OperatingSystem? && !tokens[i].ApplicationProgram?
  }

  lemma {:induction false} MeantIsWellFormed(tokens: seq<Token>)
    requires AreTokens(tokens)
    ensures HasNoPayloads(tokens) ==> HasNoElements(AllMeant(tokens))
  {
    if tokens != [] {
      MeantIsWellFormed(tokens[1..]);
      assert HasNoPayloads(tokens) ==> HasNoPayloads(tokens[1..]) && HasNoElements(Meant(tokens[0]));
    }
  }

  /** So what a terminal shows of text, line ends, backspaces, cursor movements, erasures and colours is
      in every cell what the last of them that concerns it left there, and blank where none did. */
  lemma TerminalShowsInput(codec: ElementCodec, tokens: seq<Token>)
    requires AreTokens(tokens) && HasNoPayloads(tokens)
    ensures IsWhatTheySay(Parse(codec, START, NewScreen(0), AllWritten(tokens)), AllMeant(tokens))
  {
    InputIsUnderstood(tokens);
    MeantIsWellFormed(tokens);
    RunKeepsValid(START, AllWritten(tokens));
    RunShows(codec, AllMeant(tokens));
  }

  // ----- false alarms -----

  /** Characters that may follow an escape character. */
  predicate IsOpening(rune: Rune) {
    rune == '[' as int || rune == ']' as int || rune == '(' as int || rune == ')' as int || rune == '_' as int
  }

  /** Characters that may occur in a control sequence. */
  predicate IsExpected(rune: Rune) {
    rune < 0x80 && (IsParameterByte(rune) || rune == SEMICOLON || IsFinal(rune))
  }

  /** The text begins with an escape, and reading it breaks off at the character at position k. */
  predicate BreaksOff(data: seq<Byte>, k: nat) {
    && 1 <= k < |data| && data[0] == ESCAPE
    && (if k == 1 then !IsOpening(DecodeRune(data[k..]).rune)
        else
          && data[1] == '[' as int
          && (forall i :: 2 <= i < k ==> IsParameterByte(data[i]) || data[i] == SEMICOLON)
          && !IsExpected(DecodeRune(data[k..]).rune))
  }

  lemma {:induction false} ParametersRun(p: ParserState, data: seq<Byte>, k: nat) returns (q: ParserState)
    requires p.mode == Control && p.cursor <= k < |data|
    requires forall i :: p.cursor <= i < k ==> IsParameterByte(data[i]) || data[i] == SEMICOLON
    ensures q.mode == Control && q.cursor == k && q.escapeStartedAt == p.escapeStartedAt
    ensures Run(p, data) == Run(q, data)
    decreases k - p.cursor
  {
    q := p;
    if p.cursor < k {
      if data[p.cursor] == SEMICOLON {
        SemicolonRun(p, data);
        q := p.(
          cursor := p.cursor + 1, instructionStartedAt := p.cursor + 1, instructions := AddInstruction(p, data));
      } else {
        QuietBytes(p, data, p.cursor + 1);
        q := p.(cursor := p.cursor + 1);
      }
      q := ParametersRun(q, data, k);
    }
  }

  lemma AlarmStep(q: ParserState, data: seq<Byte>)
    requires q.cursor < |data| && q.escapeStartedAt == 0
    requires var rune := DecodeRune(data[q.cursor..]).rune;
      (q.mode == Escape && !IsOpening(rune)) || (q.mode == Control && !IsExpected(rune))
    ensures Step(q, data) == Effect(q.(mode := Normal, cursor := DecodeRune(data[q.cursor..]).width), [])
  {
    LettersAre();
  }

  /** The state in which reading breaks off. */
  lemma RunToAlarm(data: seq<Byte>, k: nat) returns (q: ParserState)
    requires BreaksOff(data, k)
    ensures q.cursor == k && q.escapeStartedAt == 0 && q.mode == (if k == 1 then Escape else Control)
    ensures Run(START, data) == Run(q, data)
  {
    if k == 1 {
      q := START.(mode := Escape, cursor := 1);
      assert Step(START, data) == Effect(q, []);
      QuietStepRun(START, data, q);
    } else {
      Opens(data, Control);
      q := ParametersRun(Opened(Control), data, k);
    }
  }

  /** Where an escape sequence is not what it should be, the parser starts over behind the escape
      character; it skips as many bytes as the character has at which it noticed. */
  lemma FalseAlarmStartsOver(data: seq<Byte>, k: nat)
    requires BreaksOff(data, k)
    ensures var width := DecodeRune(data[k..]).width;
      ParseChunk(START, data).ops == ParseChunk(START, data[width..]).ops
  {
    var w := DecodeRune(data[k..]).width;
    var q := RunToAlarm(data, k);
    AlarmStep(q, data);
    var next := q.(mode := Normal, cursor := w);
    QuietStepRun(q, data, next);
    RunAgrees(START, next, data[..w], data[w..]);
    assert data[..w] + data[w..] == data;
  }
}
