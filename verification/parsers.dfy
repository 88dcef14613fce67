/** The parser as an object that drives a screen (server/terminal/parser.go). */
module Parsers {
  import opened Bytes
  import opened Cells
  import opened ParserBounds
  import opened ParserSpec
  import opened ScreenSpec
  import opened Screens
  import opened Strconv
  import opened Utf8

  /** The state p is reached from start by the rounds visited, which asked for the operations ops. */
  ghost predicate IsOnTheWay(
      start: ParserState, data: seq<Byte>, p: ParserState, ops: seq<Op>, visited: seq<ParserState>)
  {
    && Run(start, data) == Effect(Run(p, data).state, ops + Run(p, data).ops)
    && Visits(start, data) == visited + Visits(p, data)
  }

  lemma TakeStep(start: ParserState, data: seq<Byte>, p: ParserState, ops: seq<Op>, visited: seq<ParserState>)
    requires IsOnTheWay(start, data, p, ops, visited) && p.cursor < |data|
    ensures IsOnTheWay(start, data, Step(p, data).state, ops + Step(p, data).ops, visited + [p])
    ensures Potential(Step(p, data).state, data) < Potential(p, data)
  {
    StepDecreasesPotential(p, data);
    var e := Step(p, data);
    Reassociate(ops, e.ops, Run(e.state, data).ops);
    Reassociate(visited, [p], Visits(e.state, data));
  }

  class Parser {
    const screen: Screen
    const codec: ElementCodec
    var ansi: seq<Byte>
    var instructions: seq<seq<Byte>>
    var mode: Mode
    var cursor: nat
    var escapeStartedAt: nat
    var instructionStartedAt: nat

    ghost function State(): ParserState
      reads this
    {
      ParserState(mode, cursor, escapeStartedAt, instructionStartedAt, instructions)
    }

    constructor (screen: Screen, codec: ElementCodec)
      ensures State() == START && this.screen == screen && this.codec == codec
    {
      this.screen, this.codec := screen, codec;
      ansi, instructions, mode := [], [], Normal;
      cursor, escapeStartedAt, instructionStartedAt := 0, 0, 0;
    }

    /** The parser and its screen are where the given effect takes them. */
    twostate predicate Did(effect: Effect)
      reads this, screen
    {
      && State() == effect.state
      && old(ScreenSpec.Valid(screen.State()))
      && AreOps(effect.ops)
      && screen.State() == ApplyAll(codec, old(screen.State()), effect.ops)
    }

    /** Parses a chunk to its end, whatever the chunks before have left open. */
    method ParseChunk(data: seq<Byte>) returns (ghost visited: seq<ParserState>)
      requires IsInstructions(instructions) && ScreenSpec.Valid(screen.State())
      modifies this, screen
      ensures Did(ParserSpec.ParseChunk(old(State()), data))
      ensures visited == Visits(old(State()).(cursor := 0), data)
      ensures IsInstructions(instructions)
    {
      ghost var start, screen0 := State().(cursor := 0), screen.State();
      ghost var ops: seq<Op> := [];
      visited := [];
      ansi := data;
      cursor := 0;
      while cursor < |data|
        invariant ansi == data
        invariant ParserSpec.Valid(State(), data) && ScreenSpec.Valid(screen.State())
        invariant AreOps(ops) && screen.State() == ApplyAll(codec, screen0, ops)
        invariant IsOnTheWay(start, data, State(), ops, visited)
        decreases Potential(State(), data)
      {
        ghost var p := State();
        TakeStep(start, data, p, ops, visited);
        StepKeepsValid(p, data);
        ApplyAllAppend(codec, screen0, ops, Step(p, data).ops);
        ops, visited := ops + Step(p, data).ops, visited + [p];
        Round();
      }
      assert ops == ParserSpec.ParseChunk(old(State()), data).ops;
    }

    /** One round of the loop: read a character, handle it, move past it. */
    method Round()
      requires cursor < |ansi| && ScreenSpec.Valid(screen.State())
      requires AreOps(Step(State(), ansi).ops)
      modifies this, screen
      ensures Did(Step(old(State()), old(ansi))) && ansi == old(ansi)
    {
      var decoded := DecodeRune(ansi[cursor..]);
      HandleRune(decoded.rune);
      cursor := cursor + decoded.width;
    }

    /** The switch over the modes. */
    method HandleRune(rune: Rune)
      requires ScreenSpec.Valid(screen.State()) && AreOps(Handle(State(), ansi, rune).ops)
      modifies this, screen
      ensures Did(Handle(old(State()), old(ansi), rune)) && ansi == old(ansi)
    {
      match mode {
        case Escape => HandleEscape(rune);
        case Control => HandleControlSequence(rune);
        case Osc => HandleOperatingSystemCommand(rune);
        case Charset => HandleCharset(rune);
        case Apc => HandleApplicationProgramCommand(rune);
        case Normal => HandleNormal(rune);
      }
    }

    method HandleCharset(rune: Rune)
      requires mode == Charset && ScreenSpec.Valid(screen.State())
      modifies this`mode
      ensures Did(Handle(old(State()), ansi, rune))
    {
      mode := Normal;
    }

    method HandleNormal(rune: Rune)
      requires mode == Normal && ScreenSpec.Valid(screen.State())
      modifies this`mode, this`escapeStartedAt, screen
      ensures Did(Handle(old(State()), ansi, rune))
    {
      if rune == NEWLINE {
        screen.StartNewLine();
      } else if rune == 13 {
        screen.CarriageReturn();
      } else if rune == 8 {
        screen.Backspace();
      } else if rune == ESCAPE {
        escapeStartedAt := cursor;
        mode := Escape;
      } else {
        screen.Append(rune);
      }
    }

    method HandleEscape(rune: Rune)
      requires mode == Escape && ScreenSpec.Valid(screen.State())
      modifies this
      ensures Did(Handle(old(State()), old(ansi), rune)) && ansi == old(ansi)
    {
      if rune == '[' as int {
        instructionStartedAt := cursor + 1;
        instructions := [];
        mode := Control;
      } else if rune == ']' as int {
        instructionStartedAt := cursor + 1;
        mode := Osc;
      } else if rune == ')' as int || rune == '(' as int {
        instructionStartedAt := cursor + 1;
        mode := Charset;
      } else if rune == '_' as int {
        instructionStartedAt := cursor + 1;
        mode := Apc;
      } else {
        cursor := escapeStartedAt;
        mode := Normal;
      }
    }

    method HandleControlSequence(read: Rune)
      requires mode == Control && ScreenSpec.Valid(screen.State())
      requires AreOps(Handle(State(), ansi, read).ops)
      modifies this, screen
      ensures Did(Handle(old(State()), old(ansi), read)) && ansi == old(ansi)
    {
      var rune := ToUpper(read);
      if rune < 256 && IsParameterByte(rune) {
        // part of an instruction
      } else if rune == ';' as int {
        AddInstruction();
        instructionStartedAt := cursor + 1;
      } else if IsSequenceEnd(rune) {
        AddInstruction();
        assert IsOp(Handle(old(State()), old(ansi), read).ops[0]);
        screen.ApplyEscape(rune, instructions);
        mode := Normal;
      } else if rune == 'H' as int || rune == 'L' as int {
        mode := Normal;
      } else {
        cursor := escapeStartedAt;
        mode := Normal;
      }
    }

    method AddInstruction()
      modifies this`instructions
      ensures instructions == ParserSpec.AddInstruction(old(State()), ansi)
    {
      if !WithinBounds(ansi, instructionStartedAt, cursor) {
        return;
      }
      var instruction := ansi[instructionStartedAt..cursor];
      if instruction != [] {
        instructions := instructions + [instruction];
      }
    }

    method HandleOperatingSystemCommand(rune: Rune)
      requires mode == Osc && ScreenSpec.Valid(screen.State())
      modifies this`mode, screen
      ensures Did(Handle(old(State()), ansi, rune))
    {
      if rune != BELL {
        return;
      }
      mode := Normal;
      if !WithinBounds(ansi, instructionStartedAt, cursor) {
        return;
      }
      var image := codec.osc(ansi[instructionStartedAt..cursor]);
      if image.NoElement? {
        return;
      }
      var ownLine := image.Failed? || image.element.elementType != Link;
      if ownLine {
        if screen.x != 0 {
          screen.StartNewLine();
        }
        screen.Clear(screen.y, START_OF_LINE, END_OF_LINE);
      }
      if image.Failed? {
        screen.AppendMany(OSC_ERROR);
        screen.AppendMany(image.message);
      } else {
        screen.AppendElement(image.element);
      }
      if ownLine {
        screen.StartNewLine();
      }
    }

    method HandleApplicationProgramCommand(rune: Rune)
      requires mode == Apc && ScreenSpec.Valid(screen.State())
      modifies this`mode, screen
      ensures Did(Handle(old(State()), ansi, rune))
    {
      if rune != BELL {
        return;
      }
      mode := Normal;
      if !WithinBounds(ansi, instructionStartedAt, cursor) {
        return;
      }
      var el := codec.apc(ansi[instructionStartedAt..cursor]);
      if el.NoElement? {
        return;
      }
      if el.Failed? {
        screen.AppendMany(APC_ERROR);
        screen.AppendMany(el.message);
      } else {
        screen.AppendElement(el.element);
      }
    }
  }
}
