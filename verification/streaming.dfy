/** Splitting the input: when parsing two chunks is the same as parsing them as one. */
module Streaming {
  import opened Bytes
  import opened ParserBounds
  import opened ParserSpec
  import opened ScreenSpec
  import opened Strconv
  import opened Utf8

  /** The state q is at the same point as p, with k more bytes before it in its chunk. Offsets
      count only in the modes that still use them. */
  predicate Agree(p: ParserState, q: ParserState, k: nat) {
    && p.mode == q.mode
    && q.cursor == p.cursor + k
    && (p.mode == Escape || p.mode == Control ==> q.escapeStartedAt == p.escapeStartedAt + k)
    && (p.mode == Control || p.mode == Osc || p.mode == Apc ==> q.instructionStartedAt == p.instructionStartedAt + k)
    && (p.mode == Control ==> q.instructions == p.instructions)
  }

  lemma StepAgrees(p: ParserState, q: ParserState, a: seq<Byte>, b: seq<Byte>)
    requires Agree(p, q, |a|) && p.cursor < |b|
    ensures Step(q, a + b).ops == Step(p, b).ops
    ensures Agree(Step(p, b).state, Step(q, a + b).state, |a|)
  {
    assert (a + b)[q.cursor..] == b[p.cursor..];
    StepOverAgrees(p, q, a, b, DecodeRune(b[p.cursor..]));
  }

  lemma StepOverAgrees(p: ParserState, q: ParserState, a: seq<Byte>, b: seq<Byte>, d: Decoded)
    requires Agree(p, q, |a|) && p.cursor < |b|
    ensures StepOver(q, a + b, d).ops == StepOver(p, b, d).ops
    ensures Agree(StepOver(p, b, d).state, StepOver(q, a + b, d).state, |a|)
  {
    if p.mode == Control {
      ControlAgrees(p, q, a, b, d.rune);
    } else if p.mode == Osc || p.mode == Apc {
      PayloadAgrees(p, q, a, b, d.rune);
    }
  }

  lemma ControlAgrees(p: ParserState, q: ParserState, a: seq<Byte>, b: seq<Byte>, rune: Rune)
    requires Agree(p, q, |a|) && p.cursor < |b| && p.mode == Control
    ensures HandleControl(q, a + b, rune).ops == HandleControl(p, b, rune).ops
    ensures Agree(HandleControl(p, b, rune).state, HandleControl(q, a + b, rune).state, |a|)
  {
    assert AddInstruction(q, a + b) == AddInstruction(p, b) by {
      if p.instructionStartedAt <= p.cursor {
        assert (a + b)[q.instructionStartedAt..q.cursor] == b[p.instructionStartedAt..p.cursor];
      }
    }
  }

  lemma PayloadAgrees(p: ParserState, q: ParserState, a: seq<Byte>, b: seq<Byte>, rune: Rune)
    requires Agree(p, q, |a|) && p.cursor < |b| && (p.mode == Osc || p.mode == Apc)
    ensures HandlePayload(q, a + b, rune).ops == HandlePayload(p, b, rune).ops
    ensures Agree(HandlePayload(p, b, rune).state, HandlePayload(q, a + b, rune).state, |a|)
  {
    if p.instructionStartedAt <= p.cursor {
      assert (a + b)[q.instructionStartedAt..q.cursor] == b[p.instructionStartedAt..p.cursor];
    }
  }

  lemma {:induction false} RunAgrees(p: ParserState, q: ParserState, a: seq<Byte>, b: seq<Byte>)
    requires Agree(p, q, |a|)
    ensures Run(q, a + b).ops == Run(p, b).ops
    ensures Agree(Run(p, b).state, Run(q, a + b).state, |a|)
    decreases Potential(p, b)
  {
    if p.cursor < |b| {
      StepDecreasesPotential(p, b);
      StepAgrees(p, q, a, b);
      RunAgrees(Step(p, b).state, Step(q, a + b).state, a, b);
    }
  }

  // ----- reading a chunk that goes on -----

  /** The character at j reads the same with b behind the chunk, and ends at i or before. */
  predicate EndsBefore(a: seq<Byte>, b: seq<Byte>, i: nat, j: nat)
    requires j < |a|
  {
    var d := DecodeRune(a[j..]);
    DecodeRune((a + b)[j..]) == d && j + d.width <= i
  }

  /** All characters that begin before i do. */
  ghost predicate Separates(a: seq<Byte>, b: seq<Byte>, i: nat) {
    i <= |a| && forall j :: 0 <= j < i ==> EndsBefore(a, b, i, j)
  }

  lemma BoundarySeparates(a: seq<Byte>, b: seq<Byte>)
    requires EndsOnRuneBoundary(a)
    ensures Separates(a, b, |a|)
  {
    forall j | 0 <= j < |a| ensures EndsBefore(a, b, |a|, j) {
      assert (a + b)[j..] == a[j..] + b;
      FullRuneDecodesAlike(a[j..], b);
    }
  }

  /** Offsets that refer to the current chunk and to an escape character seen in it; what has been
      scanned behind that is ASCII. */
  ghost predicate HasOwnOffsets(p: ParserState, data: seq<Byte>) {
    && IsOwn(p, data)
    && (p.mode == Escape ==> p.cursor == p.escapeStartedAt + 1)
    && (p.mode == Control || p.mode == Osc || p.mode == Apc ==> 2 <= p.instructionStartedAt <= p.cursor)
    && (p.mode == Control ==> forall j :: p.escapeStartedAt < j < p.cursor ==> data[j] < 0x80)
  }

  lemma StepKeepsOwnOffsets(p: ParserState, data: seq<Byte>)
    requires HasOwnOffsets(p, data) && p.cursor < |data|
    ensures HasOwnOffsets(Step(p, data).state, data)
  {
    StepRaisesFloors(p, data);
    var d := CharactersAreRead(data, p.cursor);
    StepOverKeepsOffsets(p, data, d);
  }

  lemma StepOverKeepsOffsets(p: ParserState, data: seq<Byte>, d: Decoded)
    requires HasOwnOffsets(p, data) && IsRead(data, p.cursor, d) && IsOwn(StepOver(p, data, d).state, data)
    ensures HasOwnOffsets(StepOver(p, data, d).state, data)
  {
    assert StepOver(p, data, d).state.mode == Control && p.mode == Control ==> data[p.cursor] < 0x80;
  }

  lemma StepIgnoresMore(p: ParserState, a: seq<Byte>, b: seq<Byte>, i: nat)
    requires p.cursor < |a| && EndsBefore(a, b, i, p.cursor)
    ensures Step(p, a + b) == Step(p, a)
  {
    if p.instructionStartedAt <= p.cursor {
      assert (a + b)[p.instructionStartedAt..p.cursor] == a[p.instructionStartedAt..p.cursor];
    }
  }

  /** A round that begins before i ends there at the latest. */
  lemma StepStaysBefore(p: ParserState, a: seq<Byte>, b: seq<Byte>, i: nat)
    requires IsOwn(p, a) && p.cursor < i <= |a| && EndsBefore(a, b, i, p.cursor)
    ensures Step(p, a).state.cursor <= i
  {
  }

  lemma RunFirst(p: ParserState, data: seq<Byte>)
    requires p.cursor < |data|
    ensures var e := Step(p, data); var rest := Run(e.state, data);
      Run(p, data) == Effect(rest.state, e.ops + rest.ops)
  {
    StepDecreasesPotential(p, data);
  }

  /** The first round, before rounds that send these operations and lead to q. */
  lemma RunFirstThen(p: ParserState, data: seq<Byte>, q: ParserState, ops: seq<Op>)
    requires p.cursor < |data| && Run(Step(p, data).state, data) == Effect(Run(q, data).state, ops + Run(q, data).ops)
    ensures Run(p, data) == Effect(Run(q, data).state, Step(p, data).ops + ops + Run(q, data).ops)
  {
    RunFirst(p, data);
    Reassociate(Step(p, data).ops, ops, Run(q, data).ops);
  }

  /** The loop comes to position i in the same state whether or not b follows the chunk. */
  lemma {:induction false} RunComesTo(p: ParserState, a: seq<Byte>, b: seq<Byte>, i: nat)
    returns (q: ParserState, ops: seq<Op>)
    requires HasOwnOffsets(p, a) && p.cursor <= i && Separates(a, b, i)
    ensures HasOwnOffsets(q, a) && q.cursor == i
    ensures Run(p, a) == Effect(Run(q, a).state, ops + Run(q, a).ops)
    ensures Run(p, a + b) == Effect(Run(q, a + b).state, ops + Run(q, a + b).ops)
    decreases Potential(p, a)
  {
    q, ops := p, [];
    if p.cursor < i {
      assert EndsBefore(a, b, i, p.cursor);
      StepDecreasesPotential(p, a);
      StepKeepsOwnOffsets(p, a);
      StepIgnoresMore(p, a, b, i);
      StepStaysBefore(p, a, b, i);
      var e := Step(p, a);
      q, ops := RunComesTo(e.state, a, b, i);
      RunFirstThen(p, a, q, ops);
      RunFirstThen(p, a + b, q, ops);
      ops := e.ops + ops;
    }
  }

  /** What follows a chunk does not change how the chunk itself is read. */
  lemma RunStartsWithPrefix(p: ParserState, a: seq<Byte>, b: seq<Byte>)
    requires p.mode == Normal && p.cursor == 0 && Separates(a, b, |a|)
    ensures var first := Run(p, a); var rest := Run(first.state, a + b);
      && HasOwnOffsets(first.state, a) && first.state.cursor == |a|
      && Run(p, a + b) == Effect(rest.state, first.ops + rest.ops)
  {
    var q, ops := RunComesTo(p, a, b, |a|);
    assert ops + [] == ops;
  }

  /** The modes in which the parser remembers no offsets into the chunk. */
  predicate ForgetsOffsets(m: Mode) {
    m == Normal || m == Charset
  }

  /** Streaming equals batch, when the first chunk ends between characters and outside an escape:
      the same operations reach the screen, and the parser ends at the same point. */
  lemma StreamingEqualsBatch(p: ParserState, a: seq<Byte>, b: seq<Byte>)
    requires p.mode == Normal && EndsOnRuneBoundary(a)
    requires ForgetsOffsets(ParseChunk(p, a).state.mode)
    ensures var first := ParseChunk(p, a);
      && ParseChunk(p, a + b).ops == first.ops + ParseChunk(first.state, b).ops
      && Agree(ParseChunk(first.state, b).state, ParseChunk(p, a + b).state, |a|)
  {
    var start := p.(cursor := 0);
    var middle := Run(start, a).state;
    BoundarySeparates(a, b);
    RunStartsWithPrefix(start, a, b);
    RunAgrees(middle.(cursor := 0), middle, a, b);
  }

  /** Hence the same screen. */
  lemma StreamingShowsTheSameScreen(codec: ElementCodec, s: ScreenState, p: ParserState, a: seq<Byte>, b: seq<Byte>)
    requires ScreenSpec.Valid(s) && ParserSpec.Valid(p.(cursor := 0), a)
    requires p.mode == Normal && EndsOnRuneBoundary(a)
    requires ForgetsOffsets(ParseChunk(p, a).state.mode)
    ensures var first := ParseChunk(p, a); var second := ParseChunk(first.state, b); var whole := ParseChunk(p, a + b);
      && AreOps(first.ops) && AreOps(second.ops) && AreOps(whole.ops)
      && ApplyAll(codec, s, whole.ops) == ApplyAll(codec, ApplyAll(codec, s, first.ops), second.ops)
  {
    var first := ParseChunk(p, a);
    RunKeepsValid(p.(cursor := 0), a);
    RunKeepsValid(first.state.(cursor := 0), b);
    RunKeepsValid(p.(cursor := 0), a + b);
    StreamingEqualsBatch(p, a, b);
    ApplyAllAppend(codec, s, first.ops, ParseChunk(first.state, b).ops);
  }

  // ----- rounds without work for the screen -----

  /** Parameter bytes in a control sequence, and anything but a bell in a payload, only move the cursor. */
  lemma {:induction false} QuietBytes(p: ParserState, data: seq<Byte>, end: nat)
    requires p.cursor <= end <= |data|
    requires forall i :: p.cursor <= i < end ==> IsParameterByte(data[i])
    requires p.mode == Control || p.mode == Osc || p.mode == Apc
    ensures Run(p, data) == Run(p.(cursor := end), data)
    decreases end - p.cursor
  {
    if p.cursor < end {
      var d := CharactersAreRead(data, p.cursor);
      var next := p.(cursor := p.cursor + 1);
      assert IsParameterByte(data[p.cursor]) && d == Decoded(data[p.cursor], 1);
      assert StepOver(p, data, d) == Effect(next, []);
      QuietStepRun(p, data, next);
      QuietBytes(next, data, end);
    }
  }

  /** A round without any work for the screen. */
  lemma QuietStepRun(p: ParserState, data: seq<Byte>, next: ParserState)
    requires p.cursor < |data| && Step(p, data) == Effect(next, [])
    ensures Run(p, data) == Run(next, data)
  {
    StepDecreasesPotential(p, data);
    var rest := Run(next, data);
    assert [] + rest.ops == rest.ops;
  }

  lemma OneStepRun(p: ParserState, data: seq<Byte>)
    requires p.cursor < |data| && Step(p, data).state.cursor >= |data|
    ensures Run(p, data) == Step(p, data)
  {
    StepDecreasesPotential(p, data);
    assert Step(p, data).ops + [] == Step(p, data).ops;
  }

  // ----- composing complete pieces -----

  /** Text that sends these operations and leaves no escape sequence or character open. */
  ghost predicate Sends(data: seq<Byte>, ops: seq<Op>) {
    && EndsOnRuneBoundary(data)
    && ParseChunk(START, data).state.mode == Normal
    && ParseChunk(START, data).ops == ops
  }

  lemma SendsTogether(a: seq<Byte>, x: seq<Op>, b: seq<Byte>, y: seq<Op>)
    requires Sends(a, x) && Sends(b, y)
    ensures Sends(a + b, x + y)
  {
    BoundaryAppend(a, b);
    StreamingEqualsBatch(START, a, b);
    var middle := ParseChunk(START, a).state;
    RunAgrees(middle.(cursor := 0), START, [], b);
    assert [] + b == b;
  }
}
