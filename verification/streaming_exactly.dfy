/** Where input can be cut without any difference, and where it cannot. */
module StreamingExactly {
  import opened Bytes
  import opened Cells
  import opened ParserSpec
  import opened ScreenSpec
  import opened Streaming
  import opened Utf8


  const Z: Byte := 'Z' as int
  const ONE: Byte := '1' as int
  const CURSOR_UP: Byte := 'A' as int

  function Repeated(b: Byte, n: nat): (s: seq<Byte>)
    ensures |s| == n && forall i :: 0 <= i < n ==> s[i] == b
  {
    seq(n, _ => b)
  }

  /** The chunk that tells apart what a parser does next when its offsets are off by some bytes. */
  function Probe(p: ParserState): seq<Byte> {
    match p.mode
    case Escape => Repeated(Z, p.escapeStartedAt + 2)
    case Control => Repeated(ONE, p.instructionStartedAt + 1) + [CURSOR_UP]
    case _ => Repeated(ONE, p.instructionStartedAt) + [7]
  }

  lemma ProbeOfEscape(p: ParserState, q: ParserState)
    requires p.mode == Escape && q.mode == Escape && q.escapeStartedAt > p.escapeStartedAt
    ensures ParseChunk(p, Probe(p)).ops == [Append(Z)] && ParseChunk(q, Probe(p)).ops == []
  {
    var c := Probe(p);
    var start := p.(cursor := 0);
    StepDecreasesPotential(start, c);
    var next := Step(start, c).state;
    assert next.cursor == |c| - 1 && next.mode == Normal;
    OneStepRun(next, c);
    assert Run(start, c).ops == [] + Run(next, c).ops;
    OneStepRun(q.(cursor := 0), c);
  }

  lemma ProbeOfControl(p: ParserState, q: ParserState)
    requires p.mode == Control && q.mode == Control && q.instructionStartedAt > p.instructionStartedAt
    requires p.instructions == q.instructions
    ensures ParseChunk(p, Probe(p)).ops == [Sequence(CURSOR_UP, p.instructions + [[ONE]])]
    ensures ParseChunk(q, Probe(p)).ops == [Sequence(CURSOR_UP, p.instructions)]
  {
    var c, n := Probe(p), p.instructionStartedAt + 1;
    assert c[n] == CURSOR_UP && c[p.instructionStartedAt..n] == [ONE];
    QuietBytes(p.(cursor := 0), c, n);
    QuietBytes(q.(cursor := 0), c, n);
    OneStepRun(p.(cursor := n), c);
    OneStepRun(q.(cursor := n), c);
  }

  lemma ProbeOfPayload(p: ParserState, q: ParserState)
    requires (p.mode == Osc || p.mode == Apc) && q.mode == p.mode && q.instructionStartedAt > p.instructionStartedAt
    ensures |ParseChunk(p, Probe(p)).ops| == 1 && ParseChunk(q, Probe(p)).ops == []
  {
    var c, n := Probe(p), p.instructionStartedAt;
    assert c[n] == 7;
    QuietBytes(p.(cursor := 0), c, n);
    QuietBytes(q.(cursor := 0), c, n);
    OneStepRun(p.(cursor := n), c);
    OneStepRun(q.(cursor := n), c);
  }

  /** Two parsers that treat every next chunk alike. */
  ghost predicate SameFuture(p: ParserState, q: ParserState) {
    forall c :: ParseChunk(p, c).ops == ParseChunk(q, c).ops
  }

  /** Parsers that stand at the same point of differently split input behave alike from then on
      exactly when that point lies outside the sequences that use offsets. */
  lemma SameFutureExactly(p: ParserState, q: ParserState, k: nat)
    requires Agree(p, q, k) && k > 0
    ensures SameFuture(p, q) <==> ForgetsOffsets(p.mode)
  {
    if ForgetsOffsets(p.mode) {
      forall c ensures ParseChunk(p, c).ops == ParseChunk(q, c).ops {
        RunAgrees(p.(cursor := 0), q.(cursor := 0), [], c);
        assert [] + c == c;
      }
    } else {
      match p.mode {
        case Escape => ProbeOfEscape(p, q);
        case Control => ProbeOfControl(p, q);
        case _ => ProbeOfPayload(p, q);
      }
      assert ParseChunk(p, Probe(p)).ops != ParseChunk(q, Probe(p)).ops;
    }
  }

  /** What the parser does with a chunk that follows a is what it does with it after a in one chunk. */
  ghost predicate SplitsAfter(p: ParserState, a: seq<Byte>) {
    forall b :: ParseChunk(p, a + b).ops == ParseChunk(p, a).ops + ParseChunk(ParseChunk(p, a).state, b).ops
  }

  /** The chunk whose operations show that a sequence was cut in two. */
  function CutProbe(m: Mode): seq<Byte> {
    match m
    case Escape => [Z]
    case Control => [ONE, CURSOR_UP]
    case _ => [7]
  }

  lemma CutEscapeDiffers(p: ParserState, a: seq<Byte>)
    requires p.mode == Escape && HasOwnOffsets(p, a) && p.cursor == |a|
    ensures Run(p, a + [Z]).ops != ParseChunk(p, [Z]).ops
  {
    var whole := a + [Z];
    var next := Step(p, whole).state;
    assert whole[|a|] == Z && next == p.(mode := Normal);
    StepDecreasesPotential(p, whole);
    OneStepRun(next, whole);
    OneStepRun(p.(cursor := 0), [Z]);
    assert Run(p, whole).ops == [] + [Append(Z)];
  }

  lemma CursorUpEnds(p: ParserState, data: seq<Byte>)
    requires p.mode == Control && p.cursor == |data| - 1 && data[p.cursor] == CURSOR_UP
    ensures Run(p, data).ops == [Sequence(CURSOR_UP, AddInstruction(p, data))]
  {
    var d := CharactersAreRead(data, p.cursor);
    assert d == Decoded(CURSOR_UP, 1);
    OneStepRun(p, data);
  }

  lemma DigitThenCursorUp(p: ParserState, data: seq<Byte>)
    requires p.mode == Control && p.cursor == |data| - 2 && data[p.cursor] == ONE && data[p.cursor + 1] == CURSOR_UP
    ensures Run(p, data).ops == [Sequence(CURSOR_UP, AddInstruction(p.(cursor := p.cursor + 1), data))]
  {
    QuietBytes(p, data, p.cursor + 1);
    CursorUpEnds(p.(cursor := p.cursor + 1), data);
  }

  /** The digit belongs to an instruction if that began in the same chunk. */
  lemma ProbeInstruction(p: ParserState, whole: seq<Byte>, b: seq<Byte>)
    requires 2 <= p.instructionStartedAt < p.cursor == |whole| - 1 && |b| == 2
    ensures |AddInstruction(p, whole)| == |p.instructions| + 1
    ensures AddInstruction(p.(cursor := 1), b) == p.instructions
  {
  }

  lemma CutControlDiffers(p: ParserState, a: seq<Byte>)
    requires p.mode == Control && HasOwnOffsets(p, a) && p.cursor == |a|
    ensures Run(p, a + [ONE, CURSOR_UP]).ops != ParseChunk(p, [ONE, CURSOR_UP]).ops
  {
    var b := [ONE, CURSOR_UP];
    var whole, last := a + b, p.(cursor := |a| + 1);
    assert whole[|a|] == ONE && whole[|a| + 1] == CURSOR_UP;
    DigitThenCursorUp(p, whole);
    DigitThenCursorUp(p.(cursor := 0), b);
    ProbeInstruction(last, whole, b);
    assert last.(cursor := 1) == p.(cursor := 1);
  }

  lemma CutPayloadDiffers(p: ParserState, a: seq<Byte>)
    requires (p.mode == Osc || p.mode == Apc) && HasOwnOffsets(p, a) && p.cursor == |a|
    ensures Run(p, a + [7]).ops != ParseChunk(p, [7]).ops
  {
    var whole := a + [7];
    assert whole[|a|] == 7;
    OneStepRun(p, whole);
    OneStepRun(p.(cursor := 0), [7]);
  }

  /** After a byte of ASCII, nothing becomes a character that was not one. */
  lemma AsciiSeparates(a: seq<Byte>, b: seq<Byte>)
    requires b != [] && b[0] < 0x80
    ensures Separates(a, b, |a|)
  {
    forall j | 0 <= j < |a| ensures EndsBefore(a, b, |a|, j) {
      assert (a + b)[j..] == a[j..] + b;
      AsciiCompletesNothing(a[j..], b);
    }
  }

  /** A cut inside a sequence that uses offsets, wherever it falls within a character. */
  lemma CutSequenceDiffers(p: ParserState, a: seq<Byte>)
    requires p.mode == Normal && !ForgetsOffsets(ParseChunk(p, a).state.mode)
    ensures !SplitsAfter(p, a)
  {
    var first := ParseChunk(p, a);
    var b := CutProbe(first.state.mode);
    AsciiSeparates(a, b);
    RunStartsWithPrefix(p.(cursor := 0), a, b);
    match first.state.mode {
      case Escape => CutEscapeDiffers(first.state, a);
      case Control => CutControlDiffers(first.state, a);
      case _ => CutPayloadDiffers(first.state, a);
    }
    DifferentTail(first.ops, Run(first.state, a + b).ops, ParseChunk(first.state, b).ops);
  }

  lemma DifferentTail<T>(a: seq<T>, b: seq<T>, c: seq<T>)
    requires b != c
    ensures a + b != a + c
  {
    assert (a + b)[|a|..] == b && (a + c)[|a|..] == c;
  }

  // ----- cuts inside a character -----

  /** Each byte from c on reads as a rune of its own, and none is an escape character. */
  ghost predicate AreSingle(data: seq<Byte>, c: nat) {
    forall j :: c <= j < |data| ==> DecodeRune(data[j..]).width == 1
  }

  lemma PlainRound(p: ParserState, data: seq<Byte>) returns (d: Decoded)
    requires p.mode == Normal && p.cursor < |data| && NextEscape(data, p.cursor) == |data|
    ensures d == DecodeRune(data[p.cursor..]) && 1 <= d.width <= |data| - p.cursor
    ensures Step(p, data).state == p.(cursor := p.cursor + d.width) && |Step(p, data).ops| == 1
    ensures NextEscape(data, p.cursor + d.width) == |data|
  {
    d := CharactersAreRead(data, p.cursor);
    NextEscapeIsMonotone(data, p.cursor, p.cursor + d.width);
  }

  /** Outside escapes, every rune is one operation: as many as bytes if these are read singly, and
      no more otherwise. */
  lemma {:induction false} PlainRun(p: ParserState, data: seq<Byte>)
    requires p.mode == Normal && p.cursor <= |data| && NextEscape(data, p.cursor) == |data|
    ensures var e := Run(p, data);
      && e.state.mode == Normal
      && |e.ops| <= |data| - p.cursor
      && (AreSingle(data, p.cursor) ==> |e.ops| == |data| - p.cursor)
    decreases |data| - p.cursor
  {
    if p.cursor < |data| {
      var d := PlainRound(p, data);
      RunFirst(p, data);
      PlainRun(p.(cursor := p.cursor + d.width), data);
    }
  }

  /** At i, the chunk a ends in the middle of a character that b completes. */
  ghost predicate IsCutAt(a: seq<Byte>, b: seq<Byte>, i: nat) {
    && i < |a| && b != []
    && a[i] >= 0x80 && !FullRune(a[i..])
    && DecodeRune((a + b)[i..]).width == |a| + |b| - i
    && (forall j :: i < j < |a| ==> IsContinuation(a[j]))
    && (forall j :: 0 <= j < |b| ==> IsContinuation(b[j]))
  }

  lemma {:induction false} NoEscapeFrom(data: seq<Byte>, c: nat)
    requires c <= |data| && forall j :: c <= j < |data| ==> data[j] != ESCAPE
    ensures NextEscape(data, c) == |data|
    decreases |data| - c
  {
    if c < |data| {
      NoEscapeFrom(data, c + 1);
    }
  }

  lemma CutBytesAreSingle(a: seq<Byte>, b: seq<Byte>, i: nat)
    requires IsCutAt(a, b, i)
    ensures AreSingle(a, i) && AreSingle(b, 0)
    ensures forall c :: i <= c <= |a| ==> NextEscape(a, c) == |a|
    ensures NextEscape(b, 0) == |b|
  {
    forall j | i <= j < |a| ensures DecodeRune(a[j..]).width == 1 {
      assert a[j..][0] == a[j];
    }
    forall j | 0 <= j < |b| ensures DecodeRune(b[j..]).width == 1 {
      assert b[j..][0] == b[j];
    }
    forall c | i <= c <= |a| ensures NextEscape(a, c) == |a| {
      NoEscapeFrom(a, c);
    }
    NoEscapeFrom(b, 0);
  }

  /** The operations of both pieces, from the position at which the cut character begins. */
  function OpsApart(q: ParserState, a: seq<Byte>, b: seq<Byte>): nat {
    |Run(q, a).ops| + |ParseChunk(Run(q, a).state, b).ops|
  }

  /** Outside an escape, the character is shown as one rune, and its parts as one error for each byte. */
  lemma CutInTextDiffers(q: ParserState, a: seq<Byte>, b: seq<Byte>)
    requires q.mode == Normal && IsCutAt(a, b, q.cursor)
    ensures |Run(q, a + b).ops| < OpsApart(q, a, b)
  {
    CutBytesAreSingle(a, b, q.cursor);
    PlainRun(q, a);
    PlainRun(Run(q, a).state.(cursor := 0), b);
    OneStepRun(q, a + b);
  }

  /** As the name of a character set, it is taken as a whole, and of its parts only the first byte. */
  lemma CutCharsetDiffers(q: ParserState, a: seq<Byte>, b: seq<Byte>)
    requires q.mode == Charset && IsCutAt(a, b, q.cursor)
    ensures |Run(q, a + b).ops| < OpsApart(q, a, b)
  {
    CutBytesAreSingle(a, b, q.cursor);
    RunFirst(q, a);
    PlainRun(Step(q, a).state, a);
    PlainRun(Run(q, a).state.(cursor := 0), b);
    OneStepRun(q, a + b);
  }

  /** What a false alarm goes back to contains no escape and only single bytes. */
  lemma ScannedIsPlain(q: ParserState, a: seq<Byte>, b: seq<Byte>)
    requires (q.mode == Escape || q.mode == Control) && HasOwnOffsets(q, a) && IsCutAt(a, b, q.cursor)
    ensures var e := q.escapeStartedAt;
      && AreSingle(a, e + 1) && NextEscape(a, e + 1) == |a|
      && forall c :: e < c <= |a| + |b| ==> NextEscape(a + b, c) == |a| + |b|
  {
    var i, e := q.cursor, q.escapeStartedAt;
    CutBytesAreSingle(a, b, i);
    NextEscapeIsMonotone(a, e + 1, i);
    forall j | e < j < |a| ensures DecodeRune(a[j..]).width == 1 && a[j] != ESCAPE {
      assert a[j..][0] == a[j];
    }
    NoEscapeFrom(a, e + 1);
    forall c | e < c <= |a| + |b| ensures NextEscape(a + b, c) == |a| + |b| {
      NoEscapeFrom(a + b, c);
    }
  }

  /** A false alarm goes back to a place in the text behind the escape character. */
  lemma AlarmGoesBack(q: ParserState, data: seq<Byte>)
    requires (q.mode == Escape || q.mode == Control) && q.cursor < |data| && data[q.cursor] >= 0x80
    ensures var w := DecodeRune(data[q.cursor..]).width;
      Step(q, data) == Effect(q.(mode := Normal, cursor := q.escapeStartedAt + w), [])
  {
    var d := CharactersAreRead(data, q.cursor);
  }

  lemma AlarmApart(q: ParserState, a: seq<Byte>, b: seq<Byte>)
    requires (q.mode == Escape || q.mode == Control) && HasOwnOffsets(q, a) && IsCutAt(a, b, q.cursor)
    ensures OpsApart(q, a, b) == |a| - (q.escapeStartedAt + 1) + |b|
  {
    CutBytesAreSingle(a, b, q.cursor);
    ScannedIsPlain(q, a, b);
    AlarmGoesBack(q, a);
    RunFirst(q, a);
    PlainRun(Step(q, a).state, a);
    PlainRun(Run(q, a).state.(cursor := 0), b);
  }

  lemma AlarmTogether(q: ParserState, a: seq<Byte>, b: seq<Byte>)
    requires (q.mode == Escape || q.mode == Control) && HasOwnOffsets(q, a) && IsCutAt(a, b, q.cursor)
    ensures |Run(q, a + b).ops| <= q.cursor - q.escapeStartedAt
  {
    ScannedIsPlain(q, a, b);
    AlarmGoesBack(q, a + b);
    RunFirst(q, a + b);
    PlainRun(Step(q, a + b).state, a + b);
  }

  /** Inside a sequence it is a false alarm, which skips as many bytes as the character has. */
  lemma CutAlarmDiffers(q: ParserState, a: seq<Byte>, b: seq<Byte>)
    requires (q.mode == Escape || q.mode == Control) && HasOwnOffsets(q, a) && IsCutAt(a, b, q.cursor)
    ensures |Run(q, a + b).ops| < OpsApart(q, a, b)
  {
    AlarmApart(q, a, b);
    AlarmTogether(q, a, b);
  }

  /** In a payload, the cut leaves the sequence open. */
  lemma {:induction false} PayloadStaysOpen(p: ParserState, data: seq<Byte>)
    requires (p.mode == Osc || p.mode == Apc) && forall j :: p.cursor <= j < |data| ==> data[j] >= 0x80
    ensures Run(p, data).state.mode == p.mode
    decreases Potential(p, data)
  {
    if p.cursor < |data| {
      var d := CharactersAreRead(data, p.cursor);
      StepDecreasesPotential(p, data);
      PayloadStaysOpen(Step(p, data).state, data);
    }
  }

  /** The first position at which the chunk cuts a character short. */
  predicate IsFirstCut(a: seq<Byte>, i: nat) {
    i < |a| && !FullRune(a[i..]) && forall j :: 0 <= j < i ==> FullRune(a[j..])
  }

  lemma FindFirstCut(a: seq<Byte>) returns (i: nat)
    requires !EndsOnRuneBoundary(a)
    ensures IsFirstCut(a, i)
  {
    i := 0;
    while FullRune(a[i..])
      invariant i < |a| && exists k :: i <= k < |a| && !FullRune(a[k..])
      invariant forall j :: 0 <= j < i ==> FullRune(a[j..])
      decreases |a| - i
    {
      i := i + 1;
    }
  }

  /** No character reaches over it. */
  lemma FirstCutSeparates(a: seq<Byte>, b: seq<Byte>, i: nat)
    requires IsFirstCut(a, i)
    ensures Separates(a, b, i)
  {
    assert a[i..][0] == a[i];
    forall j | 0 <= j < i ensures EndsBefore(a, b, i, j) {
      assert (a + b)[j..] == a[j..] + b && FullRune(a[j..]) && a[j..][i - j] == a[i];
      FullRuneDecodesAlike(a[j..], b);
      if j + DecodeRune(a[j..]).width > i {
        InnerBytesContinue(a[j..], i - j);
        assert false;
      }
    }
  }

  lemma FirstCutIsCompleted(a: seq<Byte>, i: nat)
    requires IsFirstCut(a, i)
    ensures IsCutAt(a, Completion(a[i..]), i)
  {
    var cut := a[i..];
    var b := Completion(cut);
    CompletionCompletes(cut);
    assert (a + b)[i..] == cut + b && cut[0] == a[i];
    forall j | i < j < |a| ensures IsContinuation(a[j]) {
      assert cut[j - i] == a[j];
    }
  }

  lemma CutCharacterTakesMore(q: ParserState, a: seq<Byte>, b: seq<Byte>)
    requires HasOwnOffsets(q, a) && IsCutAt(a, b, q.cursor) && ForgetsOffsets(Run(q, a).state.mode)
    ensures |Run(q, a + b).ops| < OpsApart(q, a, b)
  {
    match q.mode {
      case Normal => CutInTextDiffers(q, a, b);
      case Charset => CutCharsetDiffers(q, a, b);
      case Osc => PayloadStaysOpen(q, a);
      case Apc => PayloadStaysOpen(q, a);
      case _ => CutAlarmDiffers(q, a, b);
    }
  }

  /** Cutting inside a character outside the sequences that use offsets. */
  lemma CutCharacterAlwaysDiffers(p: ParserState, a: seq<Byte>)
    requires p.mode == Normal && !EndsOnRuneBoundary(a) && ForgetsOffsets(ParseChunk(p, a).state.mode)
    ensures !SplitsAfter(p, a)
  {
    var i := FindFirstCut(a);
    var b := Completion(a[i..]);
    FirstCutSeparates(a, b, i);
    FirstCutIsCompleted(a, i);
    var q, ops := RunComesTo(p.(cursor := 0), a, b, i);
    CutCharacterTakesMore(q, a, b);
    assert |ParseChunk(p, a + b).ops| < |ParseChunk(p, a).ops + ParseChunk(ParseChunk(p, a).state, b).ops|;
  }

  /** A cut makes no difference to any continuation exactly when it falls between characters and not
      inside an escape sequence that uses offsets. */
  lemma SplitsAfterExactly(p: ParserState, a: seq<Byte>)
    requires p.mode == Normal
    ensures SplitsAfter(p, a) <==> EndsOnRuneBoundary(a) && ForgetsOffsets(ParseChunk(p, a).state.mode)
  {
    var first := ParseChunk(p, a);
    if !ForgetsOffsets(first.state.mode) {
      CutSequenceDiffers(p, a);
    } else if !EndsOnRuneBoundary(a) {
      CutCharacterAlwaysDiffers(p, a);
    } else {
      forall b ensures ParseChunk(p, a + b).ops == first.ops + ParseChunk(first.state, b).ops {
        StreamingEqualsBatch(p, a, b);
      }
    }
  }

  /** For example, the euro sign in two chunks shows as errors. */
  lemma CutCharacterDiffers()
    ensures ParseChunk(START, [0xE2, 0x82, 0xAC]).ops == [Append(0x20AC)]
    ensures ParseChunk(START, [0xE2, 0x82]).ops == [Append(0xFFFD), Append(0xFFFD)]
  {
    EuroIsOneRune([0xE2, 0x82, 0xAC]);
    CutEuroIsTwoErrors([0xE2, 0x82]);
  }

  lemma EuroIsOneRune(euro: seq<Byte>)
    requires euro == [0xE2, 0x82, 0xAC]
    ensures ParseChunk(START, euro).ops == [Append(0x20AC)]
  {
    EuroDecodes();
    assert euro[0..] == euro;
    var next := START.(cursor := 3);
    assert Step(START, euro) == StepOver(START, euro, Decoded(0x20AC, 3)) == Effect(next, [Append(0x20AC)]);
    OneStepRun(START, euro);
  }

  lemma CutEuroIsTwoErrors(cut: seq<Byte>)
    requires cut == [0xE2, 0x82]
    ensures ParseChunk(START, cut).ops == [Append(RUNE_ERROR), Append(RUNE_ERROR)]
  {
    EuroDecodes();
    var next, last := START.(cursor := 1), START.(cursor := 2);
    assert cut[0..] == cut && cut[1..] == [0x82];
    assert Step(START, cut) == StepOver(START, cut, Decoded(RUNE_ERROR, 1)) == Effect(next, [Append(RUNE_ERROR)]);
    assert Step(next, cut) == StepOver(next, cut, Decoded(RUNE_ERROR, 1)) == Effect(last, [Append(RUNE_ERROR)]);
    StepDecreasesPotential(START, cut);
    OneStepRun(next, cut);
  }

  lemma EuroDecodes()
    ensures DecodeRune([0xE2, 0x82, 0xAC]) == Decoded(0x20AC, 3)
    ensures DecodeRune([0xE2, 0x82]) == Decoded(RUNE_ERROR, 1) == DecodeRune([0x82])
  {
    assert IsSecondByte(0xE2, 0x82) && Announced(0xE2) == 3 && Announced(0x82) == 0;
  }
}
