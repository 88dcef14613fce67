/** Screens that input can produce: their cells are printable, and without 256-colour codes and
    resets in mid-list every style they hold is printed faithfully. */
module Reachable {
  import opened Bytes
  import opened Cells
  import opened ParserSpec
  import opened RoundTrip
  import opened ScreenSpec
  import opened Strconv
  import opened Styles
  import opened Utf8
  import opened Windows
  import opened Wrappers

  /** No 38 or 48, and no zero that later codes follow. */
  predicate IsPlainList(codes: seq<seq<Byte>>) {
    HasNoExtendedColor(codes) && forall i :: 0 <= i < |codes| - 1 ==> ParseUint8(codes[i]) != Value(0)
  }

  /** What input leaves in every cell: a rune that can be encoded and codes that can be sent. If the
      input is plain, the rune is no control character and the style is printed faithfully. */
  predicate IsGoodStyle(s: Style, plain: bool) {
    HasPrintableCodes(s) && (plain ==> IsFaithful(s))
  }

  predicate IsGoodRune(r: Rune, plain: bool) {
    IsScalar(r) && (plain ==> IsPlainRune(r))
  }

  lemma ListKeepsGoodStyle(s: Style, codes: seq<seq<Byte>>, plain: bool)
    requires IsGoodStyle(s, plain) && IsInstructionList(codes) && (plain ==> IsPlainList(codes))
    ensures IsGoodStyle(Color(s, codes), plain)
  {
    ColorKeepsPrintableCodes(s, codes);
    if plain {
      PlainListKeepsFaithful(s, codes);
      if !IsFullReset(codes) && !HasNoZero(codes) {
        var init, last := codes[..|codes| - 1], codes[|codes| - 1];
        assert codes == init + [last] && ParseUint8(last) == Value(0);
        FoldsToMeta(Style(s.colors + codes, s.meta), codes);
        MetaFoldAppend(s.meta, init, last);
        assert MetaFold(MetaFold(s.meta, init), [last]) == NO_META;
      }
    }
  }

  predicate IsGoodRow(row: Row, plain: bool) {
    forall j :: 0 <= j < |row| ==> IsGoodRune(row[j].blob, plain) && IsGoodStyle(row[j].style, plain)
  }

  predicate IsGoodScreen(s: ScreenState, plain: bool) {
    && ScreenSpec.Valid(s)
    && IsGoodStyle(s.style, plain)
    && forall i :: 0 <= i < |s.rows| ==> IsGoodRow(s.rows[i], plain)
  }

  predicate AreGoodRunes(runes: seq<Rune>, plain: bool) {
    forall i :: 0 <= i < |runes| ==> IsGoodRune(runes[i], plain)
  }

  /** Error messages about elements contain no control characters. */
  ghost predicate HasPlainMessages(codec: ElementCodec) {
    && (forall payload :: codec.osc(payload).Failed? ==> AreGoodRunes(codec.osc(payload).message, true))
    && (forall payload :: codec.apc(payload).Failed? ==> AreGoodRunes(codec.apc(payload).message, true))
  }

  function StyleList(op: Op): seq<seq<Byte>>
    requires op.Sequence?
  {
    if op.instructions == [] then [[]] else op.instructions
  }

  predicate IsGoodOp(op: Op, plain: bool) {
    && IsOp(op)
    && (op.Append? ==> IsPlainRune(op.rune))
    && (plain && op.Sequence? && op.code == M ==> IsPlainList(StyleList(op)))
  }

  lemma PutStaysGood(s: ScreenState, n: Node, plain: bool)
    requires IsGoodScreen(s, plain) && IsGoodRune(n.blob, plain) && IsGoodStyle(n.style, plain)
    ensures IsGoodScreen(Put(s, n), plain)
  {
    GrowHeightKeepsCursor(s);
    var t := GrowHeight(s);
    assert IsGoodStyle(EMPTY_STYLE, plain) by {
      assert Replay([]) == EMPTY_STYLE;
    }
    assert forall i :: 0 <= i < |Extended(s.rows, s.y)| ==> IsGoodRow(Extended(s.rows, s.y)[i], plain);
    assert IsGoodRow(t.rows[t.y], plain);
    assert IsGoodRow(GrowWidth(t.rows[t.y], t.x)[t.x := n], plain);
  }

  lemma AppendStaysGood(s: ScreenState, r: Rune, plain: bool)
    requires IsGoodScreen(s, plain) && IsGoodRune(r, plain)
    ensures IsGoodScreen(AppendChar(s, r), plain)
  {
    PutStaysGood(s, Node(s.style, None, r), plain);
  }

  lemma {:induction false} AppendManyStaysGood(s: ScreenState, data: seq<Rune>, plain: bool)
    requires IsGoodScreen(s, plain) && AreGoodRunes(data, plain)
    ensures IsGoodScreen(AppendMany(s, data), plain)
    decreases data
  {
    if data != [] {
      AppendStaysGood(s, data[0], plain);
      AppendManyStaysGood(AppendChar(s, data[0]), data[1..], plain);
    }
  }

  lemma ClearStaysGood(s: ScreenState, y: nat, xStart: int, xEnd: int, plain: bool)
    requires IsGoodScreen(s, plain)
    ensures IsGoodScreen(Clear(s, y, xStart, xEnd), plain)
  {
    assert IsGoodStyle(EMPTY_STYLE, plain) by {
      assert Replay([]) == EMPTY_STYLE;
    }
    if y < |s.rows| {
      assert IsGoodRow(s.rows[y], plain);
      forall a, b ensures IsGoodRow(ClearedLine(s.rows[y], a, b), plain) {
      }
    }
  }

  lemma EscapeStaysGood(s: ScreenState, op: Op, plain: bool)
    requires IsGoodScreen(s, plain) && op.Sequence? && IsGoodOp(op, plain)
    ensures IsGoodScreen(ApplyEscape(s, op.code, op.instructions), plain)
  {
    if op.code == M {
      ListKeepsGoodStyle(s.style, StyleList(op), plain);
    } else if op.code == 'K' as int {
      ClearStaysGood(s, s.y, s.x, END_OF_LINE, plain);
      ClearStaysGood(s, s.y, START_OF_LINE, s.x, plain);
      ClearStaysGood(s, s.y, START_OF_LINE, END_OF_LINE, plain);
    }
  }

  lemma ErrorTextIsPlain()
    ensures AreGoodRunes(OSC_ERROR, true) && AreGoodRunes(APC_ERROR, true)
  {
  }

  lemma OscStaysGood(s: ScreenState, result: ElementResult, plain: bool)
    requires IsGoodScreen(s, plain) && (result.Failed? ==> AreGoodRunes(result.message, plain))
    ensures IsGoodScreen(PutOscElement(s, result), plain)
  {
    OwnLineStaysGood(s, plain);
    match result {
      case NoElement =>
      case Parsed(e) =>
        ElementStaysGood(s, e, plain);
        ElementStaysGood(OwnLine(s), e, plain);
      case Failed(message) =>
        ErrorTextIsPlain();
        AppendManyStaysGood(OwnLine(s), OSC_ERROR, plain);
        AppendManyStaysGood(AppendMany(OwnLine(s), OSC_ERROR), message, plain);
    }
  }

  lemma OwnLineStaysGood(s: ScreenState, plain: bool)
    requires IsGoodScreen(s, plain)
    ensures IsGoodScreen(OwnLine(s), plain)
  {
    var t := if s.x != 0 then StartNewLine(s) else s;
    ClearStaysGood(t, t.y, START_OF_LINE, END_OF_LINE, plain);
  }

  lemma ElementStaysGood(s: ScreenState, e: Element, plain: bool)
    requires IsGoodScreen(s, plain)
    ensures IsGoodScreen(AppendElement(s, e), plain)
  {
    PutStaysGood(s, Node(s.style, Some(e), 0), plain);
  }

  lemma ApcStaysGood(s: ScreenState, result: ElementResult, plain: bool)
    requires IsGoodScreen(s, plain) && (result.Failed? ==> AreGoodRunes(result.message, plain))
    ensures IsGoodScreen(PutApcElement(s, result), plain)
  {
    match result {
      case NoElement =>
      case Parsed(e) => ElementStaysGood(s, e, plain);
      case Failed(message) =>
        ErrorTextIsPlain();
        AppendManyStaysGood(s, APC_ERROR, plain);
        AppendManyStaysGood(AppendMany(s, APC_ERROR), message, plain);
    }
  }

  lemma ApplyStaysGood(codec: ElementCodec, s: ScreenState, op: Op, plain: bool)
    requires IsGoodScreen(s, plain) && IsGoodOp(op, plain) && (plain ==> HasPlainMessages(codec))
    ensures IsGoodScreen(Apply(codec, s, op), plain)
  {
    match op {
      case Append(r) => AppendStaysGood(s, r, plain);
      case Sequence(_, _) => EscapeStaysGood(s, op, plain);
      case OscElement(payload) => OscStaysGood(s, codec.osc(payload), plain);
      case ApcElement(payload) => ApcStaysGood(s, codec.apc(payload), plain);
      case _ =>
    }
  }

  lemma {:induction false} ApplyAllStaysGood(codec: ElementCodec, s: ScreenState, ops: seq<Op>, plain: bool)
    requires IsGoodScreen(s, plain) && (plain ==> HasPlainMessages(codec))
    requires AreOps(ops) && forall i :: 0 <= i < |ops| ==> IsGoodOp(ops[i], plain)
    ensures IsGoodScreen(ApplyAll(codec, s, ops), plain)
    decreases ops
  {
    if ops != [] {
      assert IsGoodOp(ops[0], plain);
      ApplyStaysGood(codec, s, ops[0], plain);
      ApplyAllStaysGood(codec, Apply(codec, s, ops[0]), ops[1..], plain);
    }
  }

  /** Whatever the input, the parser puts only plain runes on the screen. */
  lemma {:induction false} RunAppendsPlainRunes(p: ParserState, data: seq<Byte>)
    ensures forall i :: 0 <= i < |Run(p, data).ops| && Run(p, data).ops[i].Append? ==>
      IsPlainRune(Run(p, data).ops[i].rune)
    decreases Potential(p, data)
  {
    if p.cursor < |data| {
      StepDecreasesPotential(p, data);
      StepAppendsPlainRune(p, data, DecodeRune(data[p.cursor..]));
      RunAppendsPlainRunes(Step(p, data).state, data);
    }
  }

  lemma StepAppendsPlainRune(p: ParserState, data: seq<Byte>, d: Decoded)
    requires IsScalar(d.rune)
    ensures var ops := StepOver(p, data, d).ops;
      |ops| <= 1 && (ops != [] && ops[0].Append? ==> IsPlainRune(ops[0].rune))
  {
  }

  predicate SendsPlainLists(ops: seq<Op>) {
    forall i :: 0 <= i < |ops| && ops[i].Sequence? && ops[i].code == M ==> IsPlainList(StyleList(ops[i]))
  }

  /** No chunk contains a colour sequence that printing cannot express. */
  ghost predicate HasPlainStyles(p: ParserState, chunks: seq<seq<Byte>>)
    decreases chunks
  {
    chunks == []
    || (SendsPlainLists(ParseChunk(p, chunks[0]).ops)
        && HasPlainStyles(if chunks[0] == [] then p else ParseChunk(p, chunks[0]).state, chunks[1..]))
  }

  lemma ParseStaysGood(codec: ElementCodec, p: ParserState, s: ScreenState, data: seq<Byte>, plain: bool)
    requires IsInstructions(p.instructions) && IsGoodScreen(s, plain)
    requires plain ==> HasPlainMessages(codec) && SendsPlainLists(ParseChunk(p, data).ops)
    ensures IsGoodScreen(Parse(codec, p, s, data), plain)
  {
    var ops := ParseChunk(p, data).ops;
    RunKeepsValid(p.(cursor := 0), data);
    RunAppendsPlainRunes(p.(cursor := 0), data);
    forall i | 0 <= i < |ops| ensures IsGoodOp(ops[i], plain) {
      assert IsOp(ops[i]);
    }
    ApplyAllStaysGood(codec, s, ops, plain);
  }

  lemma {:induction false} ParsedScreensAreGood(
      codec: ElementCodec, p: ParserState, s: ScreenState, chunks: seq<seq<Byte>>)
    requires IsInstructions(p.instructions) && IsGoodScreen(s, true)
    requires HasPlainMessages(codec) && HasPlainStyles(p, chunks)
    ensures IsGoodScreen(ParseAll(codec, p, s, chunks).1, true)
    decreases chunks
  {
    if chunks != [] {
      ParseStaysGood(codec, p, s, chunks[0], true);
      ParsedScreensAreGood(codec, if chunks[0] == [] then p else ParseChunk(p, chunks[0]).state,
        Parse(codec, p, s, chunks[0]), chunks[1..]);
    }
  }

  /** Any input, in any chunks, whose colour sequences are plain: print the screen it leaves, parse
      the text, and the same cells are there again. */
  lemma ReachedScreenComesBack(codec: ElementCodec, maxLines: int, chunks: seq<seq<Byte>>)
    requires HasPlainMessages(codec) && HasPlainStyles(START, chunks)
    ensures var rows := ParseAll(codec, START, NewScreen(maxLines), chunks).1.rows;
      Reproduces(Reparsed(codec, maxLines, rows), rows)
  {
    var s := ParseAll(codec, START, NewScreen(maxLines), chunks).1;
    assert Replay([]) == EMPTY_STYLE;
    ParsedScreensAreGood(codec, START, NewScreen(maxLines), chunks);
    ParseAllKeepsCap(codec, START, NewScreen(maxLines), chunks);
    forall i | 0 <= i < |s.rows| ensures IsPrintable(s.rows[i]) && HasFaithfulLeaders(TrimRow(s.rows[i])) {
      assert IsGoodRow(s.rows[i], true);
    }
    PrintedScreenComesBackExactly(codec, maxLines, s.rows);
  }

  lemma {:induction false} ParseAllKeepsCap(codec: ElementCodec, p: ParserState, s: ScreenState, chunks: seq<seq<Byte>>)
    requires IsInstructions(p.instructions) && ScreenSpec.Valid(s)
    ensures ParseAll(codec, p, s, chunks).1.maxLines == s.maxLines
    decreases chunks
  {
    if chunks != [] {
      RunKeepsValid(p.(cursor := 0), chunks[0]);
      ParseAllKeepsCap(codec, if chunks[0] == [] then p else ParseChunk(p, chunks[0]).state,
        Parse(codec, p, s, chunks[0]), chunks[1..]);
    }
  }
}
