/** Text styles: the codes a cell was written with and what they amount to (server/terminal/style.go). */
module Styles {
  import opened Bytes
  import opened Strconv

  datatype StyleMeta = StyleMeta(
    fgColor: Byte,
    bgColor: Byte,
    fgColorX: bool,
    bgColorX: bool,
    bold: bool,
    faint: bool,
    italic: bool,
    underline: bool,
    strike: bool,
    blink: bool)

  const NO_META := StyleMeta(0, 0, false, false, false, false, false, false, false, false)

  datatype Style = Style(colors: seq<seq<Byte>>, meta: StyleMeta) {
    predicate IsEqual(other: Style) {
      meta == other.meta
    }

    predicate IsEmpty() {
      meta == NO_META
    }
  }

  const EMPTY_STYLE := Style([], NO_META)

  datatype ColorMode = ColorNormal | Got38Need5 | Got48Need5 | Got38 | Got48

  /** The variables of the loop in style.color. */
  datatype Pen = Pen(style: Style, mode: ColorMode)

  const RESET_CODE: seq<Byte> := ['0' as int]

  /** Does this instruction list take the shortcut for a full reset? */
  predicate IsFullReset(codes: seq<seq<Byte>>) {
    |codes| == 1 && (codes[0] == RESET_CODE || codes[0] == [])
  }

  /** The effect of one code outside an extended colour, on the attributes alone. */
  function SetAttribute(meta: StyleMeta, cc: nat): (r: StyleMeta)
    requires cc <= 255
    ensures r.fgColorX ==> meta.fgColorX
    ensures r.bgColorX ==> meta.bgColorX
  {
    if cc == 0 then NO_META
    else if cc == 1 then meta.(bold := true, faint := false)
    else if cc == 2 then meta.(faint := true, bold := false)
    else if cc == 3 then meta.(italic := true)
    else if cc == 4 then meta.(underline := true)
    else if cc == 5 || cc == 6 then meta.(blink := true)
    else if cc == 9 then meta.(strike := true)
    else if cc == 21 || cc == 22 then meta.(bold := false, faint := false)
    else if cc == 23 then meta.(italic := false)
    else if cc == 24 then meta.(underline := false)
    else if cc == 25 then meta.(blink := false)
    else if cc == 29 then meta.(strike := false)
    else if cc == 39 then meta.(fgColor := 0, fgColorX := false)
    else if cc == 49 then meta.(bgColor := 0, bgColorX := false)
    else if 30 <= cc <= 37 || 90 <= cc <= 97 then meta.(fgColor := cc, fgColorX := false)
    else if 40 <= cc <= 47 || 100 <= cc <= 107 then meta.(bgColor := cc, bgColorX := false)
    else meta
  }

  /** One round of the loop in style.color. */
  function ColorStep(pen: Pen, code: seq<Byte>): Pen {
    match ParseUint8(code)
    case SyntaxError => pen
    case RangeError => pen
    case Value(cc) =>
      match pen.mode
      case Got38Need5 => pen.(mode := if cc == 5 then Got38 else ColorNormal)
      case Got48Need5 => pen.(mode := if cc == 5 then Got48 else ColorNormal)
      case Got38 =>
        Pen(pen.style.(meta := pen.style.meta.(fgColor := cc, fgColorX := true)), ColorNormal)
      case Got48 =>
        Pen(pen.style.(meta := pen.style.meta.(bgColor := cc, bgColorX := true)), ColorNormal)
      case ColorNormal =>
        if cc == 0 then pen.(style := EMPTY_STYLE)
        else if cc == 38 then pen.(mode := Got38Need5)
        else if cc == 48 then pen.(mode := Got48Need5)
        else pen.(style := pen.style.(meta := SetAttribute(pen.style.meta, cc)))
  }

  function ColorFold(pen: Pen, codes: seq<seq<Byte>>): Pen
    decreases codes
  {
    if codes == [] then pen else ColorFold(ColorStep(pen, codes[0]), codes[1..])
  }

  /** style.color as a function of the old style and the instruction list. */
  function Color(s: Style, codes: seq<seq<Byte>>): Style {
    if IsFullReset(codes) then EMPTY_STYLE
    else ColorFold(Pen(Style(s.colors + codes, s.meta), ColorNormal), codes).style
  }

  /** style.color in the form of the source: copy, append the codes, then loop over them. */
  method ApplyColors(s: Style, codes: seq<seq<Byte>>) returns (r: Style)
    ensures r == Color(s, codes)
  {
    if |codes| == 1 && (codes[0] == RESET_CODE || codes[0] == []) {
      return EMPTY_STYLE;
    }
    var colors, meta := s.colors + codes, s.meta;
    var colorMode := ColorNormal;
    for i := 0 to |codes|
      invariant ColorFold(Pen(Style(colors, meta), colorMode), codes[i..])
        == ColorFold(Pen(Style(s.colors + codes, s.meta), ColorNormal), codes)
    {
      assert codes[i..][0] == codes[i] && codes[i..][1..] == codes[i + 1..];
      var parsed := ParseUint8(codes[i]);
      if parsed.Value? {
        var cc := parsed.n;
        if colorMode == Got38Need5 {
          colorMode := if cc == 5 then Got38 else ColorNormal;
        } else if colorMode == Got48Need5 {
          colorMode := if cc == 5 then Got48 else ColorNormal;
        } else if colorMode == Got38 {
          meta := meta.(fgColor := cc, fgColorX := true);
          colorMode := ColorNormal;
        } else if colorMode == Got48 {
          meta := meta.(bgColor := cc, bgColorX := true);
          colorMode := ColorNormal;
        } else if cc == 0 {
          colors, meta := [], NO_META;
        } else if cc == 38 {
          colorMode := Got38Need5;
        } else if cc == 48 {
          colorMode := Got48Need5;
        } else {
          meta := SetAttribute(meta, cc);
        }
      }
    }
    r := Style(colors, meta);
  }

  /** The style reached by sending stored codes one by one, as asANSICodes does when a cell is printed. */
  function Replay(colors: seq<seq<Byte>>): Style {
    if colors == [] then EMPTY_STYLE else Color(Replay(colors[..|colors| - 1]), [colors[|colors| - 1]])
  }

  /** Printing a cell of this style shows what the style means. */
  predicate IsFaithful(s: Style) {
    Replay(s.colors).meta == s.meta
  }

  /** Stored codes that an escape sequence can carry: non-empty parameters. */
  predicate HasPrintableCodes(s: Style) {
    forall i :: 0 <= i < |s.colors| ==> s.colors[i] != [] && IsParameter(s.colors[i])
  }

  /** The instruction lists that reach style.color: non-empty parameters, or the default list. */
  predicate IsInstructionList(codes: seq<seq<Byte>>) {
    || codes == [[]]
    || (codes != [] && forall i :: 0 <= i < |codes| ==> codes[i] != [] && IsParameter(codes[i]))
  }

  predicate HasNoExtendedColor(codes: seq<seq<Byte>>) {
    forall i :: 0 <= i < |codes| ==> ParseUint8(codes[i]) != Value(38) && ParseUint8(codes[i]) != Value(48)
  }

  predicate HasNoZero(codes: seq<seq<Byte>>) {
    forall i :: 0 <= i < |codes| ==> ParseUint8(codes[i]) != Value(0)
  }

  /** The attributes after a list of codes without extended colours. */
  function MetaFold(meta: StyleMeta, codes: seq<seq<Byte>>): StyleMeta
    decreases codes
  {
    if codes == [] then meta
    else
      var p := ParseUint8(codes[0]);
      MetaFold(if p.Value? then SetAttribute(meta, p.n) else meta, codes[1..])
  }

  lemma {:induction false} FoldsToMeta(s: Style, codes: seq<seq<Byte>>)
    requires HasNoExtendedColor(codes)
    ensures ColorFold(Pen(s, ColorNormal), codes)
      == Pen(Style(if HasNoZero(codes) then s.colors else [], MetaFold(s.meta, codes)), ColorNormal)
    decreases codes
  {
    if codes != [] {
      var next := ColorStep(Pen(s, ColorNormal), codes[0]);
      assert next.mode == ColorNormal;
      assert HasNoZero(codes) <==> ParseUint8(codes[0]) != Value(0) && HasNoZero(codes[1..]);
      FoldsToMeta(next.style, codes[1..]);
    }
  }

  lemma {:induction false} MetaFoldAppend(meta: StyleMeta, codes: seq<seq<Byte>>, last: seq<Byte>)
    ensures MetaFold(meta, codes + [last]) == MetaFold(MetaFold(meta, codes), [last])
    decreases codes
  {
    if codes != [] {
      assert (codes + [last])[1..] == codes[1..] + [last];
      var p := ParseUint8(codes[0]);
      MetaFoldAppend(if p.Value? then SetAttribute(meta, p.n) else meta, codes[1..], last);
    } else {
      assert codes + [last] == [last];
    }
  }

  /** Replaying some stored codes and then a plain list does what the list does at once. */
  lemma {:induction false} ReplayAppend(colors: seq<seq<Byte>>, codes: seq<seq<Byte>>)
    requires HasNoExtendedColor(codes)
    requires forall i :: 0 <= i < |codes| ==> codes[i] != []
    ensures Replay(colors + codes).meta == MetaFold(Replay(colors).meta, codes)
  {
    if codes == [] {
      assert colors + codes == colors;
    } else {
      var init, last := codes[..|codes| - 1], codes[|codes| - 1];
      assert codes == init + [last];
      assert (colors + codes)[..|colors + codes| - 1] == colors + init;
      ReplayAppend(colors, init);
      MetaFoldAppend(Replay(colors).meta, init, last);
      var before := Replay(colors + init);
      assert Replay(colors + codes) == Color(before, [last]);
      if IsFullReset([last]) {
        ShortNumbers('0' as int, '0' as int, '0' as int);
      } else {
        FoldsToMeta(Style(before.colors + [last], before.meta), [last]);
      }
    }
  }

  /** Within lists free of extended colours, one step keeps a style faithful unless it drops codes
      that still matter: a zero clears the stored codes, and codes after it are not stored again. */
  lemma PlainListKeepsFaithful(s: Style, codes: seq<seq<Byte>>)
    requires IsFaithful(s) && IsInstructionList(codes) && HasNoExtendedColor(codes)
    ensures IsFaithful(Color(s, codes)) <==> HasNoZero(codes) || Color(s, codes).IsEmpty()
  {
    if !IsFullReset(codes) {
      FoldsToMeta(Style(s.colors + codes, s.meta), codes);
      if HasNoZero(codes) {
        ReplayAppend(s.colors, codes);
      }
    }
  }

  lemma OneCodeSetsNoExtendedColor(s: Style, code: seq<Byte>)
    requires !s.meta.fgColorX && !s.meta.bgColorX
    ensures !Color(s, [code]).meta.fgColorX && !Color(s, [code]).meta.bgColorX
  {
    if !IsFullReset([code]) {
      var pen := Pen(Style(s.colors + [code], s.meta), ColorNormal);
      assert ColorFold(pen, [code]) == ColorFold(ColorStep(pen, code), []);
    }
  }

  /** A replay never reaches a 256-colour attribute: its codes arrive in separate sequences. */
  lemma {:induction false} ReplayHasNoExtendedColor(colors: seq<seq<Byte>>)
    ensures !Replay(colors).meta.fgColorX && !Replay(colors).meta.bgColorX
  {
    if colors != [] {
      ReplayHasNoExtendedColor(colors[..|colors| - 1]);
      OneCodeSetsNoExtendedColor(Replay(colors[..|colors| - 1]), colors[|colors| - 1]);
    }
  }

  /** So no style with a 256-colour attribute is printed faithfully. */
  lemma ExtendedColorIsNotFaithful(s: Style)
    requires s.meta.fgColorX || s.meta.bgColorX
    ensures !IsFaithful(s)
  {
    ReplayHasNoExtendedColor(s.colors);
  }

  /** ESC[38;5;nm is such a style for every n, and ESC[0;31m loses its colour. */
  lemma UnfaithfulLists(n: seq<Byte>)
    requires ParseUint8(n).Value?
    ensures !IsFaithful(Color(EMPTY_STYLE, [['3' as int, '8' as int], ['5' as int], n]))
    ensures Color(EMPTY_STYLE, [['3' as int, '8' as int], ['5' as int], n]).meta.fgColorX
    ensures !IsFaithful(Color(EMPTY_STYLE, [['0' as int], ['3' as int, '1' as int]]))
  {
    ShortNumbers('3' as int, '8' as int, '0' as int);
    ShortNumbers('5' as int, '0' as int, '0' as int);
    ShortNumbers('0' as int, '0' as int, '0' as int);
    ShortNumbers('3' as int, '1' as int, '0' as int);
    var a: seq<Byte>, b: seq<Byte> := ['3' as int, '8' as int], ['5' as int];
    var x := [a, b, n];
    var pen := Pen(Style(EMPTY_STYLE.colors + x, NO_META), ColorNormal);
    assert x[1..] == [b, n] && x[1..][1..] == [n];
    assert ColorFold(pen, x) == ColorFold(ColorStep(pen, a), [b, n]);
    var third := ColorStep(ColorStep(pen, a), b);
    assert ColorFold(third, [n]) == ColorStep(third, n);
    ExtendedColorIsNotFaithful(Color(EMPTY_STYLE, x));

    var zero: seq<Byte>, red: seq<Byte> := ['0' as int], ['3' as int, '1' as int];
    var z := [zero, red];
    assert z[1..] == [red] && [red][1..] == [];
    FoldsToMeta(Style(EMPTY_STYLE.colors + z, NO_META), z);
    assert MetaFold(NO_META, z) == MetaFold(NO_META, [red]) == SetAttribute(NO_META, 31);
    assert Replay([]) == EMPTY_STYLE;
    assert ParseUint8(z[0]) == Value(0);
  }

  /** Codes stored in a style are codes that were sent. */
  lemma {:induction false} FoldStoresNothingNew(pen: Pen, codes: seq<seq<Byte>>)
    ensures ColorFold(pen, codes).style.colors in {pen.style.colors, []}
    decreases codes
  {
    if codes != [] {
      FoldStoresNothingNew(ColorStep(pen, codes[0]), codes[1..]);
    }
  }

  lemma ColorKeepsPrintableCodes(s: Style, codes: seq<seq<Byte>>)
    requires HasPrintableCodes(s) && IsInstructionList(codes)
    ensures HasPrintableCodes(Color(s, codes))
  {
    if !IsFullReset(codes) {
      FoldStoresNothingNew(Pen(Style(s.colors + codes, s.meta), ColorNormal), codes);
    }
  }
}
