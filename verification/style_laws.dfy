/** What the codes of a colour sequence mean: for each attribute, the last one that concerns it decides
    (style.color in server/terminal/style.go). */
module StyleLaws {
  import opened Bytes
  import opened Strconv
  import opened Styles
  import opened Wrappers

  /** What an instruction list says, item by item. */
  datatype Item = Attribute(n: nat) | Foreground(n: nat) | Background(n: nat)

  /** The numbers in the list; whatever else it contains is skipped. */
  function Numbers(codes: seq<seq<Byte>>): seq<nat> {
    if codes == [] then []
    else (if IsNumber(codes[0]) then [Decimal(codes[0])] else []) + Numbers(codes[1..])
  }

  /** 38 and 48 take two more numbers if the first of these is 5, and one otherwise. */
  function Items(ns: seq<nat>): seq<Item> {
    if ns == [] then []
    else if ns[0] != 38 && ns[0] != 48 then [Attribute(ns[0])] + Items(ns[1..])
    else if |ns| == 1 then []
    else if ns[1] != 5 then Items(ns[2..])
    else if |ns| == 2 then []
    else [if ns[0] == 38 then Foreground(ns[2]) else Background(ns[2])] + Items(ns[3..])
  }

  /** A list without instructions, and one of a single zero, say the same. */
  function ItemsOf(codes: seq<seq<Byte>>): seq<Item> {
    if codes == [[]] then [Attribute(0)] else Items(Numbers(codes))
  }

  /** The last item of a kind. */
  function LastThat(items: seq<Item>, kind: Item -> bool): Option<Item> {
    if items == [] then None
    else
      var later := LastThat(items[1..], kind);
      if later.Some? then later else if kind(items[0]) then Some(items[0]) else None
  }

  /** An attribute that some codes switch on, and others, zero among them, switch off. */
  predicate Switched(before: bool, items: seq<Item>, on: set<nat>, off: set<nat>) {
    match LastThat(items, (i: Item) => i.Attribute? && (i.n in on || i.n in off || i.n == 0))
    case None => before
    case Some(i) => i.n in on
  }

  predicate SetsForeground(i: Item) {
    i.Foreground? || (i.Attribute? && (30 <= i.n <= 37 || 90 <= i.n <= 97 || i.n == 39 || i.n == 0))
  }

  predicate SetsBackground(i: Item) {
    i.Background? || (i.Attribute? && (40 <= i.n <= 47 || 100 <= i.n <= 107 || i.n == 49 || i.n == 0))
  }

  /** The number of a colour; 39, 49 and 0 take it away. */
  function ColorNumber(i: Item): nat {
    if i == Attribute(39) || i == Attribute(49) then 0 else i.n
  }

  predicate IsColored(before: (nat, bool), after: (nat, bool), items: seq<Item>, kind: Item -> bool) {
    match LastThat(items, kind)
    case None => after == before
    case Some(i) => after == (ColorNumber(i), !i.Attribute?)
  }

  /** The law for all attributes. */
  predicate Decides(before: StyleMeta, items: seq<Item>, after: StyleMeta) {
    && after.bold == Switched(before.bold, items, {1}, {2, 21, 22})
    && after.faint == Switched(before.faint, items, {2}, {1, 21, 22})
    && after.italic == Switched(before.italic, items, {3}, {23})
    && after.underline == Switched(before.underline, items, {4}, {24})
    && after.blink == Switched(before.blink, items, {5, 6}, {25})
    && after.strike == Switched(before.strike, items, {9}, {29})
    && IsColored((before.fgColor, before.fgColorX), (after.fgColor, after.fgColorX), items, SetsForeground)
    && IsColored((before.bgColor, before.bgColorX), (after.bgColor, after.bgColorX), items, SetsBackground)
  }

  // ----- one item after the other -----

  lemma LastThatOfLonger(item: Item, items: seq<Item>, kind: Item -> bool)
    ensures LastThat([item], kind) == if kind(item) then Some(item) else None
    ensures LastThat([item] + items, kind)
      == if LastThat(items, kind).Some? then LastThat(items, kind) else LastThat([item], kind)
  {
    assert ([item] + items)[1..] == items && [item][1..] == [];
  }

  lemma SwitchedTwice(before: bool, item: Item, items: seq<Item>, on: set<nat>, off: set<nat>)
    ensures Switched(before, [item] + items, on, off)
      == Switched(Switched(before, [item], on, off), items, on, off)
  {
    LastThatOfLonger(item, items, (i: Item) => i.Attribute? && (i.n in on || i.n in off || i.n == 0));
  }

  lemma ColoredTwice(
      before: (nat, bool), between: (nat, bool), after: (nat, bool), item: Item, items: seq<Item>, kind: Item -> bool)
    requires IsColored(before, between, [item], kind) && IsColored(between, after, items, kind)
    ensures IsColored(before, after, [item] + items, kind)
  {
    LastThatOfLonger(item, items, kind);
  }

  lemma DecidesTwice(before: StyleMeta, item: Item, between: StyleMeta, items: seq<Item>, after: StyleMeta)
    requires Decides(before, [item], between) && Decides(between, items, after)
    ensures Decides(before, [item] + items, after)
  {
    SwitchedTwice(before.bold, item, items, {1}, {2, 21, 22});
    SwitchedTwice(before.faint, item, items, {2}, {1, 21, 22});
    SwitchedTwice(before.italic, item, items, {3}, {23});
    SwitchedTwice(before.underline, item, items, {4}, {24});
    SwitchedTwice(before.blink, item, items, {5, 6}, {25});
    SwitchedTwice(before.strike, item, items, {9}, {29});
    ColoredTwice(
      (before.fgColor, before.fgColorX), (between.fgColor, between.fgColorX), (after.fgColor, after.fgColorX),
      item, items, SetsForeground);
    ColoredTwice(
      (before.bgColor, before.bgColorX), (between.bgColor, between.bgColorX), (after.bgColor, after.bgColorX),
      item, items, SetsBackground);
  }

  lemma NothingDecides(meta: StyleMeta)
    ensures Decides(meta, [], meta)
  {
  }

  lemma OneSwitch(before: bool, item: Item, on: set<nat>, off: set<nat>)
    ensures Switched(before, [item], on, off)
      == if item.Attribute? && (item.n in on || item.n in off || item.n == 0) then item.n in on else before
  {
    LastThatOfLonger(item, [], (i: Item) => i.Attribute? && (i.n in on || i.n in off || i.n == 0));
  }

  lemma OneItemSwitches(meta: StyleMeta, item: Item)
    ensures Switched(meta.bold, [item], {1}, {2, 21, 22})
      == if item.Attribute? && item.n in {0, 1, 2, 21, 22} then item.n == 1 else meta.bold
    ensures Switched(meta.faint, [item], {2}, {1, 21, 22})
      == if item.Attribute? && item.n in {0, 1, 2, 21, 22} then item.n == 2 else meta.faint
    ensures Switched(meta.italic, [item], {3}, {23})
      == if item.Attribute? && item.n in {0, 3, 23} then item.n == 3 else meta.italic
    ensures Switched(meta.underline, [item], {4}, {24})
      == if item.Attribute? && item.n in {0, 4, 24} then item.n == 4 else meta.underline
    ensures Switched(meta.blink, [item], {5, 6}, {25})
      == if item.Attribute? && item.n in {0, 5, 6, 25} then item.n in {5, 6} else meta.blink
    ensures Switched(meta.strike, [item], {9}, {29})
      == if item.Attribute? && item.n in {0, 9, 29} then item.n == 9 else meta.strike
  {
    OneSwitch(meta.bold, item, {1}, {2, 21, 22});
    OneSwitch(meta.faint, item, {2}, {1, 21, 22});
    OneSwitch(meta.italic, item, {3}, {23});
    OneSwitch(meta.underline, item, {4}, {24});
    OneSwitch(meta.blink, item, {5, 6}, {25});
    OneSwitch(meta.strike, item, {9}, {29});
  }

  lemma OneItemColors(before: (nat, bool), after: (nat, bool), item: Item, kind: Item -> bool)
    ensures IsColored(before, after, [item], kind)
      <==> after == if kind(item) then (ColorNumber(item), !item.Attribute?) else before
  {
    LastThatOfLonger(item, [], kind);
  }

  lemma ColorsDecide(meta: StyleMeta, item: Item, r: StyleMeta)
    ensures IsColored((meta.fgColor, meta.fgColorX), (r.fgColor, r.fgColorX), [item], SetsForeground) <==>
      (r.fgColor, r.fgColorX)
        == (if SetsForeground(item) then (ColorNumber(item), !item.Attribute?) else (meta.fgColor, meta.fgColorX))
    ensures IsColored((meta.bgColor, meta.bgColorX), (r.bgColor, r.bgColorX), [item], SetsBackground) <==>
      (r.bgColor, r.bgColorX)
        == (if SetsBackground(item) then (ColorNumber(item), !item.Attribute?) else (meta.bgColor, meta.bgColorX))
  {
    OneItemColors((meta.fgColor, meta.fgColorX), (r.fgColor, r.fgColorX), item, SetsForeground);
    OneItemColors((meta.bgColor, meta.bgColorX), (r.bgColor, r.bgColorX), item, SetsBackground);
  }

  /** The law for a single item. */
  lemma OneItemDecides(meta: StyleMeta, item: Item, r: StyleMeta)
    requires var n := if item.Attribute? then item.n else 7;
      && r.bold == (if n in {0, 1, 2, 21, 22} then n == 1 else meta.bold)
      && r.faint == (if n in {0, 1, 2, 21, 22} then n == 2 else meta.faint)
      && r.italic == (if n in {0, 3, 23} then n == 3 else meta.italic)
      && r.underline == (if n in {0, 4, 24} then n == 4 else meta.underline)
      && r.blink == (if n in {0, 5, 6, 25} then n in {5, 6} else meta.blink)
      && r.strike == (if n in {0, 9, 29} then n == 9 else meta.strike)
    requires (r.fgColor, r.fgColorX)
      == if SetsForeground(item) then (ColorNumber(item), !item.Attribute?) else (meta.fgColor, meta.fgColorX)
    requires (r.bgColor, r.bgColorX)
      == if SetsBackground(item) then (ColorNumber(item), !item.Attribute?) else (meta.bgColor, meta.bgColorX)
    ensures Decides(meta, [item], r)
  {
    OneItemSwitches(meta, item);
    ColorsDecide(meta, item, r);
  }

  /** Do any of the attributes depend on this code? */
  predicate IsKnown(cc: nat) {
    0 <= cc <= 6 || cc == 9 || 21 <= cc <= 25 || cc == 29 || 30 <= cc <= 37 || cc == 39
    || 40 <= cc <= 47 || cc == 49 || 90 <= cc <= 97 || 100 <= cc <= 107
  }

  lemma FontCode(meta: StyleMeta, cc: nat)
    requires cc == 1 || cc == 2 || cc == 21 || cc == 22
    ensures SetAttribute(meta, cc) == meta.(bold := cc == 1, faint := cc == 2)
    ensures Decides(meta, [Attribute(cc)], SetAttribute(meta, cc))
  {
    OneItemDecides(meta, Attribute(cc), meta.(bold := cc == 1, faint := cc == 2));
  }

  lemma ItalicCode(meta: StyleMeta, cc: nat)
    requires cc == 3 || cc == 23
    ensures SetAttribute(meta, cc) == meta.(italic := cc == 3)
    ensures Decides(meta, [Attribute(cc)], SetAttribute(meta, cc))
  {
    OneItemDecides(meta, Attribute(cc), meta.(italic := cc == 3));
  }

  lemma UnderlineCode(meta: StyleMeta, cc: nat)
    requires cc == 4 || cc == 24
    ensures SetAttribute(meta, cc) == meta.(underline := cc == 4)
    ensures Decides(meta, [Attribute(cc)], SetAttribute(meta, cc))
  {
    OneItemDecides(meta, Attribute(cc), meta.(underline := cc == 4));
  }

  lemma BlinkCode(meta: StyleMeta, cc: nat)
    requires cc == 5 || cc == 6 || cc == 25
    ensures SetAttribute(meta, cc) == meta.(blink := cc != 25)
    ensures Decides(meta, [Attribute(cc)], SetAttribute(meta, cc))
  {
    OneItemDecides(meta, Attribute(cc), meta.(blink := cc != 25));
  }

  lemma StrikeCode(meta: StyleMeta, cc: nat)
    requires cc == 9 || cc == 29
    ensures SetAttribute(meta, cc) == meta.(strike := cc == 9)
    ensures Decides(meta, [Attribute(cc)], SetAttribute(meta, cc))
  {
    OneItemDecides(meta, Attribute(cc), meta.(strike := cc == 9));
  }

  lemma ForegroundCode(meta: StyleMeta, cc: nat)
    requires 30 <= cc <= 37 || 90 <= cc <= 97 || cc == 39
    ensures SetAttribute(meta, cc) == meta.(fgColor := if cc == 39 then 0 else cc, fgColorX := false)
    ensures Decides(meta, [Attribute(cc)], SetAttribute(meta, cc))
  {
    OneItemDecides(meta, Attribute(cc), meta.(fgColor := if cc == 39 then 0 else cc, fgColorX := false));
  }

  lemma BackgroundCode(meta: StyleMeta, cc: nat)
    requires 40 <= cc <= 47 || 100 <= cc <= 107 || cc == 49
    ensures SetAttribute(meta, cc) == meta.(bgColor := if cc == 49 then 0 else cc, bgColorX := false)
    ensures Decides(meta, [Attribute(cc)], SetAttribute(meta, cc))
  {
    OneItemDecides(meta, Attribute(cc), meta.(bgColor := if cc == 49 then 0 else cc, bgColorX := false));
  }

  lemma LowUnknownCode(meta: StyleMeta, cc: nat)
    requires !IsKnown(cc) && cc < 30
    ensures SetAttribute(meta, cc) == meta
  {
  }

  lemma HighUnknownCode(meta: StyleMeta, cc: nat)
    requires !IsKnown(cc) && 50 <= cc <= 255
    ensures SetAttribute(meta, cc) == meta
  {
  }

  lemma AttributeDecides(meta: StyleMeta, cc: nat)
    requires cc <= 255 && cc != 38 && cc != 48
    ensures Decides(meta, [Attribute(cc)], SetAttribute(meta, cc))
  {
    if cc == 0 {
      OneItemDecides(meta, Attribute(0), NO_META);
    } else if cc == 1 || cc == 2 || cc == 21 || cc == 22 {
      FontCode(meta, cc);
    } else if cc == 3 || cc == 23 {
      ItalicCode(meta, cc);
    } else if cc == 4 || cc == 24 {
      UnderlineCode(meta, cc);
    } else if cc == 5 || cc == 6 || cc == 25 {
      BlinkCode(meta, cc);
    } else if cc == 9 || cc == 29 {
      StrikeCode(meta, cc);
    } else if 30 <= cc <= 37 || 90 <= cc <= 97 || cc == 39 {
      ForegroundCode(meta, cc);
    } else if 40 <= cc <= 47 || 100 <= cc <= 107 || cc == 49 {
      BackgroundCode(meta, cc);
    } else {
      UnknownCode(meta, cc);
    }
  }

  lemma UnknownCode(meta: StyleMeta, cc: nat)
    requires !IsKnown(cc) && cc <= 255 && cc != 38 && cc != 48
    ensures Decides(meta, [Attribute(cc)], SetAttribute(meta, cc))
  {
    OneItemDecides(meta, Attribute(cc), meta);
    if cc < 30 {
      LowUnknownCode(meta, cc);
    } else {
      HighUnknownCode(meta, cc);
    }
  }

  lemma ColorDecides(meta: StyleMeta, n: Byte)
    ensures Decides(meta, [Foreground(n)], meta.(fgColor := n, fgColorX := true))
    ensures Decides(meta, [Background(n)], meta.(bgColor := n, bgColorX := true))
  {
    OneItemDecides(meta, Foreground(n), meta.(fgColor := n, fgColorX := true));
    OneItemDecides(meta, Background(n), meta.(bgColor := n, bgColorX := true));
  }

  // ----- whole lists -----

  /** The numbers already read, which the mode of the loop stands for. */
  function Pending(mode: ColorMode): seq<nat> {
    match mode
    case ColorNormal => []
    case Got38Need5 => [38]
    case Got48Need5 => [48]
    case Got38 => [38, 5]
    case Got48 => [48, 5]
  }

  /** What one number completes. */
  lemma OneMoreNumber(mode: ColorMode, n: nat, ns: seq<nat>)
    ensures var all := Pending(mode) + [n] + ns;
      match mode
      case ColorNormal =>
        if n == 38 then all == Pending(Got38Need5) + ns
        else if n == 48 then all == Pending(Got48Need5) + ns
        else Items(all) == [Attribute(n)] + Items(ns)
      case Got38Need5 => if n == 5 then all == Pending(Got38) + ns else Items(all) == Items(ns)
      case Got48Need5 => if n == 5 then all == Pending(Got48) + ns else Items(all) == Items(ns)
      case Got38 => Items(all) == [Foreground(n)] + Items(ns)
      case Got48 => Items(all) == [Background(n)] + Items(ns)
  {
    var all := Pending(mode) + [n] + ns;
    assert all[|Pending(mode)| + 1..] == ns;
  }

  /** The loop decides each attribute by the last item that concerns it; and it keeps the stored codes
      unless an item resets them. */
  lemma {:induction false} FoldDecides(pen: Pen, codes: seq<seq<Byte>>)
    ensures var items := Items(Pending(pen.mode) + Numbers(codes)); var r := ColorFold(pen, codes).style;
      && Decides(pen.style.meta, items, r.meta)
      && r.colors == if Attribute(0) in items then [] else pen.style.colors
    decreases codes
  {
    if codes == [] {
      assert Pending(pen.mode) + [] == Pending(pen.mode);
      assert Items(Pending(pen.mode)) == [];
      NothingDecides(pen.style.meta);
    } else {
      var code, rest := codes[0], codes[1..];
      ParsesDecimals(code);
      var next := ColorStep(pen, code);
      FoldDecides(next, rest);
      if !IsNumber(code) {
        assert [] + Numbers(rest) == Numbers(rest);
      } else {
        OneNumberDecides(pen, code, rest);
      }
    }
  }

  /** The item that a number completes in this mode, if any. */
  function Completed(mode: ColorMode, n: nat): Option<Item> {
    match mode
    case ColorNormal => if n == 38 || n == 48 then None else Some(Attribute(n))
    case Got38 => Some(Foreground(n))
    case Got48 => Some(Background(n))
    case _ => None
  }

  lemma StepCompletesItem(pen: Pen, code: seq<Byte>, n: nat)
    requires ParseUint8(code) == Value(n) && Completed(pen.mode, n).Some?
    ensures var next, item := ColorStep(pen, code), Completed(pen.mode, n).value;
      && next.mode == ColorNormal
      && Decides(pen.style.meta, [item], next.style.meta)
      && next.style.colors == if item == Attribute(0) then [] else pen.style.colors
  {
    if pen.mode == ColorNormal {
      AttributeDecides(pen.style.meta, n);
      OneItemDecides(pen.style.meta, Attribute(0), NO_META);
    } else {
      ColorDecides(pen.style.meta, n);
    }
  }

  lemma OneNumberDecides(pen: Pen, code: seq<Byte>, rest: seq<seq<Byte>>)
    requires IsNumber(code) && ParseUint8(code) == Value(Decimal(code))
    requires var next := ColorStep(pen, code);
      var items := Items(Pending(next.mode) + Numbers(rest)); var r := ColorFold(next, rest).style;
      && Decides(next.style.meta, items, r.meta)
      && r.colors == if Attribute(0) in items then [] else next.style.colors
    ensures var items := Items(Pending(pen.mode) + Numbers([code] + rest));
      var r := ColorFold(ColorStep(pen, code), rest).style;
      && Decides(pen.style.meta, items, r.meta)
      && r.colors == if Attribute(0) in items then [] else pen.style.colors
  {
    var n, ns, next := Decimal(code), Numbers(rest), ColorStep(pen, code);
    assert ([code] + rest)[1..] == rest;
    assert Pending(pen.mode) + ([n] + ns) == Pending(pen.mode) + [n] + ns;
    OneMoreNumber(pen.mode, n, ns);
    assert [] + ns == ns;
    if Completed(pen.mode, n).Some? {
      var item := Completed(pen.mode, n).value;
      StepCompletesItem(pen, code, n);
      DecidesTwice(pen.style.meta, item, next.style.meta, Items(ns), ColorFold(next, rest).style.meta);
    }
  }

  /** For every list of codes and every old style: the last item that concerns an attribute decides it,
      and an attribute that none concerns stays. The codes are stored behind the old ones unless one of
      them is a reset. */
  lemma LastCodeDecides(s: Style, codes: seq<seq<Byte>>)
    ensures Decides(s.meta, ItemsOf(codes), Color(s, codes).meta)
    ensures Color(s, codes).colors == if Attribute(0) in ItemsOf(codes) then [] else s.colors + codes
  {
    if IsFullReset(codes) {
      ResetDecides(s.meta, codes);
    } else {
      assert Pending(ColorNormal) + Numbers(codes) == Numbers(codes);
      FoldDecides(Pen(Style(s.colors + codes, s.meta), ColorNormal), codes);
    }
  }

  lemma ResetDecides(meta: StyleMeta, codes: seq<seq<Byte>>)
    requires IsFullReset(codes)
    ensures ItemsOf(codes) == [Attribute(0)] && Decides(meta, [Attribute(0)], NO_META)
  {
    AttributeDecides(meta, 0);
    if codes[0] == RESET_CODE {
      assert codes == [RESET_CODE] && codes[1..] == [];
      assert RESET_CODE[..0] == [] && Decimal(RESET_CODE) == 0;
      assert Numbers(codes) == [0] + Numbers([]) == [0];
      assert [0][1..] == [] && Items([0]) == [Attribute(0)] + Items([]);
    } else {
      assert codes == [[]];
    }
  }
}
