/** The cells of a screen and how a row of them is printed (server/terminal/node.go, output.go). */
module Cells {
  import opened Bytes
  import opened Styles
  import opened Utf8
  import opened Wrappers

  datatype ElementType = ItermImage | Image | Link | Buildkite

  /** An inline image or link. What it shows plays no part in what is proved here. */
  datatype Element = Element(elementType: ElementType, content: seq<Byte>)

  datatype Node = Node(style: Style, elem: Option<Element>, blob: Rune)

  type Row = seq<Node>

  const EMPTY_NODE := Node(EMPTY_STYLE, None, SPACE)

  const ESCAPE: Byte := 27
  const RESET: seq<Byte> := [ESCAPE, '[' as int, '0' as int, 'm' as int]

  /** One stored code as an escape sequence. */
  function CodeSequence(code: seq<Byte>): seq<Byte> {
    [ESCAPE, '[' as int] + code + ['m' as int]
  }

  /** What appendANSIStyle writes for a style with these stored codes. */
  function StyleBytes(colors: seq<seq<Byte>>): seq<Byte> {
    if colors == [] then [] else StyleBytes(colors[..|colors| - 1]) + CodeSequence(colors[|colors| - 1])
  }

  /** What is written between the cells before n and n itself. */
  function Transition(before: Row, n: Node): seq<Byte> {
    var codes := if n.style.IsEmpty() then [] else StyleBytes(n.style.colors);
    if before == [] then codes
    else
      var previous := before[|before| - 1].style;
      if n.style.IsEqual(previous) then []
      else (if previous.IsEmpty() then [] else RESET) + codes
  }

  /** The row without the final reset. */
  function Body(row: Row): seq<Byte> {
    if row == [] then []
    else
      var before, n := row[..|row| - 1], row[|row| - 1];
      Body(before) + Transition(before, n) + EncodeRune(n.blob)
  }

  /** Is a style in force after the last cell? */
  predicate EndsStyled(row: Row) {
    row != [] && !row[|row| - 1].style.IsEmpty()
  }

  /** The row as it is printed before blanks are trimmed from its end. */
  function Printed(row: Row): seq<Byte> {
    Body(row) + if EndsStyled(row) then RESET else []
  }

  predicate IsBlank(b: int) {
    b == SPACE || b == TAB
  }

  /** strings.TrimRight(s, " \t") */
  function TrimRight(s: seq<Byte>): seq<Byte> {
    if s != [] && IsBlank(s[|s| - 1]) then TrimRight(s[..|s| - 1]) else s
  }

  /** The line that a row is printed as. */
  function OutputLine(row: Row): seq<Byte> {
    TrimRight(Printed(row))
  }

  /** A line ends in no space or tab, and nothing else has been taken from it. */
  lemma {:induction false} LineEndsUnblank(row: Row)
    ensures OutputLine(row) <= Printed(row)
    ensures forall i :: |OutputLine(row)| <= i < |Printed(row)| ==> Printed(row)[i] == 32 || Printed(row)[i] == 9
    ensures OutputLine(row) != [] ==> OutputLine(row)[|OutputLine(row)| - 1] != 32
    ensures OutputLine(row) != [] ==> OutputLine(row)[|OutputLine(row)| - 1] != 9
  {
    TrimmedEndsUnblank(Printed(row));
  }

  lemma {:induction false} TrimmedEndsUnblank(s: seq<Byte>)
    ensures TrimRight(s) <= s
    ensures forall i :: |TrimRight(s)| <= i < |s| ==> s[i] == 32 || s[i] == 9
    ensures TrimRight(s) != [] ==> TrimRight(s)[|TrimRight(s)| - 1] != 32 && TrimRight(s)[|TrimRight(s)| - 1] != 9
  {
    if s != [] && IsBlank(s[|s| - 1]) {
      TrimmedEndsUnblank(s[..|s| - 1]);
    }
  }

  /** outputLineAsANSI in the form of the source: one pass with a flag for "a style is applied". */
  method OutputLineAsANSI(line: Row) returns (s: seq<Byte>)
    ensures s == OutputLine(line)
  {
    var styleApplied := false;
    var buf: seq<Byte> := [];
    for idx := 0 to |line|
      invariant buf == Body(line[..idx])
      invariant styleApplied == EndsStyled(line[..idx])
    {
      assert line[..idx + 1][..idx] == line[..idx];
      buf, styleApplied := SwitchStyle(buf, styleApplied, line, idx);
      buf := buf + EncodeRune(line[idx].blob);
    }
    assert line[..|line|] == line;
    if styleApplied {
      buf := buf + RESET;
    }
    assert buf == Printed(line);
    s := TrimRight(buf);
  }

  /** The part of a loop round that comes before the rune. */
  method SwitchStyle(buf: seq<Byte>, wasApplied: bool, line: Row, idx: nat)
    returns (r: seq<Byte>, styleApplied: bool)
    requires idx < |line| && wasApplied == EndsStyled(line[..idx])
    ensures r == buf + Transition(line[..idx], line[idx])
    ensures styleApplied == !line[idx].style.IsEmpty()
  {
    r, styleApplied := buf, wasApplied;
    var node := line[idx];
    if idx == 0 {
      if !node.style.IsEmpty() {
        r := AppendANSIStyle(r, node);
        styleApplied := true;
      }
    } else if !node.style.IsEqual(line[idx - 1].style) {
      ghost var previous := line[idx - 1].style;
      assert line[..idx][|line[..idx]| - 1].style == previous;
      ghost var reset: seq<Byte> := if previous.IsEmpty() then [] else RESET;
      ghost var codes: seq<Byte> := if node.style.IsEmpty() then [] else StyleBytes(node.style.colors);
      if styleApplied {
        r := r + RESET;
        styleApplied := false;
      }
      assert r == buf + reset by {
        assert buf + [] == buf;
      }
      ghost var before := r;
      if !node.style.IsEmpty() {
        r := AppendANSIStyle(r, node);
        styleApplied := true;
      }
      assert r == before + codes by {
        assert before + [] == before;
      }
      Reassociate(buf, reset, codes);
      assert Transition(line[..idx], node) == reset + codes;
    }
  }

  method AppendANSIStyle(buf: seq<Byte>, n: Node) returns (r: seq<Byte>)
    ensures r == buf + StyleBytes(n.style.colors)
  {
    r := buf;
    var colors := n.style.colors;
    for i := 0 to |colors|
      invariant r == buf + StyleBytes(colors[..i])
    {
      assert colors[..i + 1][..i] == colors[..i];
      r := r + CodeSequence(colors[i]);
    }
    assert colors[..|colors|] == colors;
  }

  /** A cell that trimming may remove. */
  predicate IsBlankCell(n: Node) {
    n.style.IsEmpty() && IsBlank(n.blob)
  }

  /** A row without the blank cells at its end. */
  function TrimRow(row: Row): (r: Row)
    ensures |r| <= |row| && r == row[..|r|]
  {
    if row != [] && IsBlankCell(row[|row| - 1]) then TrimRow(row[..|row| - 1]) else row
  }

  lemma {:induction false} TrimRowIsMaximal(row: Row)
    ensures TrimRow(row) == [] || !IsBlankCell(TrimRow(row)[|TrimRow(row)| - 1])
    ensures forall j :: |TrimRow(row)| <= j < |row| ==> IsBlankCell(row[j])
  {
    if row != [] && IsBlankCell(row[|row| - 1]) {
      TrimRowIsMaximal(row[..|row| - 1]);
    }
  }

  lemma TrimRightStopsAt(s: seq<Byte>, last: Byte)
    requires !IsBlank(last)
    ensures TrimRight(s + [last]) == s + [last]
  {
  }

  /** A last cell without a style adds nothing but its rune. */
  lemma PrintedPlainCell(row: Row)
    requires row != [] && !EndsStyled(row)
    ensures Printed(row) == Printed(row[..|row| - 1]) + EncodeRune(row[|row| - 1].blob)
  {
    var before, n := row[..|row| - 1], row[|row| - 1];
    assert Transition(before, n) == if EndsStyled(before) then RESET else [];
    assert Body(row) == Printed(before) + EncodeRune(n.blob);
    assert Printed(row) == Body(row);
  }

  /** Trimming takes a blank rune off the end and stops at any other. */
  lemma TrimLastRune(front: seq<Byte>, r: Rune)
    requires IsScalar(r)
    ensures TrimRight(front + EncodeRune(r)) == if IsBlank(r) then TrimRight(front) else front + EncodeRune(r)
  {
    var e := EncodeRune(r);
    EncodingRoundTrip(r, []);
    if IsBlank(r) {
      assert e == [r];
      assert (front + e)[..|front|] == front;
    } else {
      assert !IsBlank(e[|e| - 1]);
      assert front + e == (front + e[..|e| - 1]) + [e[|e| - 1]];
      TrimRightStopsAt(front + e[..|e| - 1], e[|e| - 1]);
    }
  }

  lemma StyledLineIsKept(row: Row)
    requires EndsStyled(row)
    ensures OutputLine(row) == Printed(row)
  {
    assert Printed(row) == (Body(row) + RESET[..3]) + ['m' as int];
    TrimRightStopsAt(Body(row) + RESET[..3], 'm' as int);
  }

  /** Trimming the printed bytes is the same as trimming the cells: it never reaches into a
      styled run, whose reset sequence ends in a letter. */
  lemma {:induction false} OutputLineTrimsCells(row: Row)
    requires forall i :: 0 <= i < |row| ==> IsScalar(row[i].blob)
    ensures OutputLine(row) == Printed(TrimRow(row))
  {
    if EndsStyled(row) {
      StyledLineIsKept(row);
    } else if row != [] {
      var before, n := row[..|row| - 1], row[|row| - 1];
      PrintedPlainCell(row);
      TrimLastRune(Printed(before), n.blob);
      if IsBlank(n.blob) {
        OutputLineTrimsCells(before);
      }
    }
  }
}
