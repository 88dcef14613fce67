/** The screen as an object (server/terminal/screen.go): every method is tied to the function
    of the same name on screen values. */
module Screens {
  import opened Bytes
  import opened Cells
  import opened ScreenSpec
  import opened Styles
  import opened Wrappers

  class Screen {
    var style: Style
    var rows: seq<Row>
    var x: int
    var y: int
    const maxLines: int
    ghost var past: History

    ghost function State(): ScreenState
      reads this
    {
      ScreenState(rows, x, y, style, maxLines, past)
    }

    constructor (maxLines: int)
      ensures State() == NewScreen(maxLines)
    {
      this.maxLines := maxLines;
      style, rows, x, y, past := EMPTY_STYLE, [], 0, 0, NO_HISTORY;
    }

    method Clear(y: int, xStart: int, xEnd: int)
      requires 0 <= y && 0 <= xStart
      modifies this`rows
      ensures State() == ScreenSpec.Clear(old(State()), y, xStart, xEnd)
    {
      if |rows| <= y {
        return;
      }
      if xStart == START_OF_LINE && xEnd == END_OF_LINE {
        rows := rows[y := []];
      } else {
        var line := rows[y];
        var end := if xEnd == END_OF_LINE then |line| - 1 else xEnd;
        var i := xStart;
        while i <= end && i < |line|
          invariant xStart <= i && |line| == |rows[y]|
          invariant i > xStart ==> i <= end + 1 && i <= |line|
          invariant forall k :: 0 <= k < |line| ==>
            line[k] == if xStart <= k < i then EMPTY_NODE else rows[y][k]
        {
          line := line[i := EMPTY_NODE];
          i := i + 1;
        }
        assert line == ClearedLine(rows[y], xStart, end);
        rows := rows[y := line];
      }
    }

    method Up(i: seq<Byte>)
      modifies this`y, this`past
      ensures State() == ScreenSpec.Up(old(State()), i)
    {
      y := y - Pi(i);
      if y < 0 {
        past := past.(clamped := past.clamped || past.removed != []);
        y := 0;
      }
    }

    method Down(i: seq<Byte>)
      modifies this`y
      ensures State() == ScreenSpec.Down(old(State()), i)
    {
      y := y + Pi(i);
    }

    method Forward(i: seq<Byte>)
      modifies this`x
      ensures State() == ScreenSpec.Forward(old(State()), i)
    {
      x := x + Pi(i);
    }

    method Backward(i: seq<Byte>)
      modifies this`x
      ensures State() == ScreenSpec.Backward(old(State()), i)
    {
      x := x - Pi(i);
      x := if x < 0 then 0 else x;
    }

    method GrowScreenHeight()
      modifies this`rows, this`y, this`past
      ensures State() == GrowHeight(old(State()))
    {
      var i := |rows|;
      while i <= y
        invariant |old(rows)| <= i == |rows| && (i > |old(rows)| ==> i <= y + 1)
        invariant rows == old(rows) + BlankRows(i - |old(rows)|)
        invariant y == old(y) && past == old(past)
      {
        rows := rows + [[]];
        i := i + 1;
      }
      assert rows == Extended(old(rows), y);
      if maxLines > 0 {
        var extraLines := |rows| - maxLines;
        if extraLines > 0 {
          past := past.(removed := past.removed + rows[..extraLines], lost := past.lost + extraLines);
          rows := rows[extraLines..];
          y := y - extraLines;
          if y < 0 {
            y := 0;
          }
        }
      }
    }

    method GrowLineWidth(line: Row) returns (r: Row)
      ensures r == GrowWidth(line, x)
    {
      r := line;
      for i := |line| to (if |line| <= x then x + 1 else |line|)
        invariant r == line + BlankNodes(i - |line|)
      {
        r := r + [EMPTY_NODE];
      }
    }

    method PutNode(n: Node)
      requires Valid(State())
      modifies this`rows, this`y, this`past
      ensures State() == Put(old(State()), n)
    {
      GrowHeightKeepsCursor(State());
      GrowScreenHeight();
      var line := rows[y];
      line := GrowLineWidth(line);
      line := line[x := n];
      rows := rows[y := line];
    }

    method Write(data: Rune)
      requires Valid(State())
      modifies this`rows, this`y, this`past
      ensures State() == ScreenSpec.Write(old(State()), data)
    {
      PutNode(Node(style, None, data));
    }

    method Append(data: Rune)
      requires Valid(State())
      modifies this`rows, this`x, this`y, this`past
      ensures State() == AppendChar(old(State()), data)
    {
      Write(data);
      x := x + 1;
    }

    method AppendMany(data: seq<Rune>)
      requires Valid(State())
      modifies this`rows, this`x, this`y, this`past
      ensures State() == ScreenSpec.AppendMany(old(State()), data)
    {
      for i := 0 to |data|
        invariant Valid(State())
        invariant ScreenSpec.AppendMany(State(), data[i..]) == ScreenSpec.AppendMany(old(State()), data)
      {
        assert data[i..][0] == data[i] && data[i..][1..] == data[i + 1..];
        Append(data[i]);
      }
    }

    method AppendElement(e: Element)
      requires Valid(State())
      modifies this`rows, this`x, this`y, this`past
      ensures State() == ScreenSpec.AppendElement(old(State()), e)
    {
      PutNode(Node(style, Some(e), 0));
      x := x + 1;
    }

    method Color(i: seq<seq<Byte>>)
      modifies this`style
      ensures State() == old(State()).(style := Styles.Color(old(style), i))
    {
      style := ApplyColors(style, i);
    }

    method ApplyEscape(code: Rune, instructions: seq<seq<Byte>>)
      requires Valid(State())
      modifies this
      ensures State() == ScreenSpec.ApplyEscape(old(State()), code, instructions)
    {
      var args: seq<seq<Byte>> := instructions;
      if |args| == 0 {
        args := [[]];
      }
      if code == 'M' as int {
        Color(args);
      } else if code == 'G' as int {
        x := 0;
      } else if code == 'K' as int {
        if args[0] == ['0' as int] || args[0] == [] {
          Clear(y, x, END_OF_LINE);
        } else if args[0] == ['1' as int] {
          Clear(y, START_OF_LINE, x);
        } else if args[0] == ['2' as int] {
          Clear(y, START_OF_LINE, END_OF_LINE);
        }
      } else if code == 'A' as int {
        Up(args[0]);
      } else if code == 'B' as int {
        Down(args[0]);
      } else if code == 'C' as int {
        Forward(args[0]);
      } else if code == 'D' as int {
        Backward(args[0]);
      }
    }

    method StartNewLine()
      modifies this`x, this`y
      ensures State() == ScreenSpec.StartNewLine(old(State()))
    {
      x := 0;
      y := y + 1;
    }

    method CarriageReturn()
      modifies this`x
      ensures State() == old(State()).(x := 0)
    {
      x := 0;
    }

    method Backspace()
      modifies this`x
      ensures State() == StepBack(old(State()))
    {
      if x > 0 {
        x := x - 1;
      }
    }

    method AsANSI() returns (text: seq<Byte>)
      ensures text == ScreenSpec.AsANSI(rows)
    {
      text := RowsAsANSI(rows);
    }

    /** Takes finished rows off the top and returns them as text. */
    method PopExtraLines(linesToRetain: nat) returns (popped: seq<Byte>)
      requires Valid(State())
      modifies this`rows, this`y, this`past
      ensures State() == Pop(old(State()), linesToRetain)
      ensures popped == ScreenSpec.AsANSI(old(rows)[..PopCount(old(State()), linesToRetain)])
    {
      var extraLines := |rows| - linesToRetain;
      if extraLines > y {
        extraLines := y;
      }
      if extraLines < 1 {
        return [];
      }
      popped := RowsAsANSI(rows[..extraLines]);
      past := past.(removed := past.removed + rows[..extraLines]);
      rows := rows[extraLines..];
      y := y - extraLines;
    }
  }

  lemma OneMoreLine(rows: seq<Row>, i: nat)
    requires i < |rows|
    ensures OutputLines(rows[..i + 1]) == OutputLines(rows[..i]) + [OutputLine(rows[i])]
  {
  }

  method RowsAsANSI(rows: seq<Row>) returns (text: seq<Byte>)
    ensures text == AsANSI(rows)
  {
    var lines: seq<seq<Byte>> := [];
    for i := 0 to |rows|
      invariant lines == OutputLines(rows[..i])
    {
      var line := OutputLineAsANSI(rows[i]);
      OneMoreLine(rows, i);
      lines := lines + [line];
    }
    assert rows[..|rows|] == rows;
    text := Join(lines);
  }
}
