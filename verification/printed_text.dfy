/** Printed text consists of whole characters, whatever the input was. */
module PrintedText {
  import opened Bytes
  import opened Cells
  import opened Reachable
  import opened RoundTrip
  import opened ScreenSpec
  import opened Strconv
  import opened Styles
  import opened Utf8

  lemma CodeIsWhole(code: seq<Byte>)
    requires IsParameter(code)
    ensures EndsOnRuneBoundary(CodeSequence(code))
  {
    AsciiEndsOnRuneBoundary(CodeSequence(code));
  }

  lemma {:induction false} StyleBytesAreWhole(colors: seq<seq<Byte>>)
    requires forall i :: 0 <= i < |colors| ==> IsParameter(colors[i])
    ensures EndsOnRuneBoundary(StyleBytes(colors))
  {
    if colors != [] {
      StyleBytesAreWhole(colors[..|colors| - 1]);
      CodeIsWhole(colors[|colors| - 1]);
      BoundaryAppend(StyleBytes(colors[..|colors| - 1]), CodeSequence(colors[|colors| - 1]));
    }
  }

  lemma TransitionIsWhole(before: Row, n: Node)
    requires HasPrintableCodes(n.style)
    ensures EndsOnRuneBoundary(Transition(before, n)) && EndsOnRuneBoundary(RESET)
  {
    StyleBytesAreWhole(n.style.colors);
    AsciiEndsOnRuneBoundary(RESET);
    BoundaryAppend(RESET, StyleBytes(n.style.colors));
    assert [] + StyleBytes(n.style.colors) == StyleBytes(n.style.colors) && RESET + [] == RESET;
  }

  lemma {:induction false} BodyIsWhole(row: Row)
    requires IsGoodRow(row, false)
    ensures EndsOnRuneBoundary(Body(row))
  {
    if row != [] {
      var before, n := row[..|row| - 1], row[|row| - 1];
      BodyIsWhole(before);
      TransitionIsWhole(before, n);
      EncodingRoundTrip(n.blob, []);
      BoundaryAppend(Body(before), Transition(before, n));
      BoundaryAppend(Body(before) + Transition(before, n), EncodeRune(n.blob));
    }
  }

  lemma LineIsWhole(row: Row)
    requires IsGoodRow(row, false)
    ensures EndsOnRuneBoundary(OutputLine(row))
  {
    var kept := TrimRow(row);
    OutputLineTrimsCells(row);
    BodyIsWhole(kept);
    AsciiEndsOnRuneBoundary(RESET);
    BoundaryAppend(Body(kept), RESET);
    assert Body(kept) + [] == Body(kept);
  }

  lemma NewlineIsWhole()
    ensures EndsOnRuneBoundary([NEWLINE])
  {
    AsciiEndsOnRuneBoundary([NEWLINE]);
  }

  predicate AreGoodRows(rows: seq<Row>) {
    forall i :: 0 <= i < |rows| ==> IsGoodRow(rows[i], false)
  }

  /** What a screen prints never ends within a character. */
  lemma {:induction false} TextIsWhole(rows: seq<Row>)
    requires AreGoodRows(rows)
    ensures EndsOnRuneBoundary(AsANSI(rows))
  {
    if rows != [] {
      LineIsWhole(rows[0]);
      if |rows| > 1 {
        TextIsWhole(rows[1..]);
        assert OutputLines(rows)[1..] == OutputLines(rows[1..]);
        NewlineIsWhole();
        BoundaryAppend(OutputLine(rows[0]), [NEWLINE]);
        BoundaryAppend(OutputLine(rows[0]) + [NEWLINE], AsANSI(rows[1..]));
      }
    }
  }
}
