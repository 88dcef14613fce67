/** Nothing of the log gets lost or doubled on its way through the log writer: what it has flushed
    and the volatile tail make up what the untrimmed screen prints. */
module Conservation {
  import opened Bytes
  import opened Cells
  import opened ParserSpec
  import opened ScreenSpec
  import opened Windows

  /** The rows that have gone, as a log should show them. */
  function Owed(s: ScreenState): seq<Byte> {
    Terminated(OutputLines(s.past.removed))
  }

  /** What has been flushed falls short of what is owed by at least one byte for each row that the
      cap dropped and each write that silently popped an empty row, and by nothing otherwise. */
  predicate IsSettled(s: ScreenState, flushed: seq<Byte>, silent: nat) {
    && s.past.lost >= 0
    && |flushed| + silent + s.past.lost <= |Owed(s)|
    && (silent == 0 && s.past.lost == 0 ==> flushed == Owed(s))
  }

  /** What a log should show of this writer's output: the rows that have gone, and then the current ones. */
  function OwnText(w: WriterState): seq<Byte> {
    Owed(w.screen) + AsANSI(w.screen.rows)
  }

  /** If every row has been popped, the last newline flushed has no row after it. */
  function LastNewline(s: ScreenState): seq<Byte> {
    if s.rows == [] && s.past.removed != [] then [NEWLINE] else []
  }

  predicate IsAccounted(w: WriterState, retain: nat) {
    && IsWriter(w)
    && (retain >= 1 ==> LastNewline(w.screen) == [])
    && w.tail == AsANSI(w.screen.rows)
    && IsSettled(w.screen, w.flushed, w.silent)
  }

  lemma OutputLinesAppend(a: seq<Row>, b: seq<Row>)
    ensures OutputLines(a + b) == OutputLines(a) + OutputLines(b)
  {
  }

  /** Removing more rows adds their lines to what is owed. */
  lemma OwedGrows(s: ScreenState, t: ScreenState, more: seq<Row>)
    requires t.past.removed == s.past.removed + more
    ensures Owed(t) == Owed(s) + Terminated(OutputLines(more))
    ensures |Owed(t)| >= |Owed(s)| + |more|
  {
    OutputLinesAppend(s.past.removed, more);
    TerminatedAppend(OutputLines(s.past.removed), OutputLines(more));
    TerminatedLength(OutputLines(more));
  }

  /** A pop flushes exactly what it adds to the debt, except that a single row that prints as
      nothing goes without its newline. */
  lemma PoppedBytes(rows: seq<Row>)
    ensures var popped := AsANSI(rows); var out := if popped != [] then popped + [NEWLINE] else [];
      if |rows| == 1 && popped == [] then out == [] && |Terminated(OutputLines(rows))| == 1
      else out == Terminated(OutputLines(rows))
  {
    if rows != [] {
      TerminatedIsJoinThenNewline(OutputLines(rows));
    }
  }

  lemma ParsingStaysSettled(s: ScreenState, t: ScreenState, flushed: seq<Byte>, silent: nat)
    requires IsSettled(s, flushed, silent) && Follows(s, t)
    ensures IsSettled(t, flushed, silent)
  {
    var dropped := t.past.removed[|s.past.removed|..];
    assert t.past.removed == s.past.removed + dropped;
    OwedGrows(s, t, dropped);
    assert t.past.lost == s.past.lost ==> dropped == [];
  }

  lemma PoppingStaysSettled(s: ScreenState, retain: nat, flushed: seq<Byte>, silent: nat)
    requires IsSettled(s, flushed, silent) && ScreenSpec.Valid(s)
    ensures var popped := AsANSI(s.rows[..PopCount(s, retain)]);
      IsSettled(
        Pop(s, retain),
        flushed + (if popped != [] then popped + [NEWLINE] else []),
        silent + if PopCount(s, retain) == 1 && popped == [] then 1 else 0)
  {
    var rows := s.rows[..PopCount(s, retain)];
    OwedGrows(s, Pop(s, retain), rows);
    PoppedBytes(rows);
  }

  lemma WriteStaysAccounted(codec: ElementCodec, retain: nat, w: WriterState, data: seq<Byte>)
    requires IsAccounted(w, retain)
    ensures IsAccounted(WriteChunk(codec, retain, w, data), retain)
  {
    if data != [] {
      RunKeepsValid(w.parser.(cursor := 0), data);
      var s := Parse(codec, w.parser, w.screen, data);
      ParsingStaysSettled(w.screen, s, w.flushed, w.silent);
      PoppingStaysSettled(s, retain, w.flushed, w.silent);
    }
  }

  lemma {:induction false} WritesStayAccounted(codec: ElementCodec, retain: nat, w: WriterState, chunks: seq<seq<Byte>>)
    requires IsAccounted(w, retain)
    ensures IsAccounted(WriteAll(codec, retain, w, chunks), retain)
    decreases chunks
  {
    if chunks != [] {
      WriteStaysAccounted(codec, retain, w, chunks[0]);
      WritesStayAccounted(codec, retain, WriteChunk(codec, retain, w, chunks[0]), chunks[1..]);
    }
  }

  /** The untrimmed screen prints what is owed, and then what the tail shows, unless the cursor was held
      back at the top of the window. */
  lemma ScreenIsOwedThenTail(codec: ElementCodec, retain: nat, chunks: seq<seq<Byte>>)
    ensures var w := WriteAll(codec, retain, NewWriter(), chunks);
      var (_, u) := ParseAll(codec, START, NewScreen(0), chunks);
      && w.tail == AsANSI(w.screen.rows)
      && IsSettled(w.screen, w.flushed, w.silent)
      && (!w.screen.past.clamped ==> OwnText(w) == AsANSI(u.rows) + LastNewline(w.screen))
      && (retain >= 1 ==> LastNewline(w.screen) == [])
  {
    var w := WriteAll(codec, retain, NewWriter(), chunks);
    assert OutputLines([]) == [];
    WritesStayAccounted(codec, retain, NewWriter(), chunks);
    BoundedScreenIsWindowExactly(codec, retain, chunks);
    TextOfBoth(w.screen.past.removed, w.screen.rows);
  }

  lemma TextOfBoth(removed: seq<Row>, rows: seq<Row>)
    ensures AsANSI(removed + rows) + (if rows == [] && removed != [] then [NEWLINE] else [])
      == Terminated(OutputLines(removed)) + AsANSI(rows)
  {
    OutputLinesAppend(removed, rows);
    if rows != [] {
      JoinIsTerminatedThenJoin(OutputLines(removed), OutputLines(rows));
    } else if removed != [] {
      assert removed + rows == removed;
      TerminatedIsJoinThenNewline(OutputLines(removed));
    }
  }

  /** After any sequence of writes: flushed bytes and tail make up what this writer's rows show, those
      that have gone and the current ones, exactly when the cap dropped no row and no write popped a
      single row that prints as nothing. That is the rendering of the untrimmed screen if the cursor was
      never held back at the top of the window. A writer that need not retain any row may have ended
      this text with a newline. */
  lemma BytesAreConservedExactly(codec: ElementCodec, retain: nat, chunks: seq<seq<Byte>>)
    ensures var w := WriteAll(codec, retain, NewWriter(), chunks);
      var (_, u) := ParseAll(codec, START, NewScreen(0), chunks);
      && (w.flushed + w.tail == OwnText(w) <==> w.screen.past.lost == 0 && w.silent == 0)
      && (!w.screen.past.clamped ==> OwnText(w) == AsANSI(u.rows) + LastNewline(w.screen))
      && (retain >= 1 ==> LastNewline(w.screen) == [])
  {
    ScreenIsOwedThenTail(codec, retain, chunks);
    var w := WriteAll(codec, retain, NewWriter(), chunks);
    assert w.flushed + w.tail == OwnText(w) ==> |w.flushed| == |Owed(w.screen)|;
  }
}
