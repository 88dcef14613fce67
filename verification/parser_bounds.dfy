/** How long parsing a chunk takes: rewinding out of a false escape never makes the parser read
    a position more than once inside an escape and once outside. */
module ParserBounds {
  import opened Bytes
  import opened Cells
  import opened ParserSpec
  import opened Strconv
  import opened Utf8

  /** The states at the head of the loop in parseChunk, in order. */
  function Visits(p: ParserState, data: seq<Byte>): seq<ParserState>
    decreases Potential(p, data)
  {
    if p.cursor >= |data| then []
    else
      StepDecreasesPotential(p, data);
      [p] + Visits(Step(p, data).state, data)
  }

  lemma {:induction false} VisitsWithinPotential(p: ParserState, data: seq<Byte>)
    ensures |Visits(p, data)| <= Potential(p, data)
    decreases Potential(p, data)
  {
    if p.cursor < |data| {
      StepDecreasesPotential(p, data);
      VisitsWithinPotential(Step(p, data).state, data);
    }
  }

  /** A chunk takes at most two rounds per byte when the parser starts outside an escape, and at
      most three whatever an earlier chunk has left behind. */
  lemma RoundsPerChunk(p: ParserState, data: seq<Byte>)
    ensures p.mode == Normal ==> |Visits(p.(cursor := 0), data)| <= 2 * |data|
    ensures |Visits(p.(cursor := 0), data)| <= 3 * |data|
  {
    VisitsWithinPotential(p.(cursor := 0), data);
  }

  /** The loop has a state of its own, not one stranded by an earlier chunk. */
  predicate IsOwn(p: ParserState, data: seq<Byte>) {
    p.cursor <= |data| && (p.mode == Normal || IsGenuine(p, data))
  }

  /** No position before this one is read outside an escape from here on. */
  function NormalFloor(p: ParserState): nat {
    if p.mode == Normal then p.cursor else p.escapeStartedAt + 1
  }

  /** No position before this one is read inside an escape from here on. */
  function ScanFloor(p: ParserState, data: seq<Byte>): nat {
    if p.mode == Normal then NextEscape(data, p.cursor) + 1 else p.cursor
  }

  predicate RaisesFloors(p: ParserState, q: ParserState, data: seq<Byte>) {
    && IsOwn(q, data)
    && NormalFloor(q) >= NormalFloor(p) + (if p.mode == Normal then 1 else 0)
    && ScanFloor(q, data) >= ScanFloor(p, data) + (if p.mode == Normal then 0 else 1)
  }

  lemma NormalStepRaisesFloors(p: ParserState, data: seq<Byte>, d: Decoded)
    requires p.mode == Normal && IsRead(data, p.cursor, d)
    ensures RaisesFloors(p, StepOver(p, data, d).state, data)
  {
    NextEscapeIsMonotone(data, p.cursor, p.cursor + d.width);
    if StepOver(p, data, d).state.mode == Escape {
      assert d.rune < 128 && data[p.cursor] == d.rune;
    }
  }

  lemma ScanRaisesFloors(p: ParserState, data: seq<Byte>, d: Decoded)
    requires p.mode != Normal && IsOwn(p, data) && IsRead(data, p.cursor, d)
    ensures RaisesFloors(p, StepOver(p, data, d).state, data)
  {
    var q := StepOver(p, data, d).state;
    if q.mode == Normal {
      if q.cursor < |data| {
        NextEscapeBound(p, data, d);
      }
    } else if p.mode == Escape || p.mode == Control {
      ScanStaysGenuine(p, data, d);
    }
  }

  lemma StepRaisesFloors(p: ParserState, data: seq<Byte>)
    requires IsOwn(p, data) && p.cursor < |data|
    ensures RaisesFloors(p, Step(p, data).state, data)
  {
    var d := CharactersAreRead(data, p.cursor);
    if p.mode == Normal {
      NormalStepRaisesFloors(p, data, d);
    } else {
      ScanRaisesFloors(p, data, d);
    }
  }

  predicate AboveFloors(visits: seq<ParserState>, normal: nat, scan: nat) {
    forall i :: 0 <= i < |visits| ==> visits[i].cursor >= if visits[i].mode == Normal then normal else scan
  }

  lemma {:induction false} VisitsStayAboveFloors(p: ParserState, data: seq<Byte>)
    requires IsOwn(p, data)
    ensures AboveFloors(Visits(p, data), NormalFloor(p), ScanFloor(p, data))
    decreases Potential(p, data)
  {
    if p.cursor < |data| {
      StepDecreasesPotential(p, data);
      StepRaisesFloors(p, data);
      VisitsStayAboveFloors(Step(p, data).state, data);
    }
  }

  /** The positions read outside escapes strictly increase, and so do those read inside. */
  predicate ReadsOnce(visits: seq<ParserState>) {
    forall i, j :: 0 <= i < j < |visits| && (visits[i].mode == Normal <==> visits[j].mode == Normal) ==>
      visits[i].cursor < visits[j].cursor
  }

  lemma {:induction false} OwnStateReadsOnce(p: ParserState, data: seq<Byte>)
    requires IsOwn(p, data)
    ensures ReadsOnce(Visits(p, data))
    decreases Potential(p, data)
  {
    if p.cursor < |data| {
      StepDecreasesPotential(p, data);
      StepRaisesFloors(p, data);
      var q := Step(p, data).state;
      VisitsStayAboveFloors(q, data);
      OwnStateReadsOnce(q, data);
      FirstReadsOnce(p, Visits(q, data));
    }
  }

  lemma FirstReadsOnce(p: ParserState, visits: seq<ParserState>)
    requires ReadsOnce(visits)
    requires forall i :: 0 <= i < |visits| && (visits[i].mode == Normal <==> p.mode == Normal) ==>
      p.cursor < visits[i].cursor
    ensures ReadsOnce([p] + visits)
  {
    assert ([p] + visits)[1..] == visits;
  }

  // ----- chunks that start inside an escape sequence of the one before -----

  /** An escape that an earlier chunk has left open: what has been read of it in this chunk contains
      no escape character, at least if it can still turn out to be a false alarm. */
  predicate IsStray(p: ParserState, data: seq<Byte>) {
    p.mode != Normal && (p.mode == Escape || p.mode == Control ==> NextEscape(data, 0) >= p.cursor)
  }

  /** Scanning it goes forward. */
  lemma StrayScansOn(p: ParserState, data: seq<Byte>, d: Decoded)
    requires IsStray(p, data) && IsRead(data, p.cursor, d) && StepOver(p, data, d).state.mode != Normal
    ensures var q := StepOver(p, data, d).state; IsStray(q, data) && q.cursor > p.cursor
  {
    if p.mode == Escape || p.mode == Control {
      assert d.rune < 128 && d.width == 1 && data[p.cursor] != ESCAPE;
      NextEscapeIsMonotone(data, 0, p.cursor);
      NextEscapeIsMonotone(data, p.cursor, p.cursor + 1);
    }
  }

  /** After it, no escape begins before the position just read. */
  lemma StrayScanLeaves(p: ParserState, data: seq<Byte>, d: Decoded)
    requires IsStray(p, data) && IsRead(data, p.cursor, d) && StepOver(p, data, d).state.mode == Normal
    ensures NextEscape(data, StepOver(p, data, d).state.cursor) >= p.cursor
  {
    var q := StepOver(p, data, d).state;
    if q.cursor <= p.cursor {
      NextEscapeIsMonotone(data, 0, q.cursor);
    }
  }

  lemma {:induction false} StrayVisitsStayAbove(p: ParserState, data: seq<Byte>)
    requires IsStray(p, data)
    ensures AboveFloors(Visits(p, data), 0, p.cursor)
    decreases Potential(p, data)
  {
    if p.cursor < |data| {
      var d := CharactersAreRead(data, p.cursor);
      var q := Step(p, data).state;
      StepDecreasesPotential(p, data);
      if q.mode != Normal {
        StrayScansOn(p, data, d);
        StrayVisitsStayAbove(q, data);
      } else {
        StrayScanLeaves(p, data, d);
        if q.cursor <= |data| {
          VisitsStayAboveFloors(q, data);
        }
      }
    }
  }

  lemma {:induction false} StrayStateReadsOnce(p: ParserState, data: seq<Byte>)
    requires IsStray(p, data)
    ensures ReadsOnce(Visits(p, data))
    decreases Potential(p, data)
  {
    if p.cursor < |data| {
      var d := CharactersAreRead(data, p.cursor);
      var q := Step(p, data).state;
      StepDecreasesPotential(p, data);
      if q.mode != Normal {
        StrayScansOn(p, data, d);
        StrayVisitsStayAbove(q, data);
        StrayStateReadsOnce(q, data);
      } else {
        StrayScanLeaves(p, data, d);
        if q.cursor <= |data| {
          VisitsStayAboveFloors(q, data);
          OwnStateReadsOnce(q, data);
        }
      }
      FirstReadsOnce(p, Visits(q, data));
    }
  }

  /** Whatever an earlier chunk has left behind: the positions of a chunk that are read outside
      escapes strictly increase, and so do those read inside. Escapes scan disjoint stretches of
      the chunk, and no byte is printed twice. */
  lemma EachPositionIsReadOnceInEachRole(p: ParserState, data: seq<Byte>)
    ensures ReadsOnce(Visits(p.(cursor := 0), data))
  {
    if p.mode == Normal {
      OwnStateReadsOnce(p.(cursor := 0), data);
    } else {
      StrayStateReadsOnce(p.(cursor := 0), data);
    }
  }

  // ----- where a chunk ends -----

  lemma {:induction false} OwnRunEndsAtTheEnd(p: ParserState, data: seq<Byte>)
    requires IsOwn(p, data)
    ensures Run(p, data).state.cursor == |data|
    ensures IsOwn(Run(p, data).state, data)
    decreases Potential(p, data)
  {
    if p.cursor < |data| {
      StepDecreasesPotential(p, data);
      StepRaisesFloors(p, data);
      OwnRunEndsAtTheEnd(Step(p, data).state, data);
    }
  }

  /** The character of a chunk, from k on, at which a control sequence that began in an earlier chunk
      turns out to be a false alarm; the end of the chunk if there is none. */
  function ControlAlarm(data: seq<Byte>, k: nat): (alarm: nat)
    requires k <= |data|
    ensures k <= alarm <= |data|
    decreases |data| - k
  {
    if k == |data| then k
    else
      var upper := ToUpper(data[k]);
      if IsParameterByte(data[k]) || data[k] == ';' as int then ControlAlarm(data, k + 1)
      else if IsSequenceEnd(upper) || upper == 'H' as int || upper == 'L' as int then |data|
      else k
  }

  /** The same for what an earlier chunk has left open in this mode. */
  function LeftOverAlarm(mode: Mode, data: seq<Byte>): (alarm: nat)
    ensures alarm <= |data|
  {
    match mode
    case Control => ControlAlarm(data, 0)
    case Escape =>
      if data == [] then 0
      else if data[0] == '[' as int then ControlAlarm(data, 1)
      else if data[0] == ']' as int || data[0] == '_' as int then |data|
      else if data[0] == '(' as int || data[0] == ')' as int then |data|
      else 0
    case _ => |data|
  }

  /** Where the loop is at its end: at the end of the chunk, unless the false alarm goes back, past the
      bytes of its character, to a place that was recorded in an earlier chunk and lies outside this one. */
  function EndAfterAlarm(data: seq<Byte>, escapeStartedAt: nat, alarm: nat): nat
    requires alarm <= |data|
  {
    if alarm == |data| then |data|
    else
      var cursor := escapeStartedAt + DecodeRune(data[alarm..]).width;
      if cursor > |data| then cursor else |data|
  }

  /** Outside escapes, and in sequences that do not go back. */
  lemma {:induction false} QuietRunEndsAtTheEnd(p: ParserState, data: seq<Byte>)
    requires p.mode != Escape && p.mode != Control && p.cursor <= |data|
    ensures Run(p, data).state.cursor == |data|
    decreases Potential(p, data)
  {
    if p.mode == Normal {
      OwnRunEndsAtTheEnd(p, data);
    } else if p.cursor < |data| {
      var d := CharactersAreRead(data, p.cursor);
      StepDecreasesPotential(p, data);
      QuietRunEndsAtTheEnd(Step(p, data).state, data);
    }
  }

  /** What a round does when it gives up an escape at a character of this width. */
  predicate GoesBack(p: ParserState, q: ParserState, width: nat) {
    q.mode == Normal && q.cursor == p.escapeStartedAt + width
  }

  lemma AlarmEnds(p: ParserState, data: seq<Byte>)
    requires p.cursor < |data| && GoesBack(p, Step(p, data).state, DecodeRune(data[p.cursor..]).width)
    ensures Run(p, data).state.cursor == EndAfterAlarm(data, p.escapeStartedAt, p.cursor)
  {
    StepDecreasesPotential(p, data);
    var q := Step(p, data).state;
    if q.cursor <= |data| {
      OwnRunEndsAtTheEnd(q, data);
    }
  }

  /** A round in a control sequence goes on, gives up or ends the sequence. */
  lemma ControlRound(p: ParserState, data: seq<Byte>, d: Decoded)
    requires p.mode == Control && IsRead(data, p.cursor, d)
    ensures var q, alarm := StepOver(p, data, d).state, ControlAlarm(data, p.cursor);
      if q.mode == Control then
        q.cursor == p.cursor + 1 && q.escapeStartedAt == p.escapeStartedAt && alarm == ControlAlarm(data, q.cursor)
      else if alarm == p.cursor then GoesBack(p, q, d.width)
      else q.mode == Normal && alarm == |data| && q.cursor <= |data|
  {
    assert ToUpper(d.rune) < 0x80 <==> d.rune < 0x80;
  }

  lemma {:induction false} ControlRunEnds(p: ParserState, data: seq<Byte>)
    requires p.mode == Control && p.cursor <= |data|
    ensures Run(p, data).state.cursor == EndAfterAlarm(data, p.escapeStartedAt, ControlAlarm(data, p.cursor))
    decreases |data| - p.cursor
  {
    if p.cursor < |data| {
      var d := CharactersAreRead(data, p.cursor);
      var q := Step(p, data).state;
      StepDecreasesPotential(p, data);
      ControlRound(p, data, d);
      if q.mode == Control {
        ControlRunEnds(q, data);
      } else if ControlAlarm(data, p.cursor) == p.cursor {
        AlarmEnds(p, data);
      } else {
        QuietRunEndsAtTheEnd(q, data);
      }
    }
  }

  /** A chunk is read exactly to its end, unless a false alarm left over from an earlier chunk sends the
      cursor past it: where the loop ends, for every state. */
  lemma RunEndsExactly(p: ParserState, data: seq<Byte>)
    ensures ParseChunk(p, data).state.cursor == EndAfterAlarm(data, p.escapeStartedAt, LeftOverAlarm(p.mode, data))
  {
    var start := p.(cursor := 0);
    if p.mode == Control {
      ControlRunEnds(start, data);
    } else if p.mode != Escape {
      QuietRunEndsAtTheEnd(start, data);
    } else if data != [] {
      var d := CharactersAreRead(data, 0);
      var q := Step(start, data).state;
      StepDecreasesPotential(start, data);
      if q.mode == Control {
        ControlRunEnds(q, data);
      } else if q.mode == Normal {
        AlarmEnds(start, data);
      } else {
        QuietRunEndsAtTheEnd(q, data);
      }
    }
  }
}
