/** From the build's output to the stored log: the log writer and the loop that stores what it hands
    on. */
module WholeLogs {
  import opened Bytes
  import opened Conservation
  import opened ParserSpec
  import opened ScreenSpec
  import opened Windows
  import opened Wrappers
  import opened WriteLoops

  /** What the build event handler does with a log. Asking for the id of the last chunk is a write
      of nothing with an empty tail. */
  datatype Action = Data(data: seq<Byte>) | AskLastChunk | Pause

  datatype Turn = Turn(action: Action, luck: Luck)

  datatype LogState = LogState(writer: WriterState, loop: LoopState)

  const NEW_LOG := LogState(NewWriter(), IDLE)

  function WriterAfter(codec: ElementCodec, retain: nat, w: WriterState, a: Action): (r: WriterState)
    requires IsWriter(w)
    ensures IsWriter(r) && |w.flushed| <= |r.flushed| && r.flushed[..|w.flushed|] == w.flushed
  {
    if a.Data? then WriteChunk(codec, retain, w, a.data) else w
  }

  /** The event that an action sends to the loop. */
  function SentEvent(codec: ElementCodec, retain: nat, w: WriterState, a: Action): Event
    requires IsWriter(w)
  {
    match a
    case Data(data) =>
      if data == [] then Write([], None)
      else
        var r := WriterAfter(codec, retain, w, a);
        Write(r.flushed[|w.flushed|..], Some(r.tail))
    case AskLastChunk => Write([], Some([]))
    case Pause => Wake
  }

  function TakeTurn(o: Options, codec: ElementCodec, retain: nat, log: LogState, t: Turn): (r: LogState)
    requires IsWriter(log.writer)
    ensures IsWriter(r.writer)
  {
    LogState(
      WriterAfter(codec, retain, log.writer, t.action),
      Iteration(o, log.loop, SentEvent(codec, retain, log.writer, t.action), t.luck))
  }

  function TakeTurns(o: Options, codec: ElementCodec, retain: nat, log: LogState, turns: seq<Turn>): (r: LogState)
    requires IsWriter(log.writer)
    ensures IsWriter(r.writer)
    decreases turns
  {
    if turns == [] then log else TakeTurns(o, codec, retain, TakeTurn(o, codec, retain, log, turns[0]), turns[1..])
  }

  function DataOf(turns: seq<Turn>): seq<seq<Byte>> {
    if turns == [] then []
    else (if turns[0].action.Data? then [turns[0].action.data] else []) + DataOf(turns[1..])
  }

  /** Asking for the last chunk makes the loop forget the tail, until the next data. */
  predicate Forgets(forgot: bool, turns: seq<Turn>)
    decreases turns
  {
    if turns == [] then forgot
    else
      var a := turns[0].action;
      Forgets(if a.Data? && a.data != [] then false else forgot || a.AskLastChunk?, turns[1..])
  }

  lemma {:induction false} TurnsWriteTheirData(
      o: Options, codec: ElementCodec, retain: nat, log: LogState, turns: seq<Turn>)
    requires IsWriter(log.writer)
    ensures TakeTurns(o, codec, retain, log, turns).writer == WriteAll(codec, retain, log.writer, DataOf(turns))
    decreases turns
  {
    if turns != [] {
      TurnsWriteTheirData(o, codec, retain, TakeTurn(o, codec, retain, log, turns[0]), turns[1..]);
      if turns[0].action.Data? {
        assert DataOf(turns)[0] == turns[0].action.data && DataOf(turns)[1..] == DataOf(turns[1..]);
      } else {
        assert DataOf(turns) == DataOf(turns[1..]);
      }
    }
  }

  /** The loop has taken in exactly what the writer has flushed, and holds its tail unless that has
      been forgotten. */
  predicate IsInStep(log: LogState, forgot: bool) {
    && Taken(log.loop) == log.writer.flushed
    && log.loop.volatileTail == (if forgot then [] else log.writer.tail)
    && log.loop.open
  }

  lemma {:induction false} TurnsKeepInStep(
      o: Options, codec: ElementCodec, retain: nat, log: LogState, forgot: bool, turns: seq<Turn>)
    requires IsWriter(log.writer) && IsInStep(log, forgot)
    ensures IsInStep(TakeTurns(o, codec, retain, log, turns), Forgets(forgot, turns))
    ensures log.loop.stored <= TakeTurns(o, codec, retain, log, turns).loop.stored
    decreases turns
  {
    if turns != [] {
      var e := SentEvent(codec, retain, log.writer, turns[0].action);
      var next := TakeTurn(o, codec, retain, log, turns[0]);
      IterationKeepsBytes(o, log.loop, e, turns[0].luck);
      assert next.writer.flushed == log.writer.flushed + Added(log.loop, e) by {
        assert next.writer.flushed
          == next.writer.flushed[..|log.writer.flushed|] + next.writer.flushed[|log.writer.flushed|..];
      }
      var a := turns[0].action;
      TurnsKeepInStep(
        o, codec, retain, next, if a.Data? && a.data != [] then false else forgot || a.AskLastChunk?, turns[1..]);
    }
  }

  /** The log when its loop has ended. */
  function Closed(o: Options, codec: ElementCodec, retain: nat, turns: seq<Turn>, end: Event, luck: Luck): LoopState {
    Iteration(o, TakeTurns(o, codec, retain, NEW_LOG, turns).loop, end, luck)
  }

  /** For any output in any pieces, stores that fail in between, flushes at any time, and questions
      about the last chunk: once the loop has ended without an error, the stored chunks together
      are what the writer's rows show, those that have gone and the current ones, exactly when the cap
      dropped no row, no write popped a single row that prints as nothing, and no question about the
      last chunk made the loop forget a tail. That is the rendering of the whole terminal, which
      neither pops rows nor caps their number, if the cursor was never held back at the top of the
      window. */
  lemma StoredLogIsTheScreenExactly(
      o: Options, codec: ElementCodec, retain: nat, turns: seq<Turn>, end: Event, luck: Luck)
    requires EndsLoop(end)
    requires !Closed(o, codec, retain, turns, end, luck).failed
    ensures var t := Closed(o, codec, retain, turns, end, luck);
      var w := TakeTurns(o, codec, retain, NEW_LOG, turns).writer;
      var (_, u) := ParseAll(codec, START, NewScreen(0), DataOf(turns));
      && t.stored != []
      && (Flatten(t.stored) == OwnText(w) <==>
          w.screen.past.lost == 0 && w.silent == 0 && (Forgets(false, turns) ==> w.tail == []))
      && (!w.screen.past.clamped ==> OwnText(w) == AsANSI(u.rows) + LastNewline(w.screen))
      && (retain >= 1 ==> LastNewline(w.screen) == [])
  {
    TurnsWriteTheirData(o, codec, retain, NEW_LOG, turns);
    TurnsKeepInStep(o, codec, retain, NEW_LOG, false, turns);
    ScreenIsOwedThenTail(codec, retain, DataOf(turns));
    var log := TakeTurns(o, codec, retain, NEW_LOG, turns);
    IterationKeepsBytes(o, log.loop, end, luck);
    var t := Closed(o, codec, retain, turns, end, luck);
    var kept := log.loop.volatileTail;
    assert Taken(t) == Flatten(t.stored);
    assert Flatten(t.stored) == log.writer.flushed + kept;
    CompareLengths(Owed(log.writer.screen), log.writer.tail, log.writer.flushed, kept);
  }

  /** Two strings of which one part is shortened, and the other kept or dropped. */
  lemma CompareLengths(owed: seq<Byte>, tail: seq<Byte>, flushed: seq<Byte>, kept: seq<Byte>)
    requires |flushed| <= |owed| && (kept == tail || kept == [])
    ensures flushed + kept == owed + tail <==> flushed == owed && kept == tail
  {
    if flushed + kept == owed + tail {
      assert |flushed + kept| == |owed + tail|;
      assert |kept| == |tail| && kept == tail;
      assert (flushed + kept)[..|flushed|] == flushed && (owed + tail)[..|owed|] == owed;
    }
  }
}
