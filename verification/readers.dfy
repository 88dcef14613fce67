/** What a reader of the log sees: a web client decodes the chunks response by response. */
module Readers {
  import opened Bytes
  import opened Conservation
  import opened EventLog
  import opened ParserSpec
  import opened ScreenSpec
  import opened Tail
  import opened Utf8
  import opened WholeCharacters
  import opened WholeLogs
  import opened Windows
  import opened WriteLoops

  /** The encoding of a byte order mark. */
  const MARK: seq<Byte> := [0xEF, 0xBB, 0xBF]

  /** The decoder reads characters one by one, as plain does, but drops a mark from the start of its
      input. */
  ghost predicate DropsMark(decode: Decoder, plain: Decoder) {
    && (forall a :: decode(a) == plain(if MARK <= a then a[|MARK|..] else a))
    && (forall a, b :: EndsOnRuneBoundary(a) ==> plain(a + b) == plain(a) + plain(b))
    && plain(MARK) != ""
  }

  /** One for a mark at the start. */
  function Marks(a: seq<Byte>): nat {
    if MARK <= a then 1 else 0
  }

  /** The responses that start with a mark. */
  function MarkedResponses(chunks: seq<seq<Byte>>, bounds: seq<nat>): nat
    requires AreBounds(bounds, chunks)
  {
    if |bounds| == 1 then 0
    else
      var before := bounds[..|bounds| - 1];
      assert Last(before) <= Last(bounds);
      MarkedResponses(chunks, before) + Marks(Flatten(chunks[Last(before)..Last(bounds)]))
  }

  /** The bytes of all responses. */
  function BytesBetween(chunks: seq<seq<Byte>>, bounds: seq<nat>): seq<Byte>
    requires AreBounds(bounds, chunks)
  {
    assert bounds[0] <= Last(bounds);
    Flatten(chunks[bounds[0]..Last(bounds)])
  }

  lemma MarkIsWhole()
    ensures EndsOnRuneBoundary(MARK)
  {
    forall i | 0 <= i < |MARK| ensures FullRune(MARK[i..]) {
      assert MARK[i..][0] == MARK[i];
    }
  }

  lemma NothingIsNoText(decode: Decoder, plain: Decoder)
    requires DropsMark(decode, plain)
    ensures plain([]) == "" == decode([])
  {
    var nothing: seq<Byte> := [];
    assert EndsOnRuneBoundary(nothing) && nothing + nothing == nothing;
    assert |plain(nothing)| == |plain(nothing) + plain(nothing)| == |plain(nothing)| + |plain(nothing)|;
  }

  /** A mark at the start is what decoding loses. */
  lemma DecodingLosesMark(decode: Decoder, plain: Decoder, a: seq<Byte>)
    requires DropsMark(decode, plain)
    ensures |decode(a)| + Marks(a) * |plain(MARK)| == |plain(a)|
    ensures Marks(a) == 0 ==> decode(a) == plain(a)
  {
    if MARK <= a {
      MarkIsWhole();
      assert a == MARK + a[|MARK|..];
    }
  }

  /** Whole characters that do not start with a mark are not completed to one by what follows. */
  lemma NoMarkArises(first: seq<Byte>, rest: seq<Byte>)
    requires EndsOnRuneBoundary(first) && first != [] && !(MARK <= first)
    ensures !(MARK <= first + rest)
  {
    var all := first + rest;
    assert first[0..] == first;
    assert forall i :: 0 <= i < |first| ==> all[i] == first[i];
    assert |first| >= 3 && first[0] == 0xEF && first[1] == 0xBB && first[2] == 0xBF ==> MARK <= first;
    assert first[0] == 0xEF ==> Announced(first[0]) == 3;
  }

  /** Whether text starts with a mark is decided by its first characters. */
  lemma FirstDecidesMark(first: seq<Byte>, rest: seq<Byte>)
    requires EndsOnRuneBoundary(first)
    ensures Marks(first + rest) == if first == [] then Marks(rest) else Marks(first)
  {
    if first == [] {
      assert first + rest == rest;
    } else if !(MARK <= first) {
      NoMarkArises(first, rest);
    }
  }

  /** The last response, and the ones before it. */
  lemma LastResponse(chunks: seq<seq<Byte>>, bounds: seq<nat>)
    requires AreBounds(bounds, chunks) && |bounds| > 1 && AreWhole(chunks)
    ensures var before := bounds[..|bounds| - 1];
      && AreBounds(before, chunks) && Last(before) <= Last(bounds)
      && EndsOnRuneBoundary(BytesBetween(chunks, before))
      && BytesBetween(chunks, bounds)
        == BytesBetween(chunks, before) + Flatten(chunks[Last(before)..Last(bounds)])
  {
    var before := bounds[..|bounds| - 1];
    var i, j, k := bounds[0], Last(before), Last(bounds);
    assert before[0] == i && i <= j <= k;
    assert chunks[i..k] == chunks[i..j] + chunks[j..k];
    FlattenAppend(chunks[i..j], chunks[j..k]);
    WholePiecesJoin(chunks[i..j]);
  }

  /** The text falls short of that of all the bytes by the marks at the starts of responses. */
  lemma {:induction false} TextLacksMarks(decode: Decoder, plain: Decoder, chunks: seq<seq<Byte>>, bounds: seq<nat>)
    requires DropsMark(decode, plain) && AreWhole(chunks) && AreBounds(bounds, chunks)
    ensures |TextBetween(decode, chunks, bounds)| + MarkedResponses(chunks, bounds) * |plain(MARK)|
      == |plain(BytesBetween(chunks, bounds))|
  {
    if |bounds| == 1 {
      NothingIsNoText(decode, plain);
      assert chunks[bounds[0]..bounds[0]] == [];
    } else {
      var before := bounds[..|bounds| - 1];
      LastResponse(chunks, bounds);
      var last := Flatten(chunks[Last(before)..Last(bounds)]);
      TextLacksMarks(decode, plain, chunks, before);
      DecodingLosesMark(decode, plain, last);
      assert plain(BytesBetween(chunks, bounds)) == plain(BytesBetween(chunks, before)) + plain(last);
      AddMarks(MarkedResponses(chunks, before), Marks(last), |plain(MARK)|);
    }
  }

  lemma AddMarks(a: nat, b: nat, m: nat)
    ensures (a + b) * m == a * m + b * m
  {
  }

  /** A mark at the start of all the bytes is one at the start of a response. */
  lemma {:induction false} FirstMarkIsResponse(chunks: seq<seq<Byte>>, bounds: seq<nat>)
    requires AreWhole(chunks) && AreBounds(bounds, chunks)
    ensures MarkedResponses(chunks, bounds) >= Marks(BytesBetween(chunks, bounds))
  {
    if |bounds| == 1 {
      assert chunks[bounds[0]..bounds[0]] == [];
    } else {
      var before := bounds[..|bounds| - 1];
      LastResponse(chunks, bounds);
      FirstMarkIsResponse(chunks, before);
      FirstDecidesMark(BytesBetween(chunks, before), Flatten(chunks[Last(before)..Last(bounds)]));
    }
  }

  /** Text without further marks. */
  lemma {:induction false} TextIsWhole(decode: Decoder, plain: Decoder, chunks: seq<seq<Byte>>, bounds: seq<nat>)
    requires DropsMark(decode, plain) && AreWhole(chunks) && AreBounds(bounds, chunks)
    requires MarkedResponses(chunks, bounds) == Marks(BytesBetween(chunks, bounds))
    ensures TextBetween(decode, chunks, bounds) == decode(BytesBetween(chunks, bounds))
  {
    NothingIsNoText(decode, plain);
    if |bounds| == 1 {
      assert chunks[bounds[0]..bounds[0]] == [];
    } else {
      var before := bounds[..|bounds| - 1];
      var first, last := BytesBetween(chunks, before), Flatten(chunks[Last(before)..Last(bounds)]);
      LastResponse(chunks, bounds);
      FirstMarkIsResponse(chunks, before);
      FirstDecidesMark(first, last);
      TextIsWhole(decode, plain, chunks, before);
      JoinDecodes(decode, plain, first, last);
    }
  }

  lemma JoinDecodes(decode: Decoder, plain: Decoder, first: seq<Byte>, last: seq<Byte>)
    requires DropsMark(decode, plain) && EndsOnRuneBoundary(first) && (first == [] || Marks(last) == 0)
    ensures decode(first + last) == decode(first) + decode(last)
  {
    NothingIsNoText(decode, plain);
    FirstDecidesMark(first, last);
    if first == [] {
      assert first + last == last;
    } else if MARK <= first {
      var rest := first[|MARK|..];
      assert (first + last)[|MARK|..] == rest + last;
      assert forall i :: 0 <= i < |rest| ==> rest[i..] == first[|MARK| + i..];
    }
  }

  /** Text decoded response by response, from whole characters, is the text of all the bytes exactly if
      no response but the first one with any text starts with a mark. */
  lemma TextIsWholeExactly(decode: Decoder, plain: Decoder, chunks: seq<seq<Byte>>, bounds: seq<nat>)
    requires DropsMark(decode, plain) && AreWhole(chunks) && AreBounds(bounds, chunks)
    ensures TextBetween(decode, chunks, bounds) == decode(BytesBetween(chunks, bounds))
      <==> MarkedResponses(chunks, bounds) == Marks(BytesBetween(chunks, bounds))
  {
    if MarkedResponses(chunks, bounds) == Marks(BytesBetween(chunks, bounds)) {
      TextIsWhole(decode, plain, chunks, bounds);
    } else {
      var m := |plain(MARK)|;
      TextLacksMarks(decode, plain, chunks, bounds);
      DecodingLosesMark(decode, plain, BytesBetween(chunks, bounds));
      FirstMarkIsResponse(chunks, bounds);
      MoreMarks(MarkedResponses(chunks, bounds), Marks(BytesBetween(chunks, bounds)), m);
    }
  }

  lemma MoreMarks(many: nat, few: nat, m: nat)
    requires many > few && m > 0
    ensures many * m > few * m
  {
  }

  /** A client that has stopped by itself shows the text of all stored chunks from its first one. */
  lemma CompleteClientShowsChunks(decode: Decoder, count: LineCounter, before: Log, polls: seq<(Log, Log, Log)>)
    returns (bounds: seq<nat>)
    requires polls != [] && IsHistory(before, polls) && NoneMisleads(decode, count, NEW_CLIENT, polls)
    requires PollAll(decode, count, NEW_CLIENT, polls).phase.Complete?
    ensures var chunks := LastReading(before, polls).store.chunks;
      && AreBounds(bounds, chunks)
      && bounds[0] == StartChunk(polls[0].0, polls[0].1, count) && Last(bounds) == |chunks|
      && PollAll(decode, count, NEW_CLIENT, polls).logs == TextBetween(decode, chunks, bounds)
  {
    ClientFollowsTheLog(decode, count, before, polls);
    var c, s := PollAll(decode, count, NEW_CLIENT, polls), LastReading(before, polls);
    bounds :|
      Holds(decode, c, s, bounds) && (c.phase.Broken? || bounds[0] == StartChunk(polls[0].0, polls[0].1, count));
    assert c.logs[..|c.logs|] == c.logs;
  }

  /** From end to end: a build prints, its log is written, stored and closed without an error, and a
      web client polls meanwhile until it stops, without being misled. It has got all stored chunks from
      the one it began with, and shows their text exactly if no response but the first one with any
      text started with a mark. If it then began with the first chunk, and the log lost nothing on the
      way, this is the text of the writer's rows; and of the whole terminal if the cursor was never held
      back. */
  lemma ReaderSeesTheTerminal(
      o: Options, codec: ElementCodec, retain: nat, turns: seq<Turn>, end: Event, luck: Luck,
      decode: Decoder, plain: Decoder, count: LineCounter, before: Log, polls: seq<(Log, Log, Log)>)
    returns (bounds: seq<nat>)
    requires o.noSplitWrite && EndsLoop(end) && AllFit(o, codec, retain, NEW_LOG, turns)
    requires |TakeTurns(o, codec, retain, NEW_LOG, turns).loop.volatileTail| <= o.writeBlockSize
    requires var t := Closed(o, codec, retain, turns, end, luck);
      !t.failed && polls != [] && LastReading(before, polls).store.chunks == t.stored
    requires DropsMark(decode, plain)
    requires IsHistory(before, polls) && NoneMisleads(decode, count, NEW_CLIENT, polls)
    requires PollAll(decode, count, NEW_CLIENT, polls).phase.Complete?
    ensures var stored := Closed(o, codec, retain, turns, end, luck).stored;
      var w := TakeTurns(o, codec, retain, NEW_LOG, turns).writer;
      var (_, u) := ParseAll(codec, START, NewScreen(0), DataOf(turns));
      var logs := PollAll(decode, count, NEW_CLIENT, polls).logs;
      && AreBounds(bounds, stored)
      && bounds[0] == StartChunk(polls[0].0, polls[0].1, count) && Last(bounds) == |stored|
      && var bytes := BytesBetween(stored, bounds);
      && (logs == decode(bytes) <==> MarkedResponses(stored, bounds) == Marks(bytes))
      && (bounds[0] == 0 && w.screen.past.lost == 0 && w.silent == 0 && (Forgets(false, turns) ==> w.tail == []) ==>
          && bytes == OwnText(w)
          && (!w.screen.past.clamped ==> bytes == AsANSI(u.rows) + LastNewline(w.screen)))
  {
    var stored := Closed(o, codec, retain, turns, end, luck).stored;
    StoredLogIsTheScreenExactly(o, codec, retain, turns, end, luck);
    StoredChunksAreWhole(o, codec, retain, turns, end, luck);
    bounds := CompleteClientShowsChunks(decode, count, before, polls);
    TextIsWholeExactly(decode, plain, stored, bounds);
    assert stored[0..|stored|] == stored;
  }
}
