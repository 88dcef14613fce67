/** No character is split between stored chunks. */
module WholeCharacters {
  import opened Bytes
  import opened PrintedText
  import opened Reachable
  import opened ScreenSpec
  import opened Utf8
  import opened WholeLogs
  import opened Windows
  import opened WriteLoops

  predicate AllFit(o: Options, codec: ElementCodec, retain: nat, log: LogState, turns: seq<Turn>)
    requires IsWriter(log.writer)
    decreases turns
  {
    turns == []
    || (|Added(log.loop, SentEvent(codec, retain, log.writer, turns[0].action))| <= o.writeBlockSize
        && AllFit(o, codec, retain, TakeTurn(o, codec, retain, log, turns[0]), turns[1..]))
  }

  ghost predicate AreWhole(pieces: seq<seq<Byte>>) {
    forall i :: 0 <= i < |pieces| ==> EndsOnRuneBoundary(pieces[i])
  }

  lemma {:induction false} WholePiecesJoin(pieces: seq<seq<Byte>>)
    requires AreWhole(pieces)
    ensures EndsOnRuneBoundary(Flatten(pieces))
  {
    if pieces != [] {
      WholePiecesJoin(pieces[1..]);
      BoundaryAppend(pieces[0], Flatten(pieces[1..]));
    }
  }

  lemma {:induction false} GroupsOfWholePieces(groups: seq<seq<seq<Byte>>>, i: nat)
    requires AreWhole(Flatten(groups)) && i < |groups|
    ensures AreWhole(groups[i])
  {
    var first, rest := groups[0], Flatten(groups[1..]);
    assert forall k :: 0 <= k < |first| ==> first[k] == Flatten(groups)[k];
    assert forall k :: 0 <= k < |rest| ==> rest[k] == Flatten(groups)[|first| + k];
    if i > 0 {
      GroupsOfWholePieces(groups[1..], i - 1);
    }
  }

  /** The writer's screen can only print whole characters, and the loop has only got such text. */
  ghost predicate HasWholeText(
      log: LogState, groups: seq<seq<seq<Byte>>>, pending: seq<seq<Byte>>)
  {
    && IsWriter(log.writer)
    && IsGoodScreen(log.writer.screen, false)
    && ConsistsOf(log.loop, groups, pending)
    && AreWhole(Flatten(groups) + pending)
    && EndsOnRuneBoundary(log.loop.volatileTail)
  }

  lemma PoppedTextIsWhole(s: ScreenState, n: nat)
    requires IsGoodScreen(s, false) && n <= |s.rows|
    ensures EndsOnRuneBoundary(AsANSI(s.rows[..n])) && EndsOnRuneBoundary(AsANSI(s.rows[..n]) + [NEWLINE])
    ensures EndsOnRuneBoundary(AsANSI(s.rows[n..]))
  {
    TextIsWhole(s.rows[..n]);
    TextIsWhole(s.rows[n..]);
    NewlineIsWhole();
    BoundaryAppend(AsANSI(s.rows[..n]), [NEWLINE]);
  }

  /** What a write hands on is whole. */
  lemma RequestIsWhole(codec: ElementCodec, retain: nat, log: LogState, a: Action)
    requires IsWriter(log.writer) && IsGoodScreen(log.writer.screen, false) && EndsOnRuneBoundary(log.loop.volatileTail)
    ensures IsGoodScreen(WriterAfter(codec, retain, log.writer, a).screen, false)
    ensures EndsOnRuneBoundary(Added(log.loop, SentEvent(codec, retain, log.writer, a)))
    ensures EndsOnRuneBoundary(TailAfter(log.loop, SentEvent(codec, retain, log.writer, a)))
  {
    if a.Data? && a.data != [] {
      var w := log.writer;
      ParseStaysGood(codec, w.parser, w.screen, a.data, false);
      var s := Parse(codec, w.parser, w.screen, a.data);
      var n := PopCount(s, retain);
      PoppedTextIsWhole(s, n);
      var r := WriterAfter(codec, retain, w, a);
      var popped := AsANSI(s.rows[..n]);
      assert r.flushed[|w.flushed|..] == if popped != [] then popped + [NEWLINE] else [];
    }
  }

  lemma EventKeepsWholeText(
      o: Options, log: LogState, e: Event, luck: Luck, groups: seq<seq<seq<Byte>>>, pending: seq<seq<Byte>>)
    returns (newGroups: seq<seq<seq<Byte>>>, kept: seq<seq<Byte>>)
    requires HasWholeText(log, groups, pending) && o.noSplitWrite && |Added(log.loop, e)| <= o.writeBlockSize
    requires EndsOnRuneBoundary(Added(log.loop, e)) && EndsOnRuneBoundary(TailAfter(log.loop, e))
    ensures HasWholeText(log.(loop := Iteration(o, log.loop, e, luck)), newGroups, kept)
  {
    newGroups, kept := IterationKeepsPieces(o, log.loop, e, luck, groups, pending);
    IterationKeepsBytes(o, log.loop, e, luck);
  }

  lemma {:induction false} TurnsKeepWholeText(
      o: Options, codec: ElementCodec, retain: nat, log: LogState, turns: seq<Turn>,
      groups: seq<seq<seq<Byte>>>, pending: seq<seq<Byte>>)
    returns (newGroups: seq<seq<seq<Byte>>>, kept: seq<seq<Byte>>)
    requires HasWholeText(log, groups, pending) && o.noSplitWrite && AllFit(o, codec, retain, log, turns)
    ensures HasWholeText(TakeTurns(o, codec, retain, log, turns), newGroups, kept)
    decreases turns
  {
    newGroups, kept := groups, pending;
    if turns != [] {
      var e := SentEvent(codec, retain, log.writer, turns[0].action);
      RequestIsWhole(codec, retain, log, turns[0].action);
      newGroups, kept := EventKeepsWholeText(o, log, e, turns[0].luck, groups, pending);
      newGroups, kept := TurnsKeepWholeText(
        o, codec, retain, TakeTurn(o, codec, retain, log, turns[0]), turns[1..], newGroups, kept);
    }
  }

  lemma GroupsAreWhole(s: LoopState, groups: seq<seq<seq<Byte>>>, pending: seq<seq<Byte>>)
    requires ConsistsOf(s, groups, pending) && AreWhole(Flatten(groups) + pending)
    ensures AreWhole(s.stored)
  {
    var pieces := Flatten(groups);
    assert forall k :: 0 <= k < |pieces| ==> pieces[k] == (pieces + pending)[k];
    forall i | 0 <= i < |s.stored| ensures EndsOnRuneBoundary(s.stored[i]) {
      GroupsOfWholePieces(groups, i);
      WholePiecesJoin(groups[i]);
    }
  }

  /** Whatever bytes the build prints, and however they are cut into writes: if writes are not to be
      split, and each of them and the last tail fits in a block, no stored chunk ends within a
      character. */
  lemma StoredChunksAreWhole(o: Options, codec: ElementCodec, retain: nat, turns: seq<Turn>, end: Event, luck: Luck)
    requires o.noSplitWrite && EndsLoop(end) && AllFit(o, codec, retain, NEW_LOG, turns)
    requires |TakeTurns(o, codec, retain, NEW_LOG, turns).loop.volatileTail| <= o.writeBlockSize
    ensures AreWhole(Closed(o, codec, retain, turns, end, luck).stored)
  {
    assert IsGoodScreen(NEW_LOG.writer.screen, false);
    assert Flatten<seq<Byte>>([]) + [] == [];
    var groups, pending := TurnsKeepWholeText(o, codec, retain, NEW_LOG, turns, [], []);
    var log := TakeTurns(o, codec, retain, NEW_LOG, turns);
    groups, pending := EventKeepsWholeText(o, log, end, luck, groups, pending);
    GroupsAreWhole(Closed(o, codec, retain, turns, end, luck), groups, pending);
  }
}
