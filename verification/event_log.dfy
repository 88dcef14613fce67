/** Serving log chunks (GetEventLogChunk in server/eventlog/eventlog.go). */
module EventLog {
  import opened Bytes
  import opened ChunkQueues
  import opened ChunkStore
  import opened Wrappers

  /** Chunk ids are hexadecimal indices; a blank id stands for "none". */
  datatype ChunkId = Blank | Id(index: Index) | Malformed

  /** The invocation's row in the database. */
  datatype Invocation = Invocation(lastChunkId: ChunkId, inProgress: bool)

  /** What the key-value store holds for this log when it is asked. */
  datatype LiveRead = NoLive | Live(id: Index, buffer: seq<Byte>) | LiveFailed

  datatype Request = Request(chunkId: ChunkId, minLines: int)

  datatype Response = Response(buffer: seq<Byte>, next: ChunkId, previous: ChunkId, live: bool)

  datatype Reply = Ok(response: Response) | Err(error: Error)

  const EMPTY_RESPONSE := Response([], Blank, Blank, false)

  /** How many lines bufio.Scanner finds in a chunk. */
  type LineCounter = seq<Byte> -> nat

  /** The sum of the line counts of the chunks from lo to hi, inclusive. */
  function LinesBetween(store: Store, count: LineCounter, lo: nat, hi: nat): nat
    requires hi < |store.chunks|
    decreases hi + 1 - lo
  {
    if lo > hi then 0 else count(store.chunks[lo]) + LinesBetween(store, count, lo + 1, hi)
  }

  /** The text of the chunks from lo to hi, inclusive. */
  function Range(store: Store, lo: nat, hi: nat): seq<Byte>
    requires lo <= hi < |store.chunks|
  {
    Flatten(store.chunks[lo..hi + 1])
  }

  /** Where reading upwards from chunk i stops; -1 if a chunk that is needed cannot be read. */
  function UpwardsEnd(store: Store, count: LineCounter, i: nat, last: nat, need: int): (hi: int)
    requires i <= last < |store.chunks| && last < MAX_INDEX
    ensures hi == -1 || i <= hi <= last
    decreases last - i
  {
    match ReadChunk(store, i)
    case Failure(_) => -1
    case Data(b) =>
      if count(b) >= need || i == last then i else UpwardsEnd(store, count, i + 1, last, need - count(b))
  }

  /** Where reading downwards from chunk i stops; -1 if a chunk that is needed cannot be read. */
  function DownwardsEnd(store: Store, count: LineCounter, i: nat, need: int): (lo: int)
    requires i < |store.chunks| && i < MAX_INDEX
    ensures lo == -1 || 0 <= lo <= i
  {
    match ReadChunk(store, i)
    case Failure(_) => -1
    case Data(b) =>
      if count(b) >= need || i == 0 then i else DownwardsEnd(store, count, i - 1, need - count(b))
  }

  function IdBefore(index: Index): ChunkId {
    if index == 0 then Blank else Id(index - 1)
  }

  /** The reply when chunks exist and the range of the request is not past the last of them. */
  function ServeRange(
      store: Store, count: LineCounter, last: Index, start: Index, backwards: bool, minLines: int): (r: Reply)
    requires start <= last < |store.chunks| && last < MAX_INDEX && (backwards ==> start == last)
  {
    if backwards then
      var lo := DownwardsEnd(store, count, start, minLines);
      if lo == -1 then Err(ReadFailed)
      else Ok(Response(Range(store, lo, start), Id(start + 1), IdBefore(lo), false))
    else
      var hi := UpwardsEnd(store, count, start, last, minLines);
      if hi == -1 then Err(ReadFailed)
      else Ok(Response(Range(store, start, hi), Id(hi + 1), IdBefore(start), false))
  }

  /** The reply while no chunk has been written. */
  function ServeNothing(inv: Invocation, live: LiveRead, req: Request): Reply {
    if !inv.inProgress then Ok(EMPTY_RESPONSE)
    else if live == LiveFailed then Err(KeyValueFailed)
    else if live.Live? && req.chunkId == Id(live.id) then Ok(Response(live.buffer, Id(live.id), Blank, true))
    else Ok(Response([], Id(0), Blank, false))
  }

  /** The reply to a request for a chunk after the last one written. */
  function ServePastEnd(inv: Invocation, live: LiveRead, start: Index, last: Index): Reply
    requires last < MAX_INDEX
  {
    if inv.inProgress && live == LiveFailed then Err(KeyValueFailed)
    else if inv.inProgress && live.Live? && start == live.id then Ok(Response(live.buffer, Id(live.id), Blank, true))
    else Ok(Response([], if inv.inProgress then Id(last + 1) else Blank, Id(last), false))
  }

  /** The last chunk that is found; chunk 65535 is never looked for. */
  function LastIndex(store: Store): (last: Index)
    requires store.chunks != []
    ensures last < |store.chunks| && last < MAX_INDEX
  {
    (if |store.chunks| < 0xFFFF then |store.chunks| else 0xFFFF) - 1
  }

  /** The reply as a function of what the handler reads: the database row, if it can be read, then
      the store, then the key-value store. If no chunk had been recorded, any failure to find the
      last one counts as "no chunk has been written". */
  function Serve(lookup: Option<Invocation>, store: Store, live: LiveRead, req: Request, count: LineCounter): Reply {
    match lookup
    case None => Err(LookupFailed)
    case Some(inv) =>
      match inv.lastChunkId
      case Blank => Ok(EMPTY_RESPONSE)
      case Malformed => Err(BadId)
      case Id(recorded) =>
        match FindLast(store, recorded)
        case NoLast(e) => if recorded != MAX_INDEX then Err(e) else ServeNothing(inv, live, req)
        case LastAt(last) =>
          match req.chunkId
          case Blank => ServeRange(store, count, last, last, true, req.minLines)
          case Malformed => Err(BadId)
          case Id(start) =>
            if start == MAX_INDEX then Err(IndexLimitExceeded)
            else if start > last then ServePastEnd(inv, live, start, last)
            else ServeRange(store, count, last, start, false, req.minLines)
  }

  /** GetEventLogChunk in the form of the source. */
  method GetEventLogChunk(lookup: Option<Invocation>, store: Store, live: LiveRead, req: Request, count: LineCounter)
    returns (reply: Reply)
    ensures reply == Serve(lookup, store, live, req, count)
  {
    if lookup.None? {
      return Err(LookupFailed);
    }
    var inv := lookup.value;
    if inv.lastChunkId == Blank {
      return Ok(EMPTY_RESPONSE);
    }
    if inv.lastChunkId == Malformed {
      return Err(BadId);
    }
    var last := GetLastChunkIndex(store, inv.lastChunkId.index);
    if last.NoLast? {
      if inv.lastChunkId != Id(MAX_INDEX) {
        return Err(last.error);
      }
      if inv.inProgress {
        match live {
          case Live(id, buffer) =>
            if req.chunkId == Id(id) {
              return Ok(Response(buffer, Id(id), Blank, true));
            }
          case LiveFailed => return Err(KeyValueFailed);
          case NoLive =>
        }
        return Ok(Response([], Id(0), Blank, false));
      }
      return Ok(EMPTY_RESPONSE);
    }
    var lastChunkIndex := last.index;
    var startIndex := lastChunkIndex;
    if req.chunkId != Blank {
      if req.chunkId == Malformed {
        return Err(BadId);
      }
      startIndex := req.chunkId.index;
      if startIndex == MAX_INDEX {
        return Err(IndexLimitExceeded);
      }
      if startIndex > lastChunkIndex {
        if inv.inProgress {
          match live {
            case Live(id, buffer) =>
              if startIndex == id {
                return Ok(Response(buffer, Id(id), Blank, true));
              }
            case LiveFailed => return Err(KeyValueFailed);
            case NoLive =>
          }
        }
        var rsp := Response([], Blank, Id(lastChunkIndex), false);
        if inv.inProgress {
          rsp := rsp.(next := Id(Plus(lastChunkIndex, 1)));
        }
        return Ok(rsp);
      }
    }
    reply := ReadRange(store, count, lastChunkIndex, startIndex, req.chunkId == Blank, req.minLines);
  }

  /** The read loop. It runs over 16-bit indices and ends at the position after the boundary, which
      downwards is the maximal index. */
  method ReadRange(store: Store, count: LineCounter, last: Index, startIndex: Index, backwards: bool, minLines: int)
    returns (reply: Reply)
    requires startIndex <= last < |store.chunks| && last < MAX_INDEX && (backwards ==> startIndex == last)
    ensures reply == ServeRange(store, count, last, startIndex, backwards, minLines)
  {
    var rsp := Response([], Id(Plus(startIndex, 1)), Id(Plus(startIndex, MAX_INDEX)), false);
    var boundary, step: Index := last, 1;
    if backwards {
      boundary := 0;
      step := MAX_INDEX;
    }
    var end: Index := Plus(boundary, step);
    assert end == if backwards then MAX_INDEX else last + 1;
    var q := new ChunkQueue(store, startIndex, step, boundary);
    var lineCount: nat := 0;
    var chunkIndex: Index := startIndex;
    LoopStarts(store, count, last, startIndex, backwards, minLines);
    while chunkIndex != end
      invariant IsReading(q, store, startIndex, step, boundary, chunkIndex) && fresh(q)
      invariant IsBetween(store, count, last, startIndex, backwards, minLines, q.numPopped, lineCount, chunkIndex, rsp)
      decreases ToGo(last, backwards, chunkIndex)
    {
      var result;
      result, lineCount, rsp := ReadRound(q, count, last, backwards, minLines, chunkIndex, lineCount, rsp);
      if result.Failure? {
        return Err(result.error);
      }
      if lineCount >= minLines {
        break;
      }
      chunkIndex := Plus(chunkIndex, step);
    }
    if rsp.previous == Id(MAX_INDEX) {
      rsp := rsp.(previous := Blank);
    }
    reply := Ok(rsp);
  }

  /** A round up to the test for enough lines, and where it leads. */
  method ReadRound(q: ChunkQueue, count: LineCounter, last: Index, backwards: bool, minLines: int,
      chunkIndex: Index, lineCount: nat, rsp: Response)
    returns (result: ReadResult, newCount: nat, newRsp: Response)
    requires q.start <= last < |q.store.chunks| && last < MAX_INDEX && (backwards ==> q.start == last)
    requires q.boundary == (if backwards then 0 else last) && q.step == (if backwards then MAX_INDEX else 1)
    requires IsReading(q, q.store, q.start, q.step, q.boundary, chunkIndex)
    requires IsUnderWay(q.store, count, last, q.start, backwards, minLines, q.numPopped, lineCount, chunkIndex, rsp)
    modifies q
    ensures result.Failure? ==> ServeRange(q.store, count, last, q.start, backwards, minLines) == Err(result.error)
    ensures result.Data? && newCount >= minLines ==>
      IsAnswer(q.store, count, last, q.start, backwards, minLines, newRsp)
    ensures result.Data? && newCount < minLines ==>
      && IsReading(q, q.store, q.start, q.step, q.boundary, Plus(chunkIndex, q.step))
      && IsBetween(
        q.store, count, last, q.start, backwards, minLines, q.numPopped, newCount, Plus(chunkIndex, q.step), newRsp)
      && 0 <= ToGo(last, backwards, Plus(chunkIndex, q.step)) < ToGo(last, backwards, chunkIndex)
  {
    RoundLeadsOn(q.store, count, last, q.start, backwards, minLines, q.numPopped, lineCount, chunkIndex, rsp);
    result, newCount, newRsp := ReadOne(q, count, chunkIndex, lineCount, rsp);
  }

  /** The loop is at its end with the answer, or under way. */
  predicate IsBetween(
      store: Store, count: LineCounter, last: Index, start: Index, backwards: bool, minLines: int,
      k: nat, lines: nat, chunkIndex: Index, rsp: Response)
    requires start <= last < |store.chunks| && last < MAX_INDEX && (backwards ==> start == last)
  {
    if chunkIndex == (if backwards then MAX_INDEX else last + 1) then
      IsAnswer(store, count, last, start, backwards, minLines, rsp)
    else IsUnderWay(store, count, last, start, backwards, minLines, k, lines, chunkIndex, rsp)
  }

  lemma LoopStarts(store: Store, count: LineCounter, last: Index, start: Index, backwards: bool, minLines: int)
    requires start <= last < |store.chunks| && last < MAX_INDEX && (backwards ==> start == last)
    ensures IsBetween(store, count, last, start, backwards, minLines, 0, 0, start,
      Response([], Id(Plus(start, 1)), Id(Plus(start, MAX_INDEX)), false))
  {
  }

  /** The chunks that the loop may still read. */
  function ToGo(last: Index, backwards: bool, chunkIndex: Index): int {
    if backwards then (chunkIndex + 1) % 0x1_0000 else last + 1 - chunkIndex
  }

  /** A round that neither fails nor finds enough lines leads to the next index, in 16-bit arithmetic,
      and that is closer to the end. */
  lemma RoundLeadsOn(
      store: Store, count: LineCounter, last: Index, start: Index, backwards: bool, minLines: int,
      k: nat, lines: nat, chunkIndex: Index, rsp: Response)
    requires start <= last < |store.chunks| && last < MAX_INDEX && (backwards ==> start == last)
    requires IsUnderWay(store, count, last, start, backwards, minLines, k, lines, chunkIndex, rsp)
    ensures var step: Index := if backwards then MAX_INDEX else 1;
      match ReadChunk(store, chunkIndex)
      case Failure(e) => ServeRange(store, count, last, start, backwards, minLines) == Err(e)
      case Data(buffer) =>
        var next, sum := NextResponse(backwards, rsp, chunkIndex, step, buffer), lines + count(buffer);
        if sum >= minLines then IsAnswer(store, count, last, start, backwards, minLines, next)
        else
          && IsBetween(store, count, last, start, backwards, minLines, k + 1, sum, Plus(chunkIndex, step), next)
          && 0 <= ToGo(last, backwards, Plus(chunkIndex, step)) < ToGo(last, backwards, chunkIndex)
  {
    TakeRound(store, count, last, start, backwards, minLines, k, lines, chunkIndex, rsp);
    assert chunkIndex <= last;
    assert Plus(chunkIndex, if backwards then MAX_INDEX else 1)
      == if !backwards then chunkIndex + 1 else if chunkIndex == 0 then MAX_INDEX else chunkIndex - 1;
  }

  /** The queue is about to deliver the chunk with this index. */
  ghost predicate IsReading(q: ChunkQueue, store: Store, start: Index, step: Index, boundary: Index, index: Index)
    reads q
  {
    && q.Valid()
    && !q.done
    && q.store == store && q.start == start && q.step == step && q.boundary == boundary
    && index == IndexOf(start, step, q.numPopped)
  }

  /** The body of the read loop up to the test for enough lines. */
  method ReadOne(q: ChunkQueue, count: LineCounter, chunkIndex: Index, lineCount: nat, rsp: Response)
    returns (result: ReadResult, newCount: nat, newRsp: Response)
    requires IsReading(q, q.store, q.start, q.step, q.boundary, chunkIndex)
    requires chunkIndex != Plus(q.boundary, q.step)
    modifies q
    ensures result == ReadChunk(q.store, chunkIndex)
    ensures q.numPopped == old(q.numPopped) + 1
    ensures result.Data? ==>
      && IsReading(q, q.store, q.start, q.step, q.boundary, Plus(chunkIndex, q.step))
      && newCount == lineCount + count(result.bytes)
      && newRsp == NextResponse(q.step != 1, rsp, chunkIndex, q.step, result.bytes)
  {
    newCount, newRsp := lineCount, rsp;
    result := q.Pop();
    if result.Failure? {
      return;
    }
    var buffer := result.bytes;
    newCount := lineCount + count(buffer);
    if q.step == 1 {
      newRsp := newRsp.(buffer := newRsp.buffer + buffer);
      newRsp := newRsp.(next := Id(Plus(chunkIndex, q.step)));
    } else {
      newRsp := newRsp.(buffer := buffer + newRsp.buffer);
      newRsp := newRsp.(previous := Id(Plus(chunkIndex, q.step)));
    }
  }

  function WithoutInvalidId(rsp: Response): Response {
    if rsp.previous == Id(MAX_INDEX) then rsp.(previous := Blank) else rsp
  }

  /** The response to send, up to the id that stands for "none". */
  predicate IsAnswer(
      store: Store, count: LineCounter, last: Index, start: Index, backwards: bool, minLines: int, rsp: Response)
    requires start <= last < |store.chunks| && last < MAX_INDEX && (backwards ==> start == last)
  {
    Ok(WithoutInvalidId(rsp)) == ServeRange(store, count, last, start, backwards, minLines)
  }

  predicate IsUnderWay(
      store: Store, count: LineCounter, last: Index, start: Index, backwards: bool, minLines: int,
      k: nat, lines: nat, chunkIndex: Index, rsp: Response)
    requires start <= last < |store.chunks| && last < MAX_INDEX && (backwards ==> start == last)
  {
    && Position(start, last, backwards, k, chunkIndex)
    && RangeToGo(store, count, last, start, backwards, minLines, k, lines)
    && rsp == Partial(store, start, backwards, k)
  }

  /** What one round makes of the response. */
  function NextResponse(backwards: bool, rsp: Response, chunkIndex: Index, step: Index, buffer: seq<Byte>): Response {
    if backwards then rsp.(buffer := buffer + rsp.buffer, previous := Id(Plus(chunkIndex, step)))
    else rsp.(buffer := rsp.buffer + buffer, next := Id(Plus(chunkIndex, step)))
  }

  /** One round: it fails if the reply is an error, it completes the answer if there are enough
      lines or the boundary is reached, and otherwise the loop is one chunk further. */
  predicate RoundIsRight(
      store: Store, count: LineCounter, last: Index, start: Index, backwards: bool, minLines: int,
      k: nat, lines: nat, chunkIndex: Index, rsp: Response)
    requires start <= last < |store.chunks| && last < MAX_INDEX && (backwards ==> start == last)
    requires chunkIndex <= last && (backwards ==> k <= start) && (!backwards ==> start + k <= last)
  {
    match ReadChunk(store, chunkIndex)
    case Failure(e) => ServeRange(store, count, last, start, backwards, minLines) == Err(e)
    case Data(buffer) =>
      var next := NextResponse(backwards, rsp, chunkIndex, if backwards then MAX_INDEX else 1, buffer);
      var sum := lines + count(buffer);
      if sum >= minLines || chunkIndex == (if backwards then 0 else last) then
        IsAnswer(store, count, last, start, backwards, minLines, next)
      else
        var index := if backwards then chunkIndex - 1 else chunkIndex + 1;
        IsUnderWay(store, count, last, start, backwards, minLines, k + 1, sum, index, next)
  }

  lemma TakeRound(
      store: Store, count: LineCounter, last: Index, start: Index, backwards: bool, minLines: int,
      k: nat, lines: nat, chunkIndex: Index, rsp: Response)
    requires start <= last < |store.chunks| && last < MAX_INDEX && (backwards ==> start == last)
    requires IsUnderWay(store, count, last, start, backwards, minLines, k, lines, chunkIndex, rsp)
    ensures RoundIsRight(store, count, last, start, backwards, minLines, k, lines, chunkIndex, rsp)
  {
    if backwards {
      TakeRoundDown(store, count, last, minLines, k, lines, rsp);
    } else {
      TakeRoundUp(store, count, last, start, minLines, k, lines, rsp);
    }
  }

  lemma TakeRoundUp(
      store: Store, count: LineCounter, last: Index, start: Index, minLines: int, k: nat, lines: nat, rsp: Response)
    requires start + k <= last < |store.chunks| && last < MAX_INDEX
    requires IsUnderWay(store, count, last, start, false, minLines, k, lines, start + k, rsp)
    ensures RoundIsRight(store, count, last, start, false, minLines, k, lines, start + k, rsp)
  {
    var read := ReadChunk(store, start + k);
    if read.Data? {
      PartialGrows(store, start, last, false, k);
      var next := NextResponse(false, rsp, start + k, 1, read.bytes);
      assert next == Partial(store, start, false, k + 1);
    }
  }

  /** A reply that reading downwards ends with, or goes on to. */
  lemma DownwardsReply(store: Store, count: LineCounter, last: Index, minLines: int, k: nat, lines: nat)
    requires k <= last < |store.chunks| && last < MAX_INDEX
    requires RangeToGo(store, count, last, last, true, minLines, k, lines) && (last - k) !in store.broken
    ensures var sum := lines + count(store.chunks[last - k]);
      if sum >= minLines || k == last then
        ServeRange(store, count, last, last, true, minLines)
        == Ok(Response(Range(store, last - k, last), Id(last + 1), IdBefore(last - k), false))
      else RangeToGo(store, count, last, last, true, minLines, k + 1, sum)
  {
  }

  lemma TakeRoundDown(
      store: Store, count: LineCounter, last: Index, minLines: int, k: nat, lines: nat, rsp: Response)
    requires k <= last < |store.chunks| && last < MAX_INDEX
    requires IsUnderWay(store, count, last, last, true, minLines, k, lines, last - k, rsp)
    ensures RoundIsRight(store, count, last, last, true, minLines, k, lines, last - k, rsp)
  {
    var read := ReadChunk(store, last - k);
    if read.Data? {
      DownwardsReply(store, count, last, minLines, k, lines);
      PartialGrows(store, last, last, true, k);
      var next := NextResponse(true, rsp, last - k, MAX_INDEX, read.bytes);
      assert next == Partial(store, last, true, k + 1);
    }
  }

  /** After k rounds the loop stands at the chunk k steps from the start. */
  predicate Position(start: Index, last: Index, backwards: bool, k: nat, chunkIndex: Index)
    requires start <= last < MAX_INDEX
  {
    if backwards then k <= start && chunkIndex == start - k else start + k <= last && chunkIndex == start + k
  }

  /** The response built from the first k chunks. */
  function Partial(store: Store, start: Index, backwards: bool, k: nat): Response
    requires start < |store.chunks| && start < MAX_INDEX
    requires if backwards then k <= start + 1 else start + k <= |store.chunks| && start + k <= MAX_INDEX
  {
    if backwards then
      Response(Flatten(store.chunks[start + 1 - k..start + 1]), Id(start + 1),
        Id(if k == 0 then Plus(start, MAX_INDEX) else Plus(start + 1 - k, MAX_INDEX)), false)
    else
      Response(Flatten(store.chunks[start..start + k]), Id(if k == 0 then start + 1 else start + k),
        Id(Plus(start, MAX_INDEX)), false)
  }

  lemma PartialGrows(store: Store, start: Index, last: Index, backwards: bool, k: nat)
    requires start <= last < |store.chunks| && last < MAX_INDEX
    requires if backwards then k <= start else start + k <= last
    ensures var index := if backwards then start - k else start + k;
      var piece, before := store.chunks[index], Partial(store, start, backwards, k).buffer;
      Partial(store, start, backwards, k + 1).buffer == if backwards then piece + before else before + piece
  {
    if backwards {
      assert store.chunks[start - k..start + 1][1..] == store.chunks[start + 1 - k..start + 1];
    } else {
      assert store.chunks[start..start + k + 1] == store.chunks[start..start + k] + [store.chunks[start + k]];
      FlattenAppend(store.chunks[start..start + k], [store.chunks[start + k]]);
      assert Flatten([store.chunks[start + k]]) == store.chunks[start + k] + Flatten([]);
    }
  }

  /** The chunks still to be read complete the range that was asked for. */
  predicate RangeToGo(
      store: Store, count: LineCounter, last: Index, start: Index, backwards: bool, minLines: int, k: nat, lines: nat)
    requires start <= last < |store.chunks| && last < MAX_INDEX
  {
    if backwards then
      && k <= start
      && DownwardsEnd(store, count, start, minLines) == DownwardsEnd(store, count, start - k, minLines - lines)
    else
      && start + k <= last
      && UpwardsEnd(store, count, start, last, minLines) == UpwardsEnd(store, count, start + k, last, minLines - lines)
  }
}
