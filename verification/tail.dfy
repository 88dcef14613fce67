/** The web client that follows a growing log (app/invocation/invocation_logs_model.tsx), over any
    interleaving of its polls with the writing of chunks, updates of the live chunk and the end
    of the invocation. */
module Tail {
  import opened Bytes
  import opened ChunkStore
  import opened EventLog
  import opened Wrappers

  /** What the three places that the server reads hold at one moment, and whether the database
      answers. */
  datatype Log = Log(inv: Invocation, answers: bool, store: Store, live: LiveRead) {
    function Row(): Option<Invocation> {
      if answers then Some(inv) else None
    }
  }

  /** Chunks are only ever added, and none once the invocation is over. The live chunk, the
      recorded id and what fails may change at any time. */
  predicate Evolves(s: Log, t: Log) {
    && s.store.chunks <= t.store.chunks
    && (!s.inv.inProgress ==> !t.inv.inProgress && t.store.chunks == s.store.chunks)
  }

  /** The three readings that answer a request, in the order in which the server takes them. */
  predicate AreReadings(before: Log, row: Log, stored: Log, cached: Log) {
    Evolves(before, row) && Evolves(row, stored) && Evolves(stored, cached)
  }

  datatype Phase = Fetching(chunkId: ChunkId) | Waiting(chunkId: ChunkId) | Complete | Broken

  datatype Client = Client(logs: string, stableLogLength: nat, phase: Phase)

  const NEW_CLIENT := Client("", 0, Fetching(Blank))

  const MIN_LINES := 100_000

  type Decoder = seq<Byte> -> string

  /** The callback for a response. */
  function Receive(decode: Decoder, c: Client, rsp: Response): (r: Client)
    requires c.stableLogLength <= |c.logs| && c.phase.Fetching?
    ensures r.stableLogLength <= |r.logs|
  {
    var logs := c.logs[..c.stableLogLength] + decode(rsp.buffer);
    Client(
      logs,
      if rsp.live then c.stableLogLength else |logs|,
      if rsp.next == Blank then Complete
      else if rsp.next == c.phase.chunkId then Waiting(rsp.next)
      else Fetching(rsp.next))
  }

  /** One turn of the client. The server answers from three readings: the database row first, then
      the store, then the live chunk. */
  function Poll(decode: Decoder, count: LineCounter, c: Client, row: Log, stored: Log, cached: Log): (r: Client)
    requires c.stableLogLength <= |c.logs|
    ensures r.stableLogLength <= |r.logs|
  {
    match c.phase
    case Fetching(chunkId) =>
      (match Serve(row.Row(), stored.store, cached.live, Request(chunkId, MIN_LINES), count)
       case Ok(rsp) => Receive(decode, c, rsp)
       case Err(_) => c.(phase := Broken))
    case Waiting(chunkId) => c.(phase := Fetching(chunkId))
    case _ => c
  }

  // ----- the log that the client has -----

  /** Positions in the list of chunks, in ascending order. */
  predicate AreBounds(bounds: seq<nat>, chunks: seq<seq<Byte>>) {
    && bounds != []
    && (forall i, j :: 0 <= i < j < |bounds| ==> bounds[i] <= bounds[j])
    && bounds[|bounds| - 1] <= |chunks|
  }

  function Last(bounds: seq<nat>): nat
    requires bounds != []
  {
    bounds[|bounds| - 1]
  }

  /** The chunks between the first and the last bound, decoded piece by piece: each piece is one
      response, and adjoins the one before. */
  function TextBetween(decode: Decoder, chunks: seq<seq<Byte>>, bounds: seq<nat>): string
    requires AreBounds(bounds, chunks)
  {
    if |bounds| == 1 then ""
    else
      var before := bounds[..|bounds| - 1];
      assert before[|before| - 1] <= bounds[|bounds| - 1];
      TextBetween(decode, chunks, before) + decode(Flatten(chunks[Last(before)..Last(bounds)]))
  }

  /** The stable part of the client's log is the text of the persisted chunks from its first one up
      to the one it asks for next. If the client has stopped, that is the whole log from there. */
  ghost predicate Holds(decode: Decoder, c: Client, s: Log, bounds: seq<nat>) {
    && c.stableLogLength <= |c.logs|
    && AreBounds(bounds, s.store.chunks)
    && c.logs[..c.stableLogLength] == TextBetween(decode, s.store.chunks, bounds)
    && (c.phase.Fetching? || c.phase.Waiting? ==> Last(bounds) <= MAX_INDEX && c.phase.chunkId == Id(Last(bounds)))
    && (c.phase.Complete? ==>
        !s.inv.inProgress && Last(bounds) == |s.store.chunks| && c.stableLogLength == |c.logs|)
  }

  lemma {:induction false} TextOfLongerLog(decode: Decoder, a: seq<seq<Byte>>, b: seq<seq<Byte>>, bounds: seq<nat>)
    requires a <= b && AreBounds(bounds, a)
    ensures AreBounds(bounds, b) && TextBetween(decode, a, bounds) == TextBetween(decode, b, bounds)
  {
    if |bounds| > 1 {
      var before := bounds[..|bounds| - 1];
      assert Last(before) <= Last(bounds);
      TextOfLongerLog(decode, a, b, before);
      assert a[Last(before)..Last(bounds)] == b[Last(before)..Last(bounds)];
    }
  }

  lemma HoldsLater(decode: Decoder, c: Client, s: Log, t: Log, bounds: seq<nat>)
    requires Holds(decode, c, s, bounds) && Evolves(s, t)
    ensures Holds(decode, c, t, bounds)
  {
    TextOfLongerLog(decode, s.store.chunks, t.store.chunks, bounds);
  }

  /** A response that holds the next chunks extends what the client has. */
  lemma ReceiveChunks(decode: Decoder, c: Client, s: Log, bounds: seq<nat>, rsp: Response, end: nat)
    requires Holds(decode, c, s, bounds) && c.phase.Fetching? && !rsp.live
    requires Last(bounds) <= end <= |s.store.chunks|
    requires rsp.buffer == Flatten(s.store.chunks[Last(bounds)..end])
    requires if rsp.next == Blank then !s.inv.inProgress && end == |s.store.chunks|
      else end <= MAX_INDEX && rsp.next == Id(end)
    ensures Holds(decode, Receive(decode, c, rsp), s, bounds + [end])
  {
    var longer := bounds + [end];
    assert longer[..|longer| - 1] == bounds;
    var logs := Receive(decode, c, rsp).logs;
    assert logs[..|logs|] == logs;
  }

  /** A live response leaves the stable part alone. */
  lemma ReceiveLive(decode: Decoder, c: Client, s: Log, bounds: seq<nat>, rsp: Response)
    requires Holds(decode, c, s, bounds) && c.phase.Fetching? && rsp.live && rsp.next == c.phase.chunkId
    ensures Holds(decode, Receive(decode, c, rsp), s, bounds)
  {
    var logs := Receive(decode, c, rsp).logs;
    assert logs[..c.stableLogLength] == c.logs[..c.stableLogLength];
  }

  // ----- which replies continue the log -----

  /** The server has not looked into the log and takes it for empty: no id has been recorded at all, or
      the one that says that no chunk existed yet, and a question whether chunks exist now is not
      answered. */
  predicate IsTakenForEmpty(row: Log, stored: Log) {
    && row.answers
    && (row.inv.lastChunkId == Blank
        || (row.inv.lastChunkId == Id(MAX_INDEX) && !IsAnswered(stored.store, 0)))
  }

  /** The chunk with which the last lines of a log begin. */
  function FirstChunk(store: Store, count: LineCounter): (n: nat) {
    if store.chunks == [] then 0
    else
      var lo := DownwardsEnd(store, count, LastIndex(store), MIN_LINES);
      if lo < 0 then 0 else lo
  }

  /** The chunk with which the log of a new client begins. */
  function StartChunk(row: Log, stored: Log, count: LineCounter): nat {
    if IsTakenForEmpty(row, stored) then 0 else FirstChunk(stored.store, count)
  }

  /** The chunk with which the reply to a request should begin. */
  function AskedChunk(chunkId: ChunkId, row: Log, stored: Log, count: LineCounter): nat {
    if chunkId.Id? then chunkId.index else StartChunk(row, stored, count)
  }

  /** A log taken for empty misleads a client that needs chunks of it which are not empty, once no more
      can come; and before that, one whose last reply ended further on, unless it gets the live chunk or
      an error. Without any recorded id, more is never announced. */
  predicate Misleads(chunkId: ChunkId, row: Log, stored: Log, cached: Log) {
    var n: nat := if chunkId.Id? then chunkId.index else 0;
    && IsTakenForEmpty(row, stored)
    && (if !row.inv.inProgress then n <= |stored.store.chunks| && Flatten(stored.store.chunks[n..]) != []
        else row.inv.lastChunkId == Blank
             || (n != 0 && cached.live != LiveFailed && !(cached.live.Live? && cached.live.id == n)))
  }

  /** What should be answered to a client that has all chunks before n: either the live chunk
      under that id, or the chunks from n up to some end, and the id of the chunk at that end
      unless the log ends there for good. */
  predicate Continues(
      rsp: Response, inProgress: bool, live: LiveRead, chunks: seq<seq<Byte>>, n: nat, end: nat)
  {
    if rsp.live then
      && inProgress && live.Live? && live.id == n && end == n
      && rsp.buffer == live.buffer && rsp.next == Id(live.id)
    else
      && n <= end <= |chunks|
      && rsp.buffer == Flatten(chunks[n..end])
      && (if rsp.next == Blank then !inProgress && end == |chunks| else end <= MAX_INDEX && rsp.next == Id(end))
  }

  /** Where a reply ends that continues the log. */
  function EndOf(rsp: Response, chunks: seq<seq<Byte>>, n: nat): nat {
    if rsp.live then n else if rsp.next.Id? then rsp.next.index else |chunks|
  }

  lemma OnlyEnd(rsp: Response, inProgress: bool, live: LiveRead, chunks: seq<seq<Byte>>, n: nat, end: nat)
    requires Continues(rsp, inProgress, live, chunks, n, end)
    ensures end == EndOf(rsp, chunks, n)
  {
  }

  /** The reply to a request for the next 100000 lines. */
  function Answer(chunkId: ChunkId, row: Log, stored: Log, cached: Log, count: LineCounter): Reply {
    Serve(row.Row(), stored.store, cached.live, Request(chunkId, 100_000), count)
  }

  /** The reply when the log is taken for empty. */
  lemma EmptyReply(chunkId: ChunkId, row: Log, stored: Log, cached: Log, count: LineCounter)
    requires IsTakenForEmpty(row, stored)
    ensures Answer(chunkId, row, stored, cached, count)
      == if row.inv.lastChunkId == Blank || !row.inv.inProgress then Ok(EMPTY_RESPONSE)
         else ServeNothing(row.inv, cached.live, Request(chunkId, MIN_LINES))
  {
  }

  /** An empty response without a next chunk. */
  lemma EndContinues(inProgress: bool, live: LiveRead, chunks: seq<seq<Byte>>, n: nat)
    requires n <= |chunks|
    ensures Continues(EMPTY_RESPONSE, inProgress, live, chunks, n, EndOf(EMPTY_RESPONSE, chunks, n))
      <==> !inProgress && Flatten(chunks[n..]) == []
  {
    assert chunks[n..] == chunks[n..|chunks|];
  }

  /** The reply that announces the first chunk, or holds the live one. */
  lemma FirstContinues(inv: Invocation, live: LiveRead, chunkId: ChunkId, chunks: seq<seq<Byte>>, n: nat)
    requires inv.inProgress && n <= |chunks| && n == (if chunkId.Id? then chunkId.index else 0)
    ensures var reply := ServeNothing(inv, live, Request(chunkId, MIN_LINES));
      && (reply.Ok? <==> live != LiveFailed)
      && (reply.Ok? ==>
          (Continues(reply.response, true, live, chunks, n, EndOf(reply.response, chunks, n))
           <==> n == 0 || (live.Live? && live.id == n)))
  {
    assert chunks[0..0] == [];
  }

  /** A log taken for empty. */
  lemma EmptyContinues(chunkId: ChunkId, row: Log, stored: Log, cached: Log, count: LineCounter)
    requires IsTakenForEmpty(row, stored)
    requires AskedChunk(chunkId, row, stored, count) <= |stored.store.chunks|
    ensures var reply := Answer(chunkId, row, stored, cached, count);
      var n, chunks := AskedChunk(chunkId, row, stored, count), stored.store.chunks;
      && (Misleads(chunkId, row, stored, cached) ==> reply.Ok?)
      && (reply.Ok? ==>
          (Continues(reply.response, row.inv.inProgress, cached.live, chunks, n, EndOf(reply.response, chunks, n))
           <==> !Misleads(chunkId, row, stored, cached)))
  {
    var n, chunks := AskedChunk(chunkId, row, stored, count), stored.store.chunks;
    EmptyReply(chunkId, row, stored, cached, count);
    EndContinues(row.inv.inProgress, cached.live, chunks, n);
    if row.inv.inProgress {
      FirstContinues(row.inv, cached.live, chunkId, chunks, n);
    }
  }

  /** A reply from the store, in both directions. */
  lemma RangeContinues(
      store: Store, count: LineCounter, inProgress: bool, live: LiveRead, n: Index, last: Index, backwards: bool)
    requires n <= last < |store.chunks| && last < MAX_INDEX && (backwards ==> n == last)
    ensures match ServeRange(store, count, last, n, backwards, MIN_LINES)
      case Err(_) => true
      case Ok(rsp) =>
        var first := if backwards then DownwardsEnd(store, count, n, MIN_LINES) else n;
        first >= 0 && Continues(rsp, inProgress, live, store.chunks, first, EndOf(rsp, store.chunks, first))
  {
  }

  /** A reply past the end. */
  lemma PastEndContinues(inv: Invocation, store: Store, live: LiveRead, n: Index)
    requires store.chunks != [] && LastIndex(store) < n <= |store.chunks| && n != MAX_INDEX
    ensures var reply := ServePastEnd(inv, live, n, LastIndex(store));
      reply.Ok? ==>
        Continues(reply.response, inv.inProgress, live, store.chunks, n, EndOf(reply.response, store.chunks, n))
  {
    assert store.chunks[n..n] == [];
  }

  /** If nothing is found in a log that is looked into, it is empty or the reply is an error. */
  lemma NothingContinues(inv: Invocation, store: Store, live: LiveRead, chunkId: ChunkId)
    requires store.chunks == [] && (chunkId == Blank || chunkId == Id(0))
    ensures var reply := ServeNothing(inv, live, Request(chunkId, MIN_LINES));
      reply.Ok? ==>
        Continues(reply.response, inv.inProgress, live, store.chunks, 0, EndOf(reply.response, store.chunks, 0))
  {
  }

  lemma FoundContinues(chunkId: ChunkId, row: Log, stored: Log, cached: Log, count: LineCounter)
    requires row.answers && !IsTakenForEmpty(row, stored) && !chunkId.Malformed?
    requires AskedChunk(chunkId, row, stored, count) <= |stored.store.chunks|
    ensures var reply := Answer(chunkId, row, stored, cached, count);
      var n, chunks := AskedChunk(chunkId, row, stored, count), stored.store.chunks;
      reply.Ok? ==>
        Continues(reply.response, row.inv.inProgress, cached.live, chunks, n, EndOf(reply.response, chunks, n))
  {
    var n, store := AskedChunk(chunkId, row, stored, count), stored.store;
    if row.inv.lastChunkId.Id? {
      match FindLast(store, row.inv.lastChunkId.index) {
        case NoLast(_) =>
          if row.inv.lastChunkId.index == MAX_INDEX {
            NothingContinues(row.inv, store, cached.live, chunkId);
          }
        case LastAt(last) =>
          assert last == LastIndex(store);
          if chunkId == Blank {
            RangeContinues(store, count, row.inv.inProgress, cached.live, last, last, true);
          } else if n <= last {
            RangeContinues(store, count, row.inv.inProgress, cached.live, n, last, false);
          } else if n != MAX_INDEX {
            PastEndContinues(row.inv, store, cached.live, n);
          }
      }
    }
  }

  /** The reply to a client that has all chunks before the one it asks for, or none yet, is the right
      one to go on with exactly if it does not mislead; and one that misleads is never an error. */
  lemma ReplyContinuesExactly(chunkId: ChunkId, row: Log, stored: Log, cached: Log, count: LineCounter)
    requires !chunkId.Malformed? && AskedChunk(chunkId, row, stored, count) <= |stored.store.chunks|
    ensures var reply := Answer(chunkId, row, stored, cached, count);
      var n, chunks := AskedChunk(chunkId, row, stored, count), stored.store.chunks;
      && (Misleads(chunkId, row, stored, cached) ==> reply.Ok?)
      && (reply.Ok? ==>
          ((exists end: nat :: Continues(reply.response, row.inv.inProgress, cached.live, chunks, n, end))
           <==> !Misleads(chunkId, row, stored, cached)))
  {
    if IsTakenForEmpty(row, stored) {
      EmptyContinues(chunkId, row, stored, cached, count);
    } else if row.answers {
      FoundContinues(chunkId, row, stored, cached, count);
    }
    var reply := Answer(chunkId, row, stored, cached, count);
    var n, chunks := AskedChunk(chunkId, row, stored, count), stored.store.chunks;
    if reply.Ok? {
      forall end: nat | Continues(reply.response, row.inv.inProgress, cached.live, chunks, n, end)
        ensures end == EndOf(reply.response, chunks, n)
      {
        OnlyEnd(reply.response, row.inv.inProgress, cached.live, chunks, n, end);
      }
    }
  }

  /** What a reply that misleads makes of a client: it stops with what it has, or goes back to the
      first chunk. */
  lemma MisledPoll(decode: Decoder, count: LineCounter, c: Client, row: Log, stored: Log, cached: Log)
    requires c.stableLogLength <= |c.logs| && c.phase.Fetching? && !c.phase.chunkId.Malformed?
    requires Misleads(c.phase.chunkId, row, stored, cached)
    ensures var logs := c.logs[..c.stableLogLength] + decode([]);
      Poll(decode, count, c, row, stored, cached)
      == Client(logs, |logs|, if row.inv.inProgress && row.inv.lastChunkId != Blank then Fetching(Id(0)) else Complete)
  {
  }

  /** Does the server mislead the client, if it asks? */
  predicate IsMisled(c: Client, row: Log, stored: Log, cached: Log) {
    c.phase.Fetching? && Misleads(c.phase.chunkId, row, stored, cached)
  }

  /** Following the log from a known position: every poll that does not mislead keeps what the client
      holds right. */
  lemma PollFollows(
      decode: Decoder, count: LineCounter, c: Client, s: Log, bounds: seq<nat>, row: Log, stored: Log, cached: Log)
    returns (longer: seq<nat>)
    requires Holds(decode, c, s, bounds) && AreReadings(s, row, stored, cached) && !IsMisled(c, row, stored, cached)
    ensures Holds(decode, Poll(decode, count, c, row, stored, cached), cached, longer)
    ensures longer[0] == bounds[0]
  {
    longer := bounds;
    HoldsLater(decode, c, s, row, bounds);
    HoldsLater(decode, c, row, stored, bounds);
    HoldsLater(decode, c, stored, cached, bounds);
    if c.phase.Fetching? {
      var n, chunks := Last(bounds), stored.store.chunks;
      ReplyContinuesExactly(c.phase.chunkId, row, stored, cached, count);
      var reply := Answer(c.phase.chunkId, row, stored, cached, count);
      if reply.Ok? {
        var end: nat :| Continues(reply.response, row.inv.inProgress, cached.live, chunks, n, end);
        if reply.response.live {
          ReceiveLive(decode, c, cached, bounds, reply.response);
        } else {
          assert cached.store.chunks[n..end] == chunks[n..end];
          ReceiveChunks(decode, c, cached, bounds, reply.response, end);
          longer := bounds + [end];
        }
      }
    }
  }

  /** What the client then shows: the stable text, and behind it the live chunk if that was served. It
      waits for some time before it asks for the same chunk again. */
  lemma PollShows(
      decode: Decoder, count: LineCounter, c: Client, s: Log, bounds: seq<nat>, row: Log, stored: Log, cached: Log)
    requires Holds(decode, c, s, bounds) && AreReadings(s, row, stored, cached) && !IsMisled(c, row, stored, cached)
    requires c.phase.Fetching? && Answer(c.phase.chunkId, row, stored, cached, count).Ok?
    ensures var r := Poll(decode, count, c, row, stored, cached);
      if Answer(c.phase.chunkId, row, stored, cached, count).response.live then
        && cached.live.Live? && cached.live.id == Last(bounds)
        && r.logs == TextBetween(decode, s.store.chunks, bounds) + decode(cached.live.buffer)
        && r.stableLogLength == c.stableLogLength
        && r.phase == Waiting(c.phase.chunkId)
      else
        && r.stableLogLength == |r.logs|
        && (r.phase.Waiting? <==> Answer(c.phase.chunkId, row, stored, cached, count).response.next == c.phase.chunkId)
  {
    HoldsLater(decode, c, s, row, bounds);
    HoldsLater(decode, c, row, stored, bounds);
    ReplyContinuesExactly(c.phase.chunkId, row, stored, cached, count);
  }

  lemma TextOfOne(decode: Decoder, chunks: seq<seq<Byte>>, first: nat, end: nat)
    requires first <= end <= |chunks|
    ensures AreBounds([first, end], chunks)
    ensures TextBetween(decode, chunks, [first, end]) == decode(Flatten(chunks[first..end]))
  {
    assert [first, end][..1] == [first];
    assert TextBetween(decode, chunks, [first]) == "";
  }

  /** The first poll fixes the first chunk. */
  lemma PollStarts(decode: Decoder, count: LineCounter, row: Log, stored: Log, cached: Log)
    returns (bounds: seq<nat>)
    requires AreReadings(row, row, stored, cached) && !IsMisled(NEW_CLIENT, row, stored, cached)
    ensures Holds(decode, Poll(decode, count, NEW_CLIENT, row, stored, cached), cached, bounds)
    ensures var c := Poll(decode, count, NEW_CLIENT, row, stored, cached);
      c.phase.Broken? || bounds[0] == StartChunk(row, stored, count)
  {
    var reply := Answer(Blank, row, stored, cached, count);
    if reply.Err? {
      return [0];
    }
    var rsp, first, chunks := reply.response, StartChunk(row, stored, count), stored.store.chunks;
    ReplyContinuesExactly(Blank, row, stored, cached, count);
    var end: nat :| Continues(rsp, row.inv.inProgress, cached.live, chunks, first, end);
    bounds := [first, end];
    NewClientGetsNothingLive(row, stored, cached, count);
    assert chunks[first..end] == cached.store.chunks[first..end];
    TextOfOne(decode, cached.store.chunks, first, end);
    ReceiveFirst(decode, rsp);
  }

  lemma NewClientGetsNothingLive(row: Log, stored: Log, cached: Log, count: LineCounter)
    ensures var reply := Answer(Blank, row, stored, cached, count); reply.Ok? ==> !reply.response.live
  {
  }

  lemma ReceiveFirst(decode: Decoder, rsp: Response)
    requires !rsp.live
    ensures var c := Receive(decode, NEW_CLIENT, rsp);
      && c.logs == decode(rsp.buffer) == c.logs[..c.stableLogLength] && c.stableLogLength == |c.logs|
      && c.phase == if rsp.next == Blank then Complete else Fetching(rsp.next)
  {
    var logs := decode(rsp.buffer);
    assert [] + logs == logs == logs[..|logs|];
  }

  // ----- whole runs -----

  /** Polls with their readings, each after the one before; anything may happen in between. */
  ghost predicate IsHistory(before: Log, polls: seq<(Log, Log, Log)>)
    decreases polls
  {
    polls == []
    || (AreReadings(before, polls[0].0, polls[0].1, polls[0].2) && IsHistory(polls[0].2, polls[1..]))
  }

  function PollAll(decode: Decoder, count: LineCounter, c: Client, polls: seq<(Log, Log, Log)>): (r: Client)
    requires c.stableLogLength <= |c.logs|
    ensures r.stableLogLength <= |r.logs|
    decreases polls
  {
    if polls == [] then c
    else PollAll(decode, count, Poll(decode, count, c, polls[0].0, polls[0].1, polls[0].2), polls[1..])
  }

  function LastReading(before: Log, polls: seq<(Log, Log, Log)>): Log {
    if polls == [] then before else polls[|polls| - 1].2
  }

  /** No poll misleads the client. */
  predicate NoneMisleads(decode: Decoder, count: LineCounter, c: Client, polls: seq<(Log, Log, Log)>)
    requires c.stableLogLength <= |c.logs|
    decreases polls
  {
    polls == []
    || (var (row, stored, cached) := polls[0];
        !IsMisled(c, row, stored, cached)
        && NoneMisleads(decode, count, Poll(decode, count, c, row, stored, cached), polls[1..]))
  }

  lemma {:induction false} PollsFollow(
      decode: Decoder, count: LineCounter, c: Client, s: Log, bounds: seq<nat>, polls: seq<(Log, Log, Log)>)
    returns (longer: seq<nat>)
    requires Holds(decode, c, s, bounds) && IsHistory(s, polls) && NoneMisleads(decode, count, c, polls)
    ensures Holds(decode, PollAll(decode, count, c, polls), LastReading(s, polls), longer)
    ensures longer[0] == bounds[0]
    decreases polls
  {
    longer := bounds;
    if polls != [] {
      var (row, stored, cached) := polls[0];
      longer := PollFollows(decode, count, c, s, bounds, row, stored, cached);
      longer := PollsFollow(decode, count, Poll(decode, count, c, row, stored, cached), cached, longer, polls[1..]);
    }
  }

  lemma {:induction false} BrokenStaysBroken(
      decode: Decoder, count: LineCounter, c: Client, polls: seq<(Log, Log, Log)>)
    requires c.stableLogLength <= |c.logs| && c.phase.Broken?
    ensures PollAll(decode, count, c, polls) == c
    decreases polls
  {
    if polls != [] {
      BrokenStaysBroken(decode, count, c, polls[1..]);
    }
  }

  /** Whatever happens on the server between and during the polls, as long as none misleads: the
      client's stable text is that of consecutive persisted chunks, without gap or repetition, up to
      the chunk it asks for next; and when it has stopped, its log is complete from its first chunk on,
      the one with which the last lines began when it started, or chunk 0 if the log was then taken
      for empty. */
  lemma ClientFollowsTheLog(decode: Decoder, count: LineCounter, before: Log, polls: seq<(Log, Log, Log)>)
    requires polls != [] && IsHistory(before, polls) && NoneMisleads(decode, count, NEW_CLIENT, polls)
    ensures exists bounds ::
      && Holds(decode, PollAll(decode, count, NEW_CLIENT, polls), LastReading(before, polls), bounds)
      && (PollAll(decode, count, NEW_CLIENT, polls).phase.Broken?
          || bounds[0] == StartChunk(polls[0].0, polls[0].1, count))
  {
    var (row, stored, cached) := polls[0];
    var bounds := PollStarts(decode, count, row, stored, cached);
    var c := Poll(decode, count, NEW_CLIENT, row, stored, cached);
    bounds := PollsFollow(decode, count, c, cached, bounds, polls[1..]);
    if c.phase.Broken? {
      BrokenStaysBroken(decode, count, c, polls[1..]);
    }
    assert PollAll(decode, count, NEW_CLIENT, polls)
      == PollAll(decode, count, Poll(decode, count, NEW_CLIENT, row, stored, cached), polls[1..]);
    assert LastReading(cached, polls[1..]) == LastReading(before, polls);
  }

  /** The reply that the client gets, if it asks and is answered, continues the log where it stands. */
  ghost predicate GetsRightReply(count: LineCounter, c: Client, row: Log, stored: Log, cached: Log) {
    c.phase.Fetching? ==>
      var reply := Answer(c.phase.chunkId, row, stored, cached, count);
      reply.Ok? ==>
        exists end: nat :: Continues(
          reply.response, row.inv.inProgress, cached.live, stored.store.chunks,
          AskedChunk(c.phase.chunkId, row, stored, count), end)
  }

  ghost predicate AllGetRightReplies(decode: Decoder, count: LineCounter, c: Client, polls: seq<(Log, Log, Log)>)
    requires c.stableLogLength <= |c.logs|
    decreases polls
  {
    polls == []
    || (var (row, stored, cached) := polls[0];
        GetsRightReply(count, c, row, stored, cached)
        && AllGetRightReplies(decode, count, Poll(decode, count, c, row, stored, cached), polls[1..]))
  }

  lemma {:induction false} FollowerGetsRightReplies(
      decode: Decoder, count: LineCounter, c: Client, s: Log, bounds: seq<nat>, polls: seq<(Log, Log, Log)>)
    requires Holds(decode, c, s, bounds) && IsHistory(s, polls)
    ensures AllGetRightReplies(decode, count, c, polls) <==> NoneMisleads(decode, count, c, polls)
    decreases polls
  {
    if polls != [] {
      var (row, stored, cached) := polls[0];
      if c.phase.Fetching? {
        ReplyContinuesExactly(c.phase.chunkId, row, stored, cached, count);
      }
      if !IsMisled(c, row, stored, cached) {
        var longer := PollFollows(decode, count, c, s, bounds, row, stored, cached);
        FollowerGetsRightReplies(
          decode, count, Poll(decode, count, c, row, stored, cached), cached, longer, polls[1..]);
      }
    }
  }

  /** Over any history, every reply to a client continues the log where the client stands exactly if no
      poll misleads it. */
  lemma RepliesAreRightExactly(decode: Decoder, count: LineCounter, before: Log, polls: seq<(Log, Log, Log)>)
    requires IsHistory(before, polls)
    ensures AllGetRightReplies(decode, count, NEW_CLIENT, polls) <==> NoneMisleads(decode, count, NEW_CLIENT, polls)
  {
    if polls != [] {
      var (row, stored, cached) := polls[0];
      ReplyContinuesExactly(Blank, row, stored, cached, count);
      if !IsMisled(NEW_CLIENT, row, stored, cached) {
        var bounds := PollStarts(decode, count, row, stored, cached);
        FollowerGetsRightReplies(
          decode, count, Poll(decode, count, NEW_CLIENT, row, stored, cached), cached, bounds, polls[1..]);
      }
    }
  }

  // ----- after the invocation -----

  /** A finished log of which everything can be read. */
  predicate IsFinished(s: Log) {
    && !s.inv.inProgress && |s.store.chunks| <= 0x1_0000
    && s.answers && s.inv.lastChunkId != Blank && s.store.broken == {} && s.store.unanswered == {}
  }

  /** The database row names a chunk that exists, or says that none existed yet. */
  predicate IsRecorded(s: Log) {
    s.inv.lastChunkId.Id? && (s.inv.lastChunkId.index == MAX_INDEX || s.inv.lastChunkId.index < |s.store.chunks|)
  }

  function PollRepeatedly(decode: Decoder, count: LineCounter, c: Client, s: Log, times: nat): (r: Client)
    requires c.stableLogLength <= |c.logs|
    ensures r.stableLogLength <= |r.logs|
    decreases times
  {
    if times == 0 then c else PollRepeatedly(decode, count, Poll(decode, count, c, s, s, s), s, times - 1)
  }

  lemma {:induction false} StoppedStaysStopped(decode: Decoder, count: LineCounter, c: Client, s: Log, times: nat)
    requires c.stableLogLength <= |c.logs| && (c.phase.Complete? || c.phase.Broken?)
    ensures PollRepeatedly(decode, count, c, s, times) == c
    decreases times
  {
    if times > 0 {
      StoppedStaysStopped(decode, count, c, s, times - 1);
    }
  }

  /** The polls that a client may still need. */
  function PollsToGo(c: Client, s: Log): nat {
    match c.phase
    case Fetching(Id(n)) => if n <= |s.store.chunks| then 2 * (|s.store.chunks| + 1 - n) else 0
    case Waiting(Id(n)) => if n <= |s.store.chunks| then 2 * (|s.store.chunks| + 1 - n) + 1 else 0
    case _ => 0
  }

  lemma UnbrokenRangeEnds(store: Store, count: LineCounter, i: nat, last: nat, need: int)
    requires i <= last < |store.chunks| && last < MAX_INDEX && store.broken == {}
    ensures UpwardsEnd(store, count, i, last, need) >= i
    decreases last - i
  {
    if i < last && count(store.chunks[i]) < need {
      UnbrokenRangeEnds(store, count, i + 1, last, need - count(store.chunks[i]));
    }
  }

  lemma FinishedPoll(decode: Decoder, count: LineCounter, c: Client, s: Log, bounds: seq<nat>)
    requires Holds(decode, c, s, bounds) && IsFinished(s) && (c.phase.Fetching? || c.phase.Waiting?)
    ensures var r := Poll(decode, count, c, s, s, s);
      && (r.phase.Fetching? || r.phase.Complete? || r.phase.Broken?)
      && (r.phase.Fetching? ==> PollsToGo(r, s) < PollsToGo(c, s))
      && (r.phase.Complete? ==> IsRecorded(s) && |s.store.chunks| < 0xFFFF)
      && (r.phase.Broken? ==> !IsRecorded(s) || |s.store.chunks| >= 0xFFFF)
  {
    var n := Last(bounds);
    if s.store.chunks != [] && n <= LastIndex(s.store) {
      UnbrokenRangeEnds(s.store, count, n, LastIndex(s.store), MIN_LINES);
    }
  }

  /** Once the invocation is over, a client that follows the log stops after finitely many polls. It
      has the complete log exactly when the recorded id names a chunk that exists, or says that none
      existed yet, and there are fewer than 65535 chunks: the last index that could follow them is the
      one that stands for "none", and asking for it is an error. */
  lemma {:induction false} FinishedLogIsFetchedExactly(
      decode: Decoder, count: LineCounter, c: Client, s: Log, bounds: seq<nat>, times: nat)
    requires Holds(decode, c, s, bounds) && IsFinished(s) && (c.phase.Fetching? || c.phase.Waiting?)
    requires times >= PollsToGo(c, s)
    ensures PollRepeatedly(decode, count, c, s, times).phase
      == if IsRecorded(s) && |s.store.chunks| < 0xFFFF then Complete else Broken
    decreases times
  {
    FinishedPoll(decode, count, c, s, bounds);
    var r := Poll(decode, count, c, s, s, s);
    if r.phase.Fetching? {
      var longer := PollFollows(decode, count, c, s, bounds, s, s, s);
      FinishedLogIsFetchedExactly(decode, count, r, s, longer, times - 1);
    } else {
      StoppedStaysStopped(decode, count, r, s, times - 1);
    }
  }

  // ----- examples -----

  function EmptyChunks(n: nat): seq<seq<Byte>> {
    seq(n, _ => [])
  }

  /** A finished log of 65535 chunks, and a client that has just learned where it begins: in the end it
      gives up, although everything can be read. */
  lemma FullLogBreaksClient(decode: Decoder, count: LineCounter) returns (s: Log, c: Client, bounds: seq<nat>)
    ensures IsFinished(s) && |s.store.chunks| == 0xFFFF
    ensures Holds(decode, c, s, bounds) && c.phase == Fetching(Id(0))
    ensures PollRepeatedly(decode, count, c, s, PollsToGo(c, s)).phase == Broken
  {
    s := Log(Invocation(Id(0), false), true, Store(EmptyChunks(0xFFFF), {}, {}), NoLive);
    c := Client("", 0, Fetching(Id(0)));
    bounds := [0];
    FinishedLogIsFetchedExactly(decode, count, c, s, bounds, PollsToGo(c, s));
  }

  /** While no chunk has been recorded, one failure to ask whether a chunk exists sends a client that
      has the first chunk back to it: it then shows that chunk twice. */
  lemma FailedCheckRepeatsChunk(decode: Decoder, count: LineCounter, chunk: seq<Byte>)
    returns (s: Log, t: Log, c: Client)
    requires decode([]) == ""
    ensures s.inv.inProgress && Evolves(s, t) && t.store.chunks == [chunk]
    ensures Holds(decode, c, s, [0, 1]) && c.logs == decode(chunk)
    ensures var again := Poll(decode, count, Poll(decode, count, c, s, s, s), t, t, t);
      again.logs == decode(chunk) + decode(chunk) && again.stableLogLength == |again.logs|
  {
    var inv := Invocation(Id(MAX_INDEX), true);
    s := Log(inv, true, Store([chunk], {}, {0}), NoLive);
    t := Log(inv, true, Store([chunk], {}, {}), NoLive);
    var logs := decode(chunk);
    c := Client(logs, |logs|, Fetching(Id(1)));
    TextOfOne(decode, [chunk], 0, 1);
    assert [chunk][0..1] == [chunk] && Flatten([chunk]) == chunk + Flatten([]) == chunk;
    assert logs[..|logs|] == logs && logs + "" == logs;
    assert !IsAnswered(s.store, 0);
    var first := Poll(decode, count, c, s, s, s);
    assert first == Client(logs, |logs|, Fetching(Id(0)));
    RangeOfOne(t.store, count, chunk);
  }

  /** The same failure after the invocation ends a new client's log before it has begun, although
      everything can be read. */
  lemma FailedCheckLosesLog(decode: Decoder, count: LineCounter, chunk: seq<Byte>) returns (s: Log)
    requires decode([]) == "" && chunk != []
    ensures !s.inv.inProgress && s.store.chunks == [chunk] && s.store.broken == {} && IsRecorded(s)
    ensures Poll(decode, count, NEW_CLIENT, s, s, s) == Client("", 0, Complete)
  {
    s := Log(Invocation(Id(MAX_INDEX), false), true, Store([chunk], {}, {0}), NoLive);
    assert !IsAnswered(s.store, 0);
    assert [chunk][0..] == [chunk] && Flatten([chunk]) == chunk + Flatten([]) == chunk;
    MisledPoll(decode, count, NEW_CLIENT, s, s, s);
  }

  lemma RangeOfOne(store: Store, count: LineCounter, chunk: seq<Byte>)
    requires store == Store([chunk], {}, {})
    ensures FindLast(store, MAX_INDEX) == LastAt(0)
    ensures ServeRange(store, count, 0, 0, false, MIN_LINES) == Ok(Response(chunk, Id(1), Blank, false))
  {
    assert [chunk][0..1] == [chunk] && Flatten([chunk]) == chunk + Flatten([]) == chunk;
  }

  // ----- the client as an object -----

  class InvocationLogsModel {
    var logs: string
    var stableLogLength: nat
    var phase: Phase  // the request that is out, or the one that the timer will send
    const decode: Decoder

    ghost function State(): Client
      reads this
    {
      Client(logs, stableLogLength, phase)
    }

    constructor (decode: Decoder)
      ensures State() == NEW_CLIENT && this.decode == decode
    {
      this.decode := decode;
      logs, stableLogLength, phase := "", 0, Fetching(Blank);
    }

    method FetchTail(chunkId: ChunkId)
      modifies this`phase
      ensures phase == Fetching(chunkId)
    {
      phase := Fetching(chunkId);
    }

    /** The callback that takes a response to the request for this chunk. */
    method OnResponse(response: Response)
      requires stableLogLength <= |logs| && phase.Fetching?
      modifies this
      ensures State() == Receive(decode, old(State()), response)
    {
      var chunkId := phase.chunkId;
      logs := logs[..stableLogLength];
      logs := logs + decode(response.buffer);
      if !response.live {
        stableLogLength := |logs|;
      }
      if response.next == Blank {
        phase := Complete;
        return;
      }
      if response.next == chunkId {
        phase := Waiting(chunkId);
        return;
      }
      FetchTail(response.next);
    }

    method OnError()
      modifies this`phase
      ensures State() == old(State()).(phase := Broken)
    {
      phase := Broken;
    }

    /** A request goes out and its answer comes in, or the timer of the last poll runs out. */
    method Turn(count: LineCounter, row: Log, stored: Log, cached: Log)
      requires stableLogLength <= |logs|
      modifies this
      ensures State() == Poll(decode, count, old(State()), row, stored, cached)
    {
      match phase {
        case Fetching(chunkId) =>
          var reply := GetEventLogChunk(row.Row(), stored.store, cached.live, Request(chunkId, MIN_LINES), count);
          match reply {
            case Ok(rsp) => OnResponse(rsp);
            case Err(_) => OnError();
          }
        case Waiting(chunkId) => FetchTail(chunkId);
        case _ =>
      }
    }
  }
}
