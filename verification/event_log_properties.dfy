/** Which range of the log a reply holds. */
module EventLogProperties {
  import opened ChunkStore
  import opened EventLog
  import opened Wrappers

  predicate AreReadable(store: Store, lo: nat, hi: nat) {
    forall j :: lo <= j <= hi ==> j !in store.broken
  }

  /** Reading upwards from i, the first chunks that together have enough lines end at hi. */
  predicate IsShortestUpwards(store: Store, count: LineCounter, i: nat, last: nat, need: int, hi: nat)
    requires last < |store.chunks|
  {
    && i <= hi <= last
    && AreReadable(store, i, hi)
    && (hi == last || LinesBetween(store, count, i, hi) >= need)
    && (forall m :: i <= m < hi ==> LinesBetween(store, count, i, m) < need)
  }

  predicate IsShortestDownwards(store: Store, count: LineCounter, i: nat, need: int, lo: nat)
    requires i < |store.chunks|
  {
    && lo <= i
    && AreReadable(store, lo, i)
    && (lo == 0 || LinesBetween(store, count, lo, i) >= need)
    && (forall m :: lo < m <= i ==> LinesBetween(store, count, m, i) < need)
  }

  /** Reading upwards stops exactly at the shortest range that has enough lines or reaches the last chunk. */
  lemma {:induction false} UpwardsEndIsShortest(store: Store, count: LineCounter, i: nat, last: nat, need: int, hi: nat)
    requires i <= last < |store.chunks| && last < MAX_INDEX
    ensures UpwardsEnd(store, count, i, last, need) == hi <==> IsShortestUpwards(store, count, i, last, need, hi)
    decreases last - i
  {
    var own := count(store.chunks[i]);
    assert LinesBetween(store, count, i, i) == own + LinesBetween(store, count, i + 1, i);
    if i in store.broken || own >= need || i == last {
      if hi > i {
        assert i in store.broken || i == last || LinesBetween(store, count, i, i) >= need;
      }
    } else {
      var next := i + 1;
      UpwardsEndIsShortest(store, count, next, last, need - own, hi);
      if IsShortestUpwards(store, count, next, last, need - own, hi) {
        assert AreReadable(store, i, hi);
        forall m | i <= m < hi ensures LinesBetween(store, count, i, m) < need {
          if m > i {
            assert LinesBetween(store, count, next, m) < need - own;
          }
        }
      }
      if IsShortestUpwards(store, count, i, last, need, hi) {
        assert hi > i;
        forall m | next <= m < hi ensures LinesBetween(store, count, next, m) < need - own {
          assert LinesBetween(store, count, i, m) < need;
        }
      }
    }
  }

  lemma {:induction false} LinesBetweenAddsLast(store: Store, count: LineCounter, lo: nat, hi: nat)
    requires lo <= hi < |store.chunks|
    ensures LinesBetween(store, count, lo, hi)
      == (if hi == 0 then 0 else LinesBetween(store, count, lo, hi - 1)) + count(store.chunks[hi])
    decreases hi - lo
  {
    if lo < hi {
      LinesBetweenAddsLast(store, count, lo + 1, hi);
    }
  }

  lemma {:induction false} DownwardsEndIsShortest(store: Store, count: LineCounter, i: nat, need: int, lo: nat)
    requires i < |store.chunks| && i < MAX_INDEX
    ensures DownwardsEnd(store, count, i, need) == lo <==> IsShortestDownwards(store, count, i, need, lo)
  {
    var own := count(store.chunks[i]);
    LinesBetweenAddsLast(store, count, i, i);
    if i in store.broken || own >= need || i == 0 {
      if lo < i {
        assert i in store.broken || LinesBetween(store, count, i, i) >= need;
      }
    } else {
      var below := i - 1;
      DownwardsEndIsShortest(store, count, below, need - own, lo);
      forall m | 0 <= m < i ensures LinesBetween(store, count, m, i) == LinesBetween(store, count, m, i - 1) + own {
        LinesBetweenAddsLast(store, count, m, i);
      }
      if IsShortestDownwards(store, count, i - 1, need - own, lo) {
        assert AreReadable(store, lo, i);
      }
      if IsShortestDownwards(store, count, i, need, lo) {
        assert lo < i;
        forall m | lo < m <= below ensures LinesBetween(store, count, m, below) < need - own {
          assert LinesBetween(store, count, m, i) < need;
        }
      }
    }
  }

  /** Some chunk that the request needs cannot be read. */
  ghost predicate NeedsBrokenChunk(store: Store, count: LineCounter, start: nat, last: nat, backwards: bool, need: int)
    requires start <= last < |store.chunks| && last < MAX_INDEX
  {
    if backwards then forall lo: nat :: !IsShortestDownwards(store, count, start, need, lo)
    else forall hi: nat :: !IsShortestUpwards(store, count, start, last, need, hi)
  }

  /** A reply from the store is one contiguous range in ascending order, whichever way it was read:
      the shortest that has enough lines or reaches the end of the log. The ids beside it are
      those of the neighbouring chunks. */
  lemma ServedRangeIsShortest(
      store: Store, count: LineCounter, last: Index, start: Index, backwards: bool, minLines: int)
    requires start <= last < |store.chunks| && last < MAX_INDEX && (backwards ==> start == last)
    ensures match ServeRange(store, count, last, start, backwards, minLines)
      case Err(e) => e == ReadFailed && NeedsBrokenChunk(store, count, start, last, backwards, minLines)
      case Ok(rsp) => exists lo: nat, hi: nat {:trigger Range(store, lo, hi)} ::
        && lo <= hi <= last
        && rsp == Response(Range(store, lo, hi), Id(hi + 1), IdBefore(lo), false)
        && (if backwards then hi == start && IsShortestDownwards(store, count, start, minLines, lo)
            else lo == start && IsShortestUpwards(store, count, start, last, minLines, hi))
  {
    if backwards {
      var lo := DownwardsEnd(store, count, start, minLines);
      if lo >= 0 {
        DownwardsEndIsShortest(store, count, start, minLines, lo);
        var _ := Range(store, lo, start);
      } else {
        forall m: nat ensures !IsShortestDownwards(store, count, start, minLines, m) {
          DownwardsEndIsShortest(store, count, start, minLines, m);
        }
      }
    } else {
      var hi := UpwardsEnd(store, count, start, last, minLines);
      if hi >= 0 {
        UpwardsEndIsShortest(store, count, start, last, minLines, hi);
        var _ := Range(store, start, hi);
      } else {
        forall m: nat ensures !IsShortestUpwards(store, count, start, last, minLines, m) {
          UpwardsEndIsShortest(store, count, start, last, minLines, m);
        }
      }
    }
  }

  // ----- live replies, and errors -----

  /** The id that the client asks for lies behind the last chunk that is found, or no chunk was ever
      recorded and none is found. */
  predicate IsBehindChunks(inv: Invocation, store: Store, index: Index) {
    inv.lastChunkId.Id? &&
    match FindLast(store, inv.lastChunkId.index)
    case NoLast(_) => inv.lastChunkId.index == MAX_INDEX
    case LastAt(last) => last < index < MAX_INDEX
  }

  /** Does the live chunk answer this request? */
  predicate IsAnsweredLive(lookup: Option<Invocation>, store: Store, live: LiveRead, req: Request) {
    && lookup.Some? && lookup.value.inProgress
    && live.Live? && req.chunkId == Id(live.id)
    && IsBehindChunks(lookup.value, store, live.id)
  }

  /** A reply is live exactly if the invocation is in progress and the id asked for is that of the live
      chunk and lies behind all the others. It then holds the buffer of the live chunk, the id asked for
      as the next one, and none before. */
  lemma LiveRepliesExactly(lookup: Option<Invocation>, store: Store, live: LiveRead, req: Request, count: LineCounter)
    ensures var reply := Serve(lookup, store, live, req, count);
      && (reply.Ok? && reply.response.live <==> IsAnsweredLive(lookup, store, live, req))
      && (IsAnsweredLive(lookup, store, live, req) ==>
          reply.response == Response(live.buffer, req.chunkId, Blank, true))
  {
  }

  /** Has the handler got as far as to look for chunks, and found one? */
  predicate IsFound(lookup: Option<Invocation>, store: Store) {
    lookup.Some? && lookup.value.lastChunkId.Id? && FindLast(store, lookup.value.lastChunkId.index).LastAt?
  }

  /** Has it found that there is none, or failed to find out, while none was ever recorded? */
  predicate IsNothingFound(lookup: Option<Invocation>, store: Store) {
    && lookup.Some? && lookup.value.lastChunkId == Id(MAX_INDEX)
    && FindLast(store, MAX_INDEX).NoLast?
  }

  /** Everything that can go wrong: the lookup; the recorded id, or the search for chunks from it; the id
      asked for; reading the live chunk when that might be needed; and reading a chunk that is needed. */
  predicate Fails(lookup: Option<Invocation>, store: Store, live: LiveRead, req: Request, count: LineCounter) {
    if lookup.None? then true
    else if lookup.value.lastChunkId == Blank then false
    else if IsNothingFound(lookup, store) then lookup.value.inProgress && live == LiveFailed
    else if !IsFound(lookup, store) then true
    else
      var last := FindLast(store, lookup.value.lastChunkId.index).index;
      if req.chunkId == Blank then DownwardsEnd(store, count, last, req.minLines) == -1
      else if req.chunkId == Malformed || req.chunkId == Id(MAX_INDEX) then true
      else if req.chunkId.index > last then lookup.value.inProgress && live == LiveFailed
      else UpwardsEnd(store, count, req.chunkId.index, last, req.minLines) == -1
  }

  lemma ErrorsExactly(lookup: Option<Invocation>, store: Store, live: LiveRead, req: Request, count: LineCounter)
    ensures Serve(lookup, store, live, req, count).Err? <==> Fails(lookup, store, live, req, count)
  {
  }

  /** A reply that holds nothing: what it says of the chunks around it. While the invocation runs, it
      names the chunk that will be written next, and otherwise none; before that is the last chunk. */
  lemma EmptyReplies(lookup: Option<Invocation>, store: Store, live: LiveRead, req: Request, count: LineCounter)
    requires !Fails(lookup, store, live, req, count) && !IsAnsweredLive(lookup, store, live, req)
    ensures var reply := Serve(lookup, store, live, req, count);
      && (lookup.value.lastChunkId == Blank ==> reply.response == Response([], Blank, Blank, false))
      && (IsNothingFound(lookup, store) ==>
          reply.response == Response([], if lookup.value.inProgress then Id(0) else Blank, Blank, false))
      && (IsFound(lookup, store) && req.chunkId.Id? ==>
          var last := FindLast(store, lookup.value.lastChunkId.index).index;
          req.chunkId.index > last ==>
            reply.response == Response([], if lookup.value.inProgress then Id(last + 1) else Blank, Id(last), false))
  {
  }
}
