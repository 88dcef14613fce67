/** The stored chunks of a log and their 16-bit indices (server/backends/chunkstore/chunkstore.go). */
module ChunkStore {
  import opened Bytes

  /** Go's uint16. */
  type Index = i: int | 0 <= i < 0x1_0000

  /** No chunk has this index; adding it to an index subtracts one. */
  const MAX_INDEX: Index := 0xFFFF

  /** Addition of uint16 values. */
  function Plus(a: Index, b: Index): (r: Index)
    ensures b == 1 && a < MAX_INDEX ==> r == a + 1
    ensures b == MAX_INDEX && a > 0 ==> r == a - 1
    ensures b == MAX_INDEX && a == 0 ==> r == MAX_INDEX
  {
    (a as int + b as int) % 0x1_0000
  }

  datatype Error =
    | EndOfFile | QueueExhausted | ReadFailed | LookupFailed | CheckFailed | NotFound
    | IndexLimitExceeded | BadId | KeyValueFailed

  datatype ReadResult = Data(bytes: seq<Byte>) | Failure(error: Error)

  /** Chunks are written in order and not changed afterwards; reading some of them may fail, and so may
      asking whether they exist. */
  datatype Store = Store(chunks: seq<seq<Byte>>, broken: set<int>, unanswered: set<int>)

  function ReadChunk(store: Store, index: Index): (r: ReadResult)
    ensures r.Data? ==> index < |store.chunks| && r.bytes == store.chunks[index]
    ensures r.Failure? ==> r.error == ReadFailed
  {
    if index < |store.chunks| && index !in store.broken then Data(store.chunks[index]) else Failure(ReadFailed)
  }

  datatype LastChunk = LastAt(index: Index) | NoLast(error: Error)

  /** The first index to ask for; recording the maximal index says that no chunk existed yet. */
  function FirstAsked(startingIndex: Index): Index {
    if startingIndex == MAX_INDEX then 0 else startingIndex
  }

  /** Is every question on the way to the last chunk answered? It ends at the first chunk that does
      not exist, and chunk 65535 is never asked for. */
  predicate IsAnswered(store: Store, first: nat) {
    forall i :: first <= i < MAX_INDEX && (i == first || i <= |store.chunks|) ==> i !in store.unanswered
  }

  /** The last chunk at or after a recorded index. */
  function FindLast(store: Store, startingIndex: Index): (last: LastChunk)
    ensures last.LastAt? ==> last.index < |store.chunks| && last.index < MAX_INDEX
  {
    var first := FirstAsked(startingIndex);
    if !IsAnswered(store, first) then NoLast(CheckFailed)
    else if first >= |store.chunks| then NoLast(NotFound)
    else LastAt((if |store.chunks| < 0xFFFF then |store.chunks| else 0xFFFF) - 1)
  }

  /** getLastChunkIndex, whose loop stops at the first answer that is no, or is missing. */
  method GetLastChunkIndex(store: Store, startingIndex: Index) returns (last: LastChunk)
    ensures last == FindLast(store, startingIndex)
  {
    var index: Index := FirstAsked(startingIndex);
    ghost var first := index;
    while index < MAX_INDEX
      invariant first <= index
      invariant index > first ==> index <= |store.chunks|
      invariant forall i :: first <= i < index ==> i !in store.unanswered
    {
      if index in store.unanswered {
        return NoLast(CheckFailed);
      }
      if index >= |store.chunks| {
        if index == 0 || index == startingIndex {
          return NoLast(NotFound);
        }
        break;
      }
      index := index + 1;
    }
    return LastAt(Plus(index, MAX_INDEX));
  }
}
