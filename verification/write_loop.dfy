/** The loop that turns what the log writer hands on into stored chunks (writeLoop in
    server/backends/chunkstore/chunkstore.go). */
module WriteLoops {
  import opened Bytes
  import opened Wrappers

  /** What wakes the loop up. A write without a tail leaves the tail as it is. */
  datatype Event =
    | Write(data: seq<Byte>, newTail: Option<seq<Byte>>)
    | Wake    // it is time to flush
    | Close
    | Cancel  // the context ends before the log is closed

  predicate EndsLoop(e: Event) {
    e.Close? || e.Cancel?
  }

  /** What an iteration meets: how many chunks can be stored before one fails, and whether it is
      time to flush. */
  datatype Luck = Luck(stores: nat, flushDue: bool)

  datatype Options = Options(writeBlockSize: nat, noSplitWrite: bool)

  datatype LoopState = LoopState(
    stored: seq<seq<Byte>>,
    chunk: seq<Byte>,
    volatileTail: seq<Byte>,
    open: bool,
    failed: bool)  // whether the last iteration ended in an error

  const IDLE := LoopState([], [], [], true, false)

  /** The bytes that an event adds to the log for good: at the end the tail becomes part of it. */
  function Added(s: LoopState, e: Event): seq<Byte> {
    if EndsLoop(e) then s.volatileTail else if e.Write? then e.data else []
  }

  function TailAfter(s: LoopState, e: Event): seq<Byte> {
    if EndsLoop(e) then [] else if e.Write? && e.newTail.Some? then e.newTail.value else s.volatileTail
  }

  function Take(s: LoopState, e: Event): LoopState {
    LoopState(s.stored, s.chunk + Added(s, e), TailAfter(s, e), s.open && !EndsLoop(e), false)
  }

  /** How much of the buffer the next stored chunk takes; the last write is not split if that can be
      avoided. */
  function SizeToWrite(o: Options, length: nat, lastWriteSize: nat): (n: nat)
    ensures n <= length
    ensures length <= o.writeBlockSize ==> n == length
    ensures o.writeBlockSize > 0 && length > 0 ==> n > 0
  {
    if length <= o.writeBlockSize then length
    else if o.noSplitWrite && lastWriteSize <= o.writeBlockSize then length - lastWriteSize
    else o.writeBlockSize
  }

  function StoreOne(o: Options, s: LoopState, lastWriteSize: nat): LoopState {
    var size := SizeToWrite(o, |s.chunk|, lastWriteSize);
    s.(stored := s.stored + [s.chunk[..size]], chunk := s.chunk[size..])
  }

  /** The loop over full blocks, and how many stores are left before one fails. */
  function StoreBlocks(o: Options, s: LoopState, lastWriteSize: nat, stores: nat): (r: (LoopState, nat))
    decreases stores
  {
    if |s.chunk| < o.writeBlockSize then (s, stores)
    else if stores == 0 then (s.(failed := true), 0)
    else StoreBlocks(o, StoreOne(o, s, lastWriteSize), lastWriteSize, stores - 1)
  }

  /** Whether the rest of the buffer is stored too. */
  predicate StoresRest(s: LoopState, flushDue: bool) {
    !s.failed && ((!s.open && (|s.stored| % 0x1_0000 == 0 || s.chunk != [])) || (flushDue && s.chunk != []))
  }

  /** The body of the loop in run. */
  function Iteration(o: Options, s: LoopState, e: Event, luck: Luck): LoopState {
    var size := |Added(s, e)|;
    var (t, stores) := StoreBlocks(o, Take(s, e), size, luck.stores);
    if !StoresRest(t, luck.flushDue) then t
    else if stores == 0 then t.(failed := true)
    else StoreOne(o, t, size)
  }

  // ----- what an iteration does to the log -----

  /** Everything that has been taken in, in order. */
  function Taken(s: LoopState): seq<Byte> {
    Flatten(s.stored) + s.chunk
  }

  /** Later states have the same chunks, and perhaps more. */
  predicate Extends(s: LoopState, t: LoopState) {
    s.stored <= t.stored && Taken(t) == Taken(s)
  }

  lemma CutMovesBytes(stored: seq<seq<Byte>>, chunk: seq<Byte>, n: nat)
    requires n <= |chunk|
    ensures Flatten(stored + [chunk[..n]]) + chunk[n..] == Flatten(stored) + chunk
  {
    FlattenAppend(stored, [chunk[..n]]);
    assert Flatten([chunk[..n]]) == chunk[..n] + Flatten([]) == chunk[..n];
    assert chunk == chunk[..n] + chunk[n..];
    assert Flatten(stored) + chunk[..n] + chunk[n..] == Flatten(stored) + (chunk[..n] + chunk[n..]);
  }

  lemma StoringMovesBytes(o: Options, s: LoopState, lastWriteSize: nat)
    ensures Extends(s, StoreOne(o, s, lastWriteSize))
  {
    CutMovesBytes(s.stored, s.chunk, SizeToWrite(o, |s.chunk|, lastWriteSize));
  }

  lemma {:induction false} BlocksMoveBytes(o: Options, s: LoopState, lastWriteSize: nat, stores: nat)
    requires !s.failed
    ensures var t := StoreBlocks(o, s, lastWriteSize, stores).0;
      && Extends(s, t)
      && t.open == s.open && t.volatileTail == s.volatileTail
      && (t.failed || |t.chunk| < o.writeBlockSize)
    decreases stores
  {
    if |s.chunk| >= o.writeBlockSize && stores > 0 {
      StoringMovesBytes(o, s, lastWriteSize);
      BlocksMoveBytes(o, StoreOne(o, s, lastWriteSize), lastWriteSize, stores - 1);
    }
  }

  /** Whatever fails, an iteration adds to the log exactly the bytes that its event brings; and when
      the loop ends without an error, all of them are in stored chunks, of which there is one. */
  lemma IterationKeepsBytes(o: Options, s: LoopState, e: Event, luck: Luck)
    ensures var t := Iteration(o, s, e, luck);
      && s.stored <= t.stored
      && Taken(t) == Taken(s) + Added(s, e)
      && t.volatileTail == TailAfter(s, e)
      && t.open == (s.open && !EndsLoop(e))
      && (!t.open && !t.failed ==> t.chunk == [] && t.stored != [])
  {
    var first, size := Take(s, e), |Added(s, e)|;
    BlocksMoveBytes(o, first, size, luck.stores);
    var (t, stores) := StoreBlocks(o, first, size, luck.stores);
    StoringMovesBytes(o, t, size);
    Reassociate(Flatten(s.stored), s.chunk, Added(s, e));
  }

  // ----- when chunks are stored -----

  /** The loop over full blocks stores chunks of at least one byte, whole blocks if writes may be split,
      and stops only if a store fails or less than a block is left. */
  lemma {:induction false} BlocksAreStored(o: Options, s: LoopState, lastWriteSize: nat, stores: nat)
    requires o.writeBlockSize >= 1 && !s.failed
    ensures var (t, left) := StoreBlocks(o, s, lastWriteSize, stores);
      && s.stored <= t.stored && |t.stored| - |s.stored| == stores - left
      && |t.chunk| + (stores - left) <= |s.chunk|
      && (forall i :: |s.stored| <= i < |t.stored| ==>
          t.stored[i] != [] && (!o.noSplitWrite ==> |t.stored[i]| == o.writeBlockSize))
      && (if t.failed then left == 0 else |t.chunk| < o.writeBlockSize)
      && (|s.chunk| < o.writeBlockSize ==> t == s && left == stores)
      && t.open == s.open
    decreases stores
  {
    if |s.chunk| >= o.writeBlockSize && stores > 0 {
      BlocksAreStored(o, StoreOne(o, s, lastWriteSize), lastWriteSize, stores - 1);
    }
  }

  /** An iteration stores whole blocks, and what is left of the buffer only if it is time to flush or the
      log ends. With enough stores that work, none fails; and then a flush that is due leaves nothing in the
      buffer. A chunk without bytes is stored only to end a log that has no chunks, or a multiple of
      65536, and one that ends then gets at least one chunk more. */
  lemma ChunksAreStoredInTime(o: Options, s: LoopState, e: Event, luck: Luck)
    requires o.writeBlockSize >= 1 && s.open
    ensures var t, size := Iteration(o, s, e, luck), |s.chunk| + |Added(s, e)|;
      && |t.stored| - |s.stored| <= luck.stores
      && (luck.stores > size ==> !t.failed)
      && (luck.stores > size && luck.flushDue ==> t.chunk == [])
      && (!luck.flushDue && !EndsLoop(e) && size < o.writeBlockSize ==> t.stored == s.stored && !t.failed)
      && (forall i :: |s.stored| <= i < |t.stored| && t.stored[i] == [] ==>
          EndsLoop(e) && i == |t.stored| - 1 && i % 0x1_0000 == 0)
      && (EndsLoop(e) && !t.failed && |s.stored| % 0x1_0000 == 0 ==> |t.stored| > |s.stored|)
  {
    var first, last := Take(s, e), |Added(s, e)|;
    BlocksAreStored(o, first, last, luck.stores);
    var (t, left) := StoreBlocks(o, first, last, luck.stores);
    assert |first.chunk| == |s.chunk| + last && left <= luck.stores;
    assert StoresRest(t, luck.flushDue) && left > 0 ==> StoreOne(o, t, last).chunk == [];
  }

  /** If writes may be split, everything but the last chunk of an iteration is a whole block. */
  lemma SplitChunksAreBlocks(o: Options, s: LoopState, e: Event, luck: Luck)
    requires o.writeBlockSize >= 1 && !o.noSplitWrite
    ensures var t := Iteration(o, s, e, luck);
      && (forall i :: |s.stored| <= i < |t.stored| - 1 ==> |t.stored[i]| == o.writeBlockSize)
      && (|s.stored| < |t.stored| ==> |t.stored[|t.stored| - 1]| <= o.writeBlockSize)
  {
    BlocksAreStored(o, Take(s, e), |Added(s, e)|, luck.stores);
  }

  // ----- where the log is cut -----

  /** The stored chunks, and the buffer, consist of these pieces. */
  predicate ConsistsOf(s: LoopState, groups: seq<seq<seq<Byte>>>, pending: seq<seq<Byte>>) {
    && |groups| == |s.stored|
    && (forall i :: 0 <= i < |groups| ==> Flatten(groups[i]) == s.stored[i])
    && Flatten(pending) == s.chunk
  }

  /** What is left in the buffer ends with the piece that was taken in last, which fits in a block. */
  predicate EndsWithLast(o: Options, s: LoopState, pending: seq<seq<Byte>>, lastWriteSize: nat) {
    && lastWriteSize <= o.writeBlockSize
    && (s.chunk != [] && lastWriteSize > 0 ==> pending != [] && |pending[|pending| - 1]| == lastWriteSize)
  }

  lemma StoringKeepsPieces(
      o: Options, s: LoopState, lastWriteSize: nat, groups: seq<seq<seq<Byte>>>, pending: seq<seq<Byte>>)
    returns (newGroups: seq<seq<seq<Byte>>>, kept: seq<seq<Byte>>)
    requires o.noSplitWrite && ConsistsOf(s, groups, pending) && EndsWithLast(o, s, pending, lastWriteSize)
    ensures ConsistsOf(StoreOne(o, s, lastWriteSize), newGroups, kept)
    ensures EndsWithLast(o, StoreOne(o, s, lastWriteSize), kept, lastWriteSize)
    ensures Flatten(newGroups) + kept == Flatten(groups) + pending
  {
    kept := if |s.chunk| <= o.writeBlockSize || lastWriteSize == 0 then [] else [pending[|pending| - 1]];
    var group := pending[..|pending| - |kept|];
    newGroups := groups + [group];
    assert pending == group + kept;
    FlattenAppend(group, kept);
    FlattenAppend(groups, [group]);
    assert Flatten([group]) == group + Flatten([]) == group;
    assert kept != [] ==> Flatten(kept) == kept[0] + Flatten([]) == kept[0];
    var size := SizeToWrite(o, |s.chunk|, lastWriteSize);
    assert |Flatten(group)| == size;
    assert s.chunk[..size] == Flatten(group) && s.chunk[size..] == Flatten(kept);
  }

  lemma {:induction false} BlocksKeepPieces(
      o: Options, s: LoopState, lastWriteSize: nat, stores: nat, groups: seq<seq<seq<Byte>>>, pending: seq<seq<Byte>>)
    returns (newGroups: seq<seq<seq<Byte>>>, kept: seq<seq<Byte>>)
    requires o.noSplitWrite && ConsistsOf(s, groups, pending) && EndsWithLast(o, s, pending, lastWriteSize)
    ensures var t := StoreBlocks(o, s, lastWriteSize, stores).0;
      ConsistsOf(t, newGroups, kept) && EndsWithLast(o, t, kept, lastWriteSize)
    ensures Flatten(newGroups) + kept == Flatten(groups) + pending
    decreases stores
  {
    newGroups, kept := groups, pending;
    if |s.chunk| >= o.writeBlockSize && stores > 0 {
      newGroups, kept := StoringKeepsPieces(o, s, lastWriteSize, groups, pending);
      newGroups, kept := BlocksKeepPieces(o, StoreOne(o, s, lastWriteSize), lastWriteSize, stores - 1, newGroups, kept);
    }
  }

  /** If writes are not to be split and none is longer than a block, every stored chunk consists of
      whole writes, although stores may fail and the buffer then grows beyond a block. */
  lemma IterationKeepsPieces(
      o: Options, s: LoopState, e: Event, luck: Luck, groups: seq<seq<seq<Byte>>>, pending: seq<seq<Byte>>)
    returns (newGroups: seq<seq<seq<Byte>>>, kept: seq<seq<Byte>>)
    requires o.noSplitWrite && ConsistsOf(s, groups, pending) && |Added(s, e)| <= o.writeBlockSize
    ensures ConsistsOf(Iteration(o, s, e, luck), newGroups, kept)
    ensures Flatten(newGroups) + kept == Flatten(groups) + pending + [Added(s, e)]
  {
    var first, last, size := Take(s, e), [Added(s, e)], |Added(s, e)|;
    FlattenAppend(pending, last);
    assert Flatten(last) == last[0] + Flatten([]) == last[0];
    newGroups, kept := BlocksKeepPieces(o, first, size, luck.stores, groups, pending + last);
    var (t, stores) := StoreBlocks(o, first, size, luck.stores);
    if StoresRest(t, luck.flushDue) && stores > 0 {
      newGroups, kept := StoringKeepsPieces(o, t, size, newGroups, kept);
    }
    assert Flatten(groups) + (pending + last) == Flatten(groups) + pending + last;
  }

  /** A longer write is cut after the first block. */
  lemma LongWriteIsSplit(o: Options, data: seq<Byte>, luck: Luck)
    requires |data| > o.writeBlockSize && luck.stores > 0
    ensures var t := Iteration(o, IDLE, Write(data, None), luck);
      t.stored != [] && t.stored[0] == data[..o.writeBlockSize]
  {
    var first := Take(IDLE, Write(data, None));
    assert first.chunk == data;
    BlocksMoveBytes(o, StoreOne(o, first, |data|), |data|, luck.stores - 1);
  }

  // ----- the loop as an object -----

  class WriteLoop {
    const options: Options
    var stored: seq<seq<Byte>>
    var chunk: seq<Byte>
    var volatileTail: seq<Byte>
    var open: bool
    var failed: bool

    ghost function State(): LoopState
      reads this
    {
      LoopState(stored, chunk, volatileTail, open, failed)
    }

    constructor (options: Options)
      ensures State() == IDLE && this.options == options
    {
      this.options := options;
      stored, chunk, volatileTail, open, failed := [], [], [], true, false;
    }

    /** Stores a chunk from the front of the buffer, unless the store is out of order. */
    method StoreChunk(lastWriteSize: nat, works: bool)
      modifies this`stored, this`chunk, this`failed
      ensures State() == if works then StoreOne(options, old(State()), lastWriteSize) else old(State()).(failed := true)
    {
      if !works {
        failed := true;
        return;
      }
      var size := options.writeBlockSize;
      if |chunk| <= size {
        size := |chunk|;
      } else if options.noSplitWrite && lastWriteSize <= options.writeBlockSize {
        size := |chunk| - lastWriteSize;
      }
      stored := stored + [chunk[..size]];
      chunk := chunk[size..];
    }

    method TakeIn(e: Event) returns (lastWriteSize: nat)
      requires open
      modifies this
      ensures State() == Take(old(State()), e) && lastWriteSize == |Added(old(State()), e)|
    {
      lastWriteSize := 0;
      failed := false;
      if e.Write? {
        if e.newTail.Some? {
          volatileTail := e.newTail.value;
        }
        chunk := chunk + e.data;
        lastWriteSize := |e.data|;
      } else if !e.Wake? {
        open := false;
      }
      if !open {
        chunk := chunk + volatileTail;
        lastWriteSize := |volatileTail|;
        volatileTail := [];
      }
    }

    /** One iteration of the loop; with blocks of at least one byte it ends. */
    method Iterate(e: Event, luck: Luck)
      requires open && options.writeBlockSize >= 1
      modifies this
      ensures State() == Iteration(options, old(State()), e, luck)
    {
      var lastWriteSize := TakeIn(e);
      ghost var first := State();
      var stores := luck.stores;
      while !failed && |chunk| >= options.writeBlockSize
        invariant StoreBlocks(options, first, lastWriteSize, luck.stores)
          == if failed then (State(), 0) else StoreBlocks(options, State(), lastWriteSize, stores)
        decreases |chunk|, !failed
      {
        var works := stores > 0;
        StoreChunk(lastWriteSize, works);
        stores := if works then stores - 1 else 0;
      }
      if !failed {
        if (!open && (|stored| % 0x1_0000 == 0 || |chunk| > 0)) || (luck.flushDue && |chunk| > 0) {
          StoreChunk(lastWriteSize, stores > 0);
        }
      }
    }
  }
}
