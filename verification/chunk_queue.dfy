/** The queue that reads up to sixteen chunks ahead (server/eventlog/eventlog.go). Reads finish in
    any order; the queue hands their results out in the order of the chunks. */
module ChunkQueues {
  import opened ChunkStore

  /** A channel that will carry one read result. */
  datatype Future = Pending | Ready(result: ReadResult)

  const NUM_READ_WORKERS := 16

  /** The index of the k-th chunk that is asked for: k steps from the start. */
  function IndexOf(start: Index, step: Index, k: nat): Index {
    if k == 0 then start else Plus(IndexOf(start, step, k - 1), step)
  }

  /** The same index from the number of chunks asked for, in 16-bit arithmetic. */
  function IndexFromCount(start: Index, step: Index, count: nat): Index {
    (start as int + (count % 0x1_0000) * step as int) % 0x1_0000
  }

  lemma {:induction false} IndexFromCountCountsSteps(start: Index, step: Index, k: nat)
    ensures IndexFromCount(start, step, k) == IndexOf(start, step, k)
  {
    if k > 0 {
      IndexFromCountCountsSteps(start, step, k - 1);
      var before := (k - 1) % 0x1_0000;
      CountOnce(k);
      OneMoreStep(start, step, before);
      if before == 0xFFFF {
        FullCircle(start, step);
      }
    }
  }

  lemma CountOnce(k: nat)
    requires k > 0
    ensures var before := (k - 1) % 0x1_0000; k % 0x1_0000 == if before == 0xFFFF then 0 else before + 1
  {
  }

  lemma OneMoreStep(start: int, step: int, k: int)
    ensures ((start + k * step) % 0x1_0000 + step) % 0x1_0000 == (start + (k + 1) * step) % 0x1_0000
  {
    var before := start + k * step;
    assert start + (k + 1) * step == before + step;
    assert (before % 0x1_0000 + step) % 0x1_0000 == (before + step) % 0x1_0000;
  }

  lemma FullCircle(start: Index, step: Index)
    ensures (start as int + 0x1_0000 * step as int) % 0x1_0000 == start
  {
  }

  /** What the k-th read gives: the position after the boundary reads as the end. */
  function Reading(store: Store, start: Index, step: Index, boundary: Index, k: nat): ReadResult {
    var index := IndexOf(start, step, k);
    if index == Plus(boundary, step) then Failure(EndOfFile) else ReadChunk(store, index)
  }

  class ChunkQueue {
    const store: Store
    const start: Index
    const step: Index
    const boundary: Index
    var futures: seq<Future>
    var numPopped: nat
    var done: bool

    ghost predicate Valid()
      reads this
    {
      && numPopped <= |futures| <= numPopped + NUM_READ_WORKERS
      && (forall k :: 0 <= k < |futures| && futures[k].Ready? ==> futures[k].result == Result(k))
      && (forall k :: 0 <= k < (if done then numPopped - 1 else numPopped) ==> Result(k).Data?)
      && (done ==> numPopped > 0 && Result(numPopped - 1).Failure?)
    }

    ghost function Result(k: nat): ReadResult {
      Reading(store, start, step, boundary, k)
    }

    constructor (store: Store, start: Index, step: Index, boundary: Index)
      ensures Valid() && numPopped == 0 && !done
      ensures this.store == store && this.start == start && this.step == step && this.boundary == boundary
    {
      this.store, this.start, this.step, this.boundary := store, start, step, boundary;
      futures, numPopped, done := [], 0, false;
    }

    method PushNewFuture(index: Index)
      requires Valid() && |futures| < numPopped + NUM_READ_WORKERS
      requires index == IndexOf(start, step, |futures|)
      modifies this`futures
      ensures Valid() && |futures| == |old(futures)| + 1
    {
      if index == Plus(boundary, step) {
        futures := futures + [Ready(Failure(EndOfFile))];
        return;
      }
      futures := futures + [Pending];
    }

    /** Some read that is under way finishes. */
    method Complete(k: nat)
      requires Valid() && k < |futures|
      modifies this`futures
      ensures Valid() && |futures| == |old(futures)| && futures[k].Ready?
    {
      if futures[k].Pending? {
        var index := IndexFromCount(start, step, k);
        IndexFromCountCountsSteps(start, step, k);
        var result := if index == Plus(boundary, step) then Failure(EndOfFile) else ReadChunk(store, index);
        futures := futures[k := Ready(result)];
      }
    }

    /** Receiving from a channel: any reads may finish meanwhile, in any order, until this one has. */
    method Receive(k: nat) returns (result: ReadResult)
      requires Valid() && k < |futures|
      modifies this`futures
      ensures Valid() && |futures| == |old(futures)| && result == Result(k)
    {
      var meanwhile: seq<nat> :| |meanwhile| >= 0;
      for i := 0 to |meanwhile|
        invariant Valid() && |futures| == |old(futures)|
      {
        if meanwhile[i] < |futures| {
          Complete(meanwhile[i]);
        }
      }
      Complete(k);
      result := futures[k].result;
    }

    /** The results come in the order asked for; after the end or an error there are no more. */
    method Pop() returns (result: ReadResult)
      requires Valid()
      modifies this
      ensures Valid()
      ensures old(done) ==> result == Failure(QueueExhausted) && done && numPopped == old(numPopped)
      ensures !old(done) ==> result == Result(old(numPopped)) && numPopped == old(numPopped) + 1
      ensures !old(done) ==> (done <==> result.Failure?)
      ensures !old(done) ==> |futures| == old(numPopped) + 16
    {
      if done {
        return Failure(QueueExhausted);
      }
      var numLoading := |futures| - numPopped;
      var numNewConnections := NUM_READ_WORKERS - numLoading;
      while numNewConnections > 0
        invariant Valid() && !done && numPopped == old(numPopped)
        invariant numNewConnections == NUM_READ_WORKERS - (|futures| - numPopped)
      {
        var index := IndexFromCount(start, step, |futures|);
        IndexFromCountCountsSteps(start, step, |futures|);
        PushNewFuture(index);
        numNewConnections := numNewConnections - 1;
      }
      result := Receive(numPopped);
      numPopped := numPopped + 1;
      if result.Failure? {
        done := true;
      }
    }
  }

  /** Without wrap-around, the k-th index lies k away from the start. */
  lemma {:induction false} IndexCounts(start: Index, step: Index, k: nat)
    ensures step == 1 && start + k < 0x1_0000 ==> IndexOf(start, step, k) == start + k
    ensures step == MAX_INDEX && k <= start ==> IndexOf(start, step, k) == start - k
  {
    if k > 0 {
      IndexCounts(start, step, k - 1);
    }
  }

  /** The boundary lies ahead, upwards or downwards. */
  predicate IsDirected(start: Index, step: Index, boundary: Index) {
    if step == 1 then start <= boundary < MAX_INDEX else step == MAX_INDEX && boundary <= start < MAX_INDEX
  }

  /** As long as the results are data, no chunk past the boundary has been delivered, and the k-th
      one is the chunk k steps from the start. */
  lemma {:induction false} NothingPastTheBoundary(store: Store, start: Index, step: Index, boundary: Index, k: nat)
    requires IsDirected(start, step, boundary)
    requires forall j :: 0 <= j <= k ==> Reading(store, start, step, boundary, j).Data?
    ensures var distance := if step == 1 then boundary - start else start - boundary;
      var index := if step == 1 then start + k else start - k;
      && k <= distance
      && index < |store.chunks|
      && Reading(store, start, step, boundary, k) == Data(store.chunks[index])
  {
    var distance := if step == 1 then boundary - start else start - boundary;
    if k > 0 {
      NothingPastTheBoundary(store, start, step, boundary, k - 1);
    }
    assert Reading(store, start, step, boundary, k).Data?;
    if k <= distance {
      IndexCounts(start, step, k);
    } else {
      EndAfterTheBoundary(store, start, step, boundary);
    }
  }

  /** The read after the one at the boundary is the end. */
  lemma EndAfterTheBoundary(store: Store, start: Index, step: Index, boundary: Index)
    requires IsDirected(start, step, boundary)
    ensures var distance := if step == 1 then boundary - start else start - boundary;
      Reading(store, start, step, boundary, distance + 1) == Failure(EndOfFile)
  {
    IndexCounts(start, step, if step == 1 then boundary - start else start - boundary);
  }
}
