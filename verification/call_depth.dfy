/** Call depths within one thread (the stack in buildThreadTimelines, app/flame_chart/profile_model.ts). */
module CallDepth {

  datatype Event = Event(tid: int, ts: real, dur: real, cat: string, name: string)

  function End(e: Event): real {
    e.ts + e.dur
  }

  /** An event that has ended before this point does not contain e. */
  function Reach(e: Event): real {
    if End(e) < e.ts then e.ts else End(e)
  }

  // ----- the stack -----

  /** Takes off the top of a stack of positions the events that end too early. */
  function PopEnded(es: seq<Event>, stack: seq<nat>, reach: real): (r: seq<nat>)
    requires forall s :: 0 <= s < |stack| ==> stack[s] < |es|
    ensures r <= stack
  {
    if stack != [] && End(es[stack[|stack| - 1]]) < reach then PopEnded(es, stack[..|stack| - 1], reach) else stack
  }

  /** The stack after these events of a thread. */
  function StackAfter(es: seq<Event>): (stack: seq<nat>)
    ensures forall s :: 0 <= s < |stack| ==> stack[s] < |es|
  {
    if es == [] then []
    else
      var before := es[..|es| - 1];
      PopEnded(before, StackAfter(before), Reach(es[|es| - 1])) + [|es| - 1]
  }

  /** The depth that the loop assigns to the i-th event: the height of the stack it is pushed on. */
  function Depth(es: seq<Event>, i: nat): nat
    requires i < |es|
  {
    |StackAfter(es[..i + 1])| - 1
  }

  // ----- what it means -----

  /** An event does not end before another one begins, nor before that ends. */
  predicate Outlasts(a: Event, b: Event) {
    a.ts + a.dur >= b.ts && a.ts + a.dur >= b.ts + b.dur
  }

  /** Event j is still open at event i: it outlasts every event after it up to i. */
  predicate IsOpenAt(es: seq<Event>, j: nat, i: nat)
    requires i < |es|
  {
    j < i && forall k :: j < k <= i ==> Outlasts(es[j], es[k])
  }

  /** The events that are open at event i. */
  function OpenAt(es: seq<Event>, i: nat): set<nat>
    requires i < |es|
  {
    set j: nat | j < i && IsOpenAt(es, j, i)
  }

  /** Those that the stack keeps after all of the events: each reaches as far as all later ones. */
  predicate IsKept(es: seq<Event>, j: nat) {
    j < |es| && forall k :: j < k < |es| ==> Outlasts(es[j], es[k])
  }

  predicate IsAscending(stack: seq<nat>) {
    forall a, b :: 0 <= a < b < |stack| ==> stack[a] < stack[b]
  }

  ghost predicate HoldsKept(es: seq<Event>, stack: seq<nat>) {
    && IsAscending(stack)
    && AreKept(es, stack)
    && (forall j: nat :: IsKept(es, j) ==> j in stack)
  }

  /** A stack of kept events lies within the events. */
  predicate AreKept(es: seq<Event>, stack: seq<nat>) {
    forall s :: 0 <= s < |stack| ==> IsKept(es, stack[s])
  }

  /** Popping stops at the right place, because ends do not increase towards the top. */
  lemma {:induction false} PopKeepsThoseThatReach(es: seq<Event>, stack: seq<nat>, reach: real)
    requires forall s :: 0 <= s < |stack| ==> stack[s] < |es|
    requires IsAscending(stack) && AreKept(es, stack)
    ensures forall s :: 0 <= s < |stack| ==> (stack[s] in PopEnded(es, stack, reach) <==> End(es[stack[s]]) >= reach)
  {
    if stack != [] {
      var top := |stack| - 1;
      forall s | 0 <= s < top ensures End(es[stack[s]]) >= End(es[stack[top]]) {
        assert Outlasts(es[stack[s]], es[stack[top]]);
      }
      if End(es[stack[top]]) < reach {
        PopKeepsThoseThatReach(es, stack[..top], reach);
        assert forall s :: 0 <= s < top ==> stack[s] != stack[top];
        assert stack[top] !in stack[..top];
        assert PopEnded(es, stack, reach) <= stack[..top];
      }
    }
  }

  lemma {:induction false} StackHoldsKept(es: seq<Event>)
    ensures HoldsKept(es, StackAfter(es))
  {
    if es != [] {
      var last, before := |es| - 1, es[..|es| - 1];
      StackHoldsKept(before);
      PushKeepsKept(es, StackAfter(before));
    }
  }

  lemma PushKeepsAscending(stack: seq<nat>, popped: seq<nat>, last: nat)
    requires IsAscending(stack) && popped <= stack && forall s :: 0 <= s < |stack| ==> stack[s] < last
    ensures IsAscending(popped + [last])
  {
    assert forall s :: 0 <= s < |popped| ==> popped[s] == stack[s];
  }

  lemma PoppedAreKept(es: seq<Event>, stack: seq<nat>)
    requires es != [] && AreKept(es[..|es| - 1], stack) && IsAscending(stack)
    requires forall s :: 0 <= s < |stack| ==> stack[s] < |es| - 1
    ensures AreKept(es, PopEnded(es[..|es| - 1], stack, Reach(es[|es| - 1])))
  {
    var before, reach := es[..|es| - 1], Reach(es[|es| - 1]);
    var popped := PopEnded(before, stack, reach);
    PopKeepsThoseThatReach(before, stack, reach);
    forall s | 0 <= s < |popped| ensures IsKept(es, popped[s]) {
      assert popped[s] == stack[s] && stack[s] in popped && IsKept(before, stack[s]);
      KeptOneLonger(es, popped[s]);
    }
  }

  lemma KeptAreNotPopped(es: seq<Event>, stack: seq<nat>, j: nat)
    requires es != [] && HoldsKept(es[..|es| - 1], stack)
    requires forall s :: 0 <= s < |stack| ==> stack[s] < |es| - 1
    requires IsKept(es, j) && j < |es| - 1
    ensures j in PopEnded(es[..|es| - 1], stack, Reach(es[|es| - 1]))
  {
    var before, reach := es[..|es| - 1], Reach(es[|es| - 1]);
    PopKeepsThoseThatReach(before, stack, reach);
    KeptOneLonger(es, j);
    assert IsKept(before, j);
    var s :| 0 <= s < |stack| && stack[s] == j;
    assert stack[s] in PopEnded(before, stack, reach);
  }

  lemma PushKeepsKept(es: seq<Event>, stack: seq<nat>)
    requires es != [] && HoldsKept(es[..|es| - 1], stack)
    requires forall s :: 0 <= s < |stack| ==> stack[s] < |es| - 1
    ensures HoldsKept(es, PopEnded(es[..|es| - 1], stack, Reach(es[|es| - 1])) + [|es| - 1])
  {
    var last := |es| - 1;
    var popped := PopEnded(es[..last], stack, Reach(es[last]));
    PushKeepsAscending(stack, popped, last);
    PoppedAreKept(es, stack);
    PushedAreKept(es, popped);
    forall j: nat | IsKept(es, j) ensures j in popped + [last] {
      if j == last {
        assert (popped + [last])[|popped|] == j;
      } else {
        KeptAreNotPopped(es, stack, j);
        assert j in popped;
      }
    }
  }

  lemma PushedAreKept(es: seq<Event>, popped: seq<nat>)
    requires es != [] && AreKept(es, popped)
    ensures AreKept(es, popped + [|es| - 1])
  {
  }

  lemma KeptOneLonger(es: seq<Event>, j: nat)
    requires es != []
    ensures var last := |es| - 1;
      IsKept(es, j) <==> j == last || (IsKept(es[..last], j) && Outlasts(es[j], es[last]))
  {
    var last := |es| - 1;
    if j < last && IsKept(es[..last], j) && Outlasts(es[j], es[last]) {
      forall k | j < k < |es| ensures Outlasts(es[j], es[k]) {
        if k < last {
          assert es[..last][k] == es[k];
        }
      }
    }
    if j < last && IsKept(es, j) {
      assert forall k :: j < k < last ==> es[..last][k] == es[k];
    }
  }

  function Elements(stack: seq<nat>): (r: set<nat>)
    ensures forall j :: j in r <==> j in stack
  {
    if stack == [] then {} else Elements(stack[..|stack| - 1]) + {stack[|stack| - 1]}
  }

  lemma {:induction false} AscendingCount(stack: seq<nat>)
    requires IsAscending(stack)
    ensures |Elements(stack)| == |stack|
  {
    if stack != [] {
      AscendingCount(stack[..|stack| - 1]);
      assert stack[|stack| - 1] !in stack[..|stack| - 1];
    }
  }

  lemma KeptIsOpen(es: seq<Event>, i: nat, j: nat)
    requires i < |es|
    ensures IsKept(es[..i + 1], j) <==> j == i || IsOpenAt(es, j, i)
  {
    var prefix := es[..i + 1];
    if IsKept(prefix, j) && j < i {
      forall k | j < k <= i ensures Outlasts(es[j], es[k]) {
        assert prefix[k] == es[k];
      }
    }
  }

  /** Under the event itself, the stack holds the events that are open at it. */
  lemma BelowAreOpen(es: seq<Event>, i: nat, below: seq<nat>)
    requires i < |es| && HoldsKept(es[..i + 1], below + [i])
    ensures Elements(below) == OpenAt(es, i)
  {
    var stack := below + [i];
    forall j: nat ensures j in below <==> j in OpenAt(es, i) {
      KeptIsOpen(es, i, j);
      if j in below {
        var s :| 0 <= s < |below| && below[s] == j;
        assert stack[s] == j && stack[|below|] == i;
        assert IsKept(es[..i + 1], stack[s]);
      }
    }
  }

  /** The depth of an event is the number of events that are open at it. */
  lemma DepthCountsOpenEvents(es: seq<Event>, i: nat)
    requires i < |es|
    ensures Depth(es, i) == |OpenAt(es, i)|
  {
    var prefix := es[..i + 1];
    var stack := StackAfter(prefix);
    var below := stack[..|stack| - 1];
    StackHoldsKept(prefix);
    assert stack == below + [i];
    BelowAreOpen(es, i, below);
    AscendingCount(below);
  }

  /** Sorted as eventComparator sorts the events of one thread: by start, longer events first. */
  predicate IsSorted(es: seq<Event>) {
    forall a, b :: 0 <= a < b < |es| ==>
      es[a].ts < es[b].ts || (es[a].ts == es[b].ts && es[a].dur >= es[b].dur)
  }

  /** Every event that is open at another one contains it. */
  lemma OpenEventsContain(es: seq<Event>, j: nat, i: nat)
    requires IsSorted(es) && i < |es| && IsOpenAt(es, j, i)
    ensures es[j].ts <= es[i].ts && End(es[i]) <= End(es[j])
  {
  }
}
