/** Building the timelines of a profile (buildThreadTimelines in app/flame_chart/profile_model.ts). */
module Timelines {
  import opened CallDepth
  import opened Wrappers

  /** An event of the profile as it was read; any of these fields may be missing. */
  datatype TraceEvent = TraceEvent(
    tid: Option<int>, ts: Option<real>, dur: Option<real>, cat: string, name: string, threadName: string)

  datatype Timeline = Timeline(tid: int, threadName: string, events: seq<Event>, depths: seq<nat>, maxDepth: nat)

  // ----- thread names -----

  /** A map that remembers the order in which its keys were first set. */
  type Names = seq<(int, string)>

  function SetName(names: Names, tid: int, name: string): (r: Names) {
    if names == [] then [(tid, name)]
    else if names[0].0 == tid then [(tid, name)] + names[1..]
    else [names[0]] + SetName(names[1..], tid, name)
  }

  function NameOf(names: Names, tid: int): Option<string> {
    if names == [] then None else if names[0].0 == tid then Some(names[0].1) else NameOf(names[1..], tid)
  }

  /** The last thread with a name. */
  function TidOf(names: Names, name: string): Option<int> {
    if names == [] then None
    else
      var later := TidOf(names[1..], name);
      if later.Some? then later else if names[0].1 == name then Some(names[0].0) else None
  }

  /** No thread is listed twice. */
  predicate AreDistinct(names: Names) {
    forall i, j :: 0 <= i < j < |names| ==> names[i].0 != names[j].0
  }

  lemma {:induction false} SetNameSets(names: Names, tid: int, name: string)
    requires AreDistinct(names)
    ensures AreDistinct(SetName(names, tid, name))
    ensures forall t :: NameOf(SetName(names, tid, name), t) == if t == tid then Some(name) else NameOf(names, t)
    ensures forall i :: 0 <= i < |SetName(names, tid, name)| ==>
      SetName(names, tid, name)[i].0 == tid || SetName(names, tid, name)[i].0 in Tids(names)
  {
    if names == [] {
    } else if names[0].0 == tid {
      var set1 := [(tid, name)] + names[1..];
      assert set1[1..] == names[1..];
    } else {
      SetNameSets(names[1..], tid, name);
      var rest := SetName(names[1..], tid, name);
      assert ([names[0]] + rest)[1..] == rest;
      assert names[0].0 !in Tids(names[1..]);
    }
  }

  function Tids(names: Names): (r: seq<int>)
    ensures |r| == |names| && forall i :: 0 <= i < |names| ==> r[i] == names[i].0
  {
    seq(|names|, i requires 0 <= i < |names| => names[i].0)
  }

  /** The thread under which a name is collected has that name. */
  lemma {:induction false} TidOfHasName(names: Names, name: string)
    requires AreDistinct(names) && TidOf(names, name).Some?
    ensures NameOf(names, TidOf(names, name).value) == Some(name)
    ensures TidOf(names, name).value in Tids(names)
  {
    var later := TidOf(names[1..], name);
    if later.Some? {
      TidOfHasName(names[1..], name);
      var i :| 0 <= i < |names[1..]| && Tids(names[1..])[i] == later.value;
      assert names[i + 1].0 == later.value != names[0].0;
      assert Tids(names)[i + 1] == later.value;
    } else {
      assert Tids(names)[0] == names[0].0;
    }
  }

  /** Of several threads with a name it is the one listed last. */
  lemma {:induction false} TidOfIsLast(names: Names, name: string, i: nat)
    requires i < |names| && names[i].1 == name && forall j :: i < j < |names| ==> names[j].1 != name
    ensures TidOf(names, name) == Some(names[i].0)
  {
    if i > 0 {
      TidOfIsLast(names[1..], name, i - 1);
    } else {
      NobodyElse(names[1..], name);
    }
  }

  /** This thread is listed with the name, and no later one is. */
  ghost predicate IsLastNamed(names: Names, tid: int, name: string) {
    exists i :: 0 <= i < |names| && names[i] == (tid, name) && forall j :: i < j < |names| ==> names[j].1 != name
  }

  /** If any thread has the name, one is the last that does. */
  lemma {:induction false} SomeIsLast(names: Names, name: string) returns (i: nat)
    requires exists k :: 0 <= k < |names| && names[k].1 == name
    ensures i < |names| && names[i].1 == name && forall j :: i < j < |names| ==> names[j].1 != name
  {
    i := |names| - 1;
    if names[i].1 != name {
      i := SomeIsLast(names[..i], name);
    }
  }

  /** Merging collects the events of a thread under the last thread that is listed with its name. */
  lemma MergedUnderLast(names: Names, tid: int)
    requires AreDistinct(names) && NameOf(names, tid).Some?
    ensures IsLastNamed(names, MergedTid(names, tid), NameOf(names, tid).value)
  {
    var name := NameOf(names, tid).value;
    NamedThreadIsListed(names, tid);
    var i := SomeIsLast(names, name);
    TidOfIsLast(names, name, i);
    assert names[i] == (names[i].0, name);
  }

  lemma {:induction false} NamedThreadIsListed(names: Names, tid: int)
    requires NameOf(names, tid).Some?
    ensures exists k :: 0 <= k < |names| && names[k].1 == NameOf(names, tid).value
  {
    if names[0].0 == tid {
      assert names[0].1 == NameOf(names, tid).value;
    } else {
      NamedThreadIsListed(names[1..], tid);
      var k :| 0 <= k < |names[1..]| && names[1..][k].1 == NameOf(names, tid).value;
      assert names[k + 1].1 == NameOf(names, tid).value;
    }
  }

  lemma {:induction false} NobodyElse(names: Names, name: string)
    requires forall j :: 0 <= j < |names| ==> names[j].1 != name
    ensures TidOf(names, name) == None
  {
    if names != [] {
      NobodyElse(names[1..], name);
    }
  }

  lemma {:induction false} NamedThreadHasTid(names: Names, tid: int)
    requires NameOf(names, tid).Some?
    ensures TidOf(names, NameOf(names, tid).value).Some?
  {
    if names[0].0 != tid {
      NamedThreadHasTid(names[1..], tid);
    }
  }

  /** The thread whose timeline collects the events of this thread. */
  function MergedTid(names: Names, tid: int): (r: int)
    requires NameOf(names, tid).Some?
  {
    NamedThreadHasTid(names, tid);
    TidOf(names, NameOf(names, tid).value).value
  }

  /** Threads are merged exactly when they have the same name, and the merged thread bears it. */
  lemma MergedExactlyByName(names: Names, a: int, b: int)
    requires AreDistinct(names) && NameOf(names, a).Some? && NameOf(names, b).Some?
    ensures MergedTid(names, a) == MergedTid(names, b) <==> NameOf(names, a) == NameOf(names, b)
    ensures NameOf(names, MergedTid(names, a)) == NameOf(names, a)
  {
    NamedThreadHasTid(names, a);
    NamedThreadHasTid(names, b);
    TidOfHasName(names, NameOf(names, a).value);
    TidOfHasName(names, NameOf(names, b).value);
  }

  /** The names that the metadata events of a profile give to its threads, later ones first. */
  function NamesIn(events: seq<TraceEvent>, normalize: string -> string): (names: Names)
    ensures AreDistinct(names)
  {
    if events == [] then []
    else
      var e, before := events[|events| - 1], NamesIn(events[..|events| - 1], normalize);
      if e.name == "thread_name" && e.tid.Some? then
        SetNameSets(before, e.tid.value, normalize(e.threadName));
        SetName(before, e.tid.value, normalize(e.threadName))
      else before
  }

  // ----- the events that are shown -----

  predicate IsShown(e: TraceEvent, visibilityThreshold: real) {
    && e.tid.Some? && e.ts.Some? && e.dur.Some?
    && e.ts.value + e.dur.value >= 0.0
    && e.dur.value != 0.0
    && e.dur.value > visibilityThreshold
  }

  /** The precondition of merging: the thread of every event that is shown has a name. */
  predicate HasNames(events: seq<TraceEvent>, names: Names, visibilityThreshold: real) {
    forall i :: 0 <= i < |events| && IsShown(events[i], visibilityThreshold) ==>
      NameOf(names, events[i].tid.value).Some?
  }

  /** The shown events with merged threads, in the order of the profile. */
  function Shown(events: seq<TraceEvent>, names: Names, visibilityThreshold: real): (r: seq<Event>)
    requires HasNames(events, names, visibilityThreshold)
    ensures forall i :: 0 <= i < |r| ==> r[i].dur > visibilityThreshold
  {
    if events == [] then []
    else
      var e := events[|events| - 1];
      Shown(events[..|events| - 1], names, visibilityThreshold)
      + if IsShown(e, visibilityThreshold) then
          [Event(MergedTid(names, e.tid.value), e.ts.value, e.dur.value, e.cat, e.name)]
        else []
  }

  /** The last event of a profile that names this thread. */
  predicate IsNaming(events: seq<TraceEvent>, i: nat, tid: int)
    requires i < |events|
  {
    events[i].name == "thread_name" && events[i].tid == Some(tid)
  }

  /** A thread has the name that the profile gives it last, if it gives it any. */
  lemma {:induction false} LastNameCounts(events: seq<TraceEvent>, normalize: string -> string, tid: int, i: nat)
    requires i < |events| && IsNaming(events, i, tid)
    requires forall j :: i < j < |events| ==> !IsNaming(events, j, tid)
    ensures NameOf(NamesIn(events, normalize), tid) == Some(normalize(events[i].threadName))
  {
    var n := |events| - 1;
    var before, e := events[..n], events[n];
    if e.name == "thread_name" && e.tid.Some? {
      SetNameSets(NamesIn(before, normalize), e.tid.value, normalize(e.threadName));
    }
    if i < n {
      assert forall j :: 0 <= j < n ==> (IsNaming(before, j, tid) <==> IsNaming(events, j, tid));
      LastNameCounts(before, normalize, tid, i);
      assert !IsNaming(events, n, tid);
    }
  }

  lemma {:induction false} UnnamedThreadHasNone(events: seq<TraceEvent>, normalize: string -> string, tid: int)
    requires forall j :: 0 <= j < |events| ==> !IsNaming(events, j, tid)
    ensures NameOf(NamesIn(events, normalize), tid) == None
  {
    if events != [] {
      var n := |events| - 1;
      var before, e := events[..n], events[n];
      if e.name == "thread_name" && e.tid.Some? {
        SetNameSets(NamesIn(before, normalize), e.tid.value, normalize(e.threadName));
      }
      assert forall j :: 0 <= j < n ==> (IsNaming(before, j, tid) <==> IsNaming(events, j, tid));
      assert !IsNaming(events, n, tid);
      UnnamedThreadHasNone(before, normalize, tid);
    }
  }

  /** The event of the profile is shown as this one. */
  ghost predicate IsShownAs(e: TraceEvent, names: Names, shown: Event) {
    && e.tid.Some? && NameOf(names, e.tid.value).Some?
    && IsLastNamed(names, shown.tid, NameOf(names, e.tid.value).value)
    && e.ts == Some(shown.ts) && e.dur == Some(shown.dur)
    && e.cat == shown.cat && e.name == shown.name
  }

  /** It has a thread, a start and a duration, ends at or after time zero, and lasts longer than the
      threshold, but not for no time at all. */
  predicate IsWorthShowing(e: TraceEvent, visibilityThreshold: real) {
    match e
    case TraceEvent(Some(_), Some(ts), Some(dur), _, _, _) =>
      ts + dur >= 0.0 && dur != 0.0 && dur > visibilityThreshold
    case _ => false
  }

  /** These events of the profile, in order, are those worth showing, and are shown. */
  ghost predicate ArePicked(
      events: seq<TraceEvent>, names: Names, visibilityThreshold: real, from: seq<nat>, shown: seq<Event>)
  {
    && |from| == |shown|
    && (forall j, k :: 0 <= j < k < |from| ==> from[j] < from[k])
    && (forall k :: 0 <= k < |from| ==> from[k] < |events| && IsShownAs(events[from[k]], names, shown[k]))
    && (forall i: nat :: i < |events| ==> (i in from <==> IsWorthShowing(events[i], visibilityThreshold)))
  }

  lemma PickedOneLonger(
      before: seq<TraceEvent>, e: TraceEvent, names: Names, visibilityThreshold: real, from: seq<nat>,
      shown: seq<Event>, event: Event)
    requires ArePicked(before, names, visibilityThreshold, from, shown)
    ensures !IsWorthShowing(e, visibilityThreshold) ==>
      ArePicked(before + [e], names, visibilityThreshold, from, shown)
    ensures IsWorthShowing(e, visibilityThreshold) && IsShownAs(e, names, event) ==>
      ArePicked(before + [e], names, visibilityThreshold, from + [|before|], shown + [event])
  {
    var events := before + [e];
    assert |before| !in from;
    assert forall i :: 0 <= i < |before| ==> events[i] == before[i];
    forall i: nat | i < |events|
      ensures i in from + [|before|] <==> i in from || i == |before|
    {
    }
  }

  /** Which events of the profile are shown, and as what: each keeps its start, duration, category and name,
      and goes to the last thread that is listed with the name of its own. */
  lemma {:induction false} ShownEventsAreThoseOfProfile(
      events: seq<TraceEvent>, names: Names, visibilityThreshold: real) returns (from: seq<nat>)
    requires AreDistinct(names) && HasNames(events, names, visibilityThreshold)
    ensures ArePicked(events, names, visibilityThreshold, from, Shown(events, names, visibilityThreshold))
  {
    from := [];
    if events != [] {
      var n := |events| - 1;
      var before, e := events[..n], events[n];
      from := ShownEventsAreThoseOfProfile(before, names, visibilityThreshold);
      var shown := Shown(before, names, visibilityThreshold);
      assert events == before + [e];
      if IsShown(e, visibilityThreshold) {
        MergedUnderLast(names, e.tid.value);
        var event := Event(MergedTid(names, e.tid.value), e.ts.value, e.dur.value, e.cat, e.name);
        PickedOneLonger(before, e, names, visibilityThreshold, from, shown, event);
        from := from + [n];
      } else {
        PickedOneLonger(before, e, names, visibilityThreshold, from, shown, Event(0, 0.0, 0.0, "", ""));
      }
    }
  }

  // ----- sorting -----

  /** eventComparator(a, b) <= 0 */
  predicate IsBefore(a: Event, b: Event) {
    || a.tid < b.tid
    || (a.tid == b.tid && (a.ts < b.ts || (a.ts == b.ts && a.dur >= b.dur)))
  }

  predicate IsOrdered(es: seq<Event>) {
    forall i, j :: 0 <= i < j < |es| ==> IsBefore(es[i], es[j])
  }

  /** Inserts an event after those that it does not come before, as a stable sort does. */
  function Insert(es: seq<Event>, e: Event): (r: seq<Event>)
    ensures multiset(r) == multiset(es) + multiset{e}
  {
    if es == [] || IsBefore(es[|es| - 1], e) then es + [e]
    else
      assert es == es[..|es| - 1] + [es[|es| - 1]];
      Insert(es[..|es| - 1], e) + [es[|es| - 1]]
  }

  lemma {:induction false} InsertKeepsOrder(es: seq<Event>, e: Event)
    requires IsOrdered(es)
    ensures IsOrdered(Insert(es, e))
  {
    if es != [] && !IsBefore(es[|es| - 1], e) {
      var before, last := es[..|es| - 1], es[|es| - 1];
      InsertKeepsOrder(before, e);
      var r := Insert(before, e);
      forall i | 0 <= i < |r| ensures IsBefore(r[i], last) {
        assert r[i] in multiset(r);
        assert r[i] in multiset(before) + multiset{e};
        assert r[i] == e || r[i] in before;
      }
    }
  }

  /** Array.prototype.sort with eventComparator */
  function Sorted(es: seq<Event>): (r: seq<Event>)
    ensures multiset(r) == multiset(es)
    ensures IsOrdered(r)
  {
    if es == [] then []
    else
      assert es == es[..|es| - 1] + [es[|es| - 1]];
      InsertKeepsOrder(Sorted(es[..|es| - 1]), es[|es| - 1]);
      Insert(Sorted(es[..|es| - 1]), es[|es| - 1])
  }

  // ----- grouping -----

  /** A timeline as it should be: the sorted events of one thread with their depths. */
  predicate IsTimeline(t: Timeline) {
    && t.events != []
    && IsSorted(t.events)
    && (forall i :: 0 <= i < |t.events| ==> t.events[i].tid == t.tid)
    && AreDepths(t.depths, t.events)
    && IsMaximum(t.maxDepth, t.depths)
  }

  predicate AreDepths(depths: seq<nat>, es: seq<Event>) {
    |depths| == |es| && forall i :: 0 <= i < |es| ==> depths[i] == Depth(es, i)
  }

  predicate IsMaximum(m: nat, depths: seq<nat>) {
    m in depths && forall i :: 0 <= i < |depths| ==> depths[i] <= m
  }

  function EventsOf(timelines: seq<Timeline>): seq<Event> {
    if timelines == [] then [] else EventsOf(timelines[..|timelines| - 1]) + timelines[|timelines| - 1].events
  }

  /** One timeline for each thread, in ascending order, with all the events in order. */
  predicate AreTimelines(timelines: seq<Timeline>, es: seq<Event>) {
    && (forall i :: 0 <= i < |timelines| ==> IsTimeline(timelines[i]))
    && (forall i, j :: 0 <= i < j < |timelines| ==> timelines[i].tid < timelines[j].tid)
    && EventsOf(timelines) == es
  }

  /** The last event is that of the last timeline, and the stack is the one after its events. */
  predicate EndsWith(timelines: seq<Timeline>, stack: seq<nat>, es: seq<Event>) {
    if timelines == [] then es == []
    else
      var last := timelines[|timelines| - 1].events;
      es != [] && last != [] && es[|es| - 1] == last[|last| - 1] && stack == StackAfter(last)
  }

  /** The timelines of the first events, and the stack for the next one of the same thread. */
  predicate IsGrouping(timelines: seq<Timeline>, stack: seq<nat>, es: seq<Event>) {
    AreTimelines(timelines, es) && EndsWith(timelines, stack, es)
  }

  lemma OneEventTimeline(e: Event)
    ensures IsTimeline(Timeline(e.tid, "", [e], [0], 0)) && StackAfter([e]) == [0]
  {
    assert [e][..0] == [] && [e][..1] == [e];
    assert StackAfter([e]) == [0];
  }

  /** An event of another thread belongs to a later one. */
  lemma LaterThread(timelines: seq<Timeline>, stack: seq<nat>, es: seq<Event>, e: Event)
    requires IsGrouping(timelines, stack, es) && IsOrdered(es + [e])
    requires timelines == [] || e.tid != timelines[|timelines| - 1].tid
    ensures forall i :: 0 <= i < |timelines| ==> timelines[i].tid < e.tid
  {
    if timelines != [] {
      var last := timelines[|timelines| - 1];
      assert (es + [e])[|es| - 1] == es[|es| - 1] && (es + [e])[|es|] == e;
      assert IsBefore(es[|es| - 1], e);
      assert IsTimeline(last) && last.tid < e.tid;
    }
  }

  lemma TimelinesOneLonger(timelines: seq<Timeline>, es: seq<Event>, t: Timeline)
    requires AreTimelines(timelines, es) && IsTimeline(t)
    requires forall i :: 0 <= i < |timelines| ==> timelines[i].tid < t.tid
    ensures AreTimelines(timelines + [t], es + t.events)
  {
    var longer := timelines + [t];
    assert longer[..|timelines|] == timelines;
    forall i | 0 <= i < |longer| ensures IsTimeline(longer[i]) {
      assert i < |timelines| ==> longer[i] == timelines[i];
    }
    assert EventsOf(longer) == es + t.events;
  }

  lemma EndsOneLonger(timelines: seq<Timeline>, es: seq<Event>, t: Timeline)
    requires t.events != []
    ensures EndsWith(timelines + [t], StackAfter(t.events), es + t.events)
  {
  }

  lemma AppendTimeline(timelines: seq<Timeline>, stack: seq<nat>, es: seq<Event>, t: Timeline)
    requires IsGrouping(timelines, stack, es) && IsTimeline(t)
    requires forall i :: 0 <= i < |timelines| ==> timelines[i].tid < t.tid
    ensures IsGrouping(timelines + [t], StackAfter(t.events), es + t.events)
  {
    TimelinesOneLonger(timelines, es, t);
    assert t.events != [];
    EndsOneLonger(timelines, es, t);
  }

  lemma StartTimeline(timelines: seq<Timeline>, stack: seq<nat>, es: seq<Event>, e: Event)
    requires IsGrouping(timelines, stack, es) && IsOrdered(es + [e])
    requires timelines == [] || e.tid != timelines[|timelines| - 1].tid
    ensures IsGrouping(timelines + [Timeline(e.tid, "", [e], [0], 0)], [0], es + [e])
  {
    OneEventTimeline(e);
    LaterThread(timelines, stack, es, e);
    AppendTimeline(timelines, stack, es, Timeline(e.tid, "", [e], [0], 0));
  }

  /** The timeline with one more event, pushed on what is left of the stack. */
  function Extended(t: Timeline, e: Event, depth: nat): Timeline {
    t.(
      events := t.events + [e],
      depths := t.depths + [depth],
      maxDepth := if depth > t.maxDepth then depth else t.maxDepth)
  }

  lemma SortedOneLonger(es: seq<Event>, e: Event)
    requires IsSorted(es) && es != []
    requires var last := es[|es| - 1]; last.ts < e.ts || (last.ts == e.ts && last.dur >= e.dur)
    ensures IsSorted(es + [e])
  {
    forall a | 0 <= a < |es| ensures es[a].ts < e.ts || (es[a].ts == e.ts && es[a].dur >= e.dur) {
      assert a == |es| - 1 || IsSorted(es);
    }
  }

  /** Later events do not change the depths of earlier ones. */
  lemma DepthsOneLonger(es: seq<Event>, e: Event)
    ensures forall i :: 0 <= i < |es| ==> Depth(es + [e], i) == Depth(es, i)
    ensures StackAfter(es + [e]) == PopEnded(es, StackAfter(es), Reach(e)) + [|es|]
    ensures Depth(es + [e], |es|) == |PopEnded(es, StackAfter(es), Reach(e))|
  {
    var longer := es + [e];
    assert longer[..|es|] == es && longer[..|es| + 1] == longer;
    forall i | 0 <= i < |es| ensures Depth(longer, i) == Depth(es, i) {
      assert longer[..i + 1] == es[..i + 1];
    }
  }

  lemma ExtendTimeline(t: Timeline, e: Event, popped: seq<nat>)
    requires IsTimeline(t) && e.tid == t.tid
    requires IsBefore(t.events[|t.events| - 1], e)
    requires popped == PopEnded(t.events, StackAfter(t.events), Reach(e))
    ensures IsTimeline(Extended(t, e, |popped|))
    ensures StackAfter(t.events + [e]) == popped + [|t.events|]
  {
    SortedOneLonger(t.events, e);
    DepthsOneLonger(t.events, e);
    MaximumOneLonger(t.maxDepth, t.depths, |popped|);
    AreDepthsOneLonger(t.depths, t.events, e, |popped|);
    ExtendedIsTimeline(t, e, |popped|);
  }

  lemma ExtendedIsTimeline(t: Timeline, e: Event, depth: nat)
    requires e.tid == t.tid && forall i :: 0 <= i < |t.events| ==> t.events[i].tid == t.tid
    requires IsSorted(t.events + [e]) && AreDepths(t.depths + [depth], t.events + [e])
    requires IsMaximum(if depth > t.maxDepth then depth else t.maxDepth, t.depths + [depth])
    ensures IsTimeline(Extended(t, e, depth))
  {
  }

  lemma MaximumOneLonger(m: nat, depths: seq<nat>, depth: nat)
    requires IsMaximum(m, depths)
    ensures IsMaximum(if depth > m then depth else m, depths + [depth])
  {
  }

  lemma AreDepthsOneLonger(depths: seq<nat>, es: seq<Event>, e: Event, depth: nat)
    requires AreDepths(depths, es) && depth == Depth(es + [e], |es|)
    ensures AreDepths(depths + [depth], es + [e])
  {
    DepthsOneLonger(es, e);
  }

  lemma ReplaceLast(timelines: seq<Timeline>, t: Timeline, es: seq<Event>, e: Event)
    requires AreTimelines(timelines, es) && timelines != [] && IsTimeline(t)
    requires var last := timelines[|timelines| - 1]; t.tid == last.tid && t.events == last.events + [e]
    ensures AreTimelines(timelines[|timelines| - 1 := t], es + [e])
  {
    var last := |timelines| - 1;
    var longer := timelines[last := t];
    assert longer[..last] == timelines[..last];
    assert EventsOf(longer) == EventsOf(timelines[..last]) + (timelines[last].events + [e]) == es + [e];
  }

  lemma ContinueTimeline(timelines: seq<Timeline>, stack: seq<nat>, es: seq<Event>, e: Event)
    requires IsGrouping(timelines, stack, es) && IsOrdered(es + [e])
    requires timelines != [] && e.tid == timelines[|timelines| - 1].tid
    ensures var last := |timelines| - 1; var popped := PopEnded(timelines[last].events, stack, Reach(e));
      IsGrouping(
        timelines[last := Extended(timelines[last], e, |popped|)], popped + [|timelines[last].events|], es + [e])
  {
    var t := timelines[|timelines| - 1];
    var popped := PopEnded(t.events, stack, Reach(e));
    assert (es + [e])[|es| - 1] == es[|es| - 1] && (es + [e])[|es|] == e;
    assert IsBefore(es[|es| - 1], e);
    ExtendTimeline(t, e, popped);
    ReplaceLast(timelines, Extended(t, e, |popped|), es, e);
  }

  /** The loop over the sorted events. */
  method Group(events: seq<Event>) returns (timelines: seq<Timeline>)
    requires IsOrdered(events)
    ensures AreTimelines(timelines, events)
  {
    timelines := [];
    var stack: seq<nat> := [];
    for n := 0 to |events|
      invariant IsGrouping(timelines, stack, events[..n])
    {
      assert events[..n + 1] == events[..n] + [events[n]];
      timelines, stack := AddEvent(timelines, stack, events[n], events[..n]);
    }
    assert events[..|events|] == events;
  }

  /** The body of the loop: a new thread starts a timeline; otherwise the event goes on the stack. */
  method AddEvent(before: seq<Timeline>, oldStack: seq<nat>, event: Event, ghost es: seq<Event>)
    returns (timelines: seq<Timeline>, stack: seq<nat>)
    requires IsGrouping(before, oldStack, es) && IsOrdered(es + [event])
    ensures IsGrouping(timelines, stack, es + [event])
  {
    timelines, stack := before, oldStack;
    if |timelines| == 0 || event.tid != timelines[|timelines| - 1].tid {
      StartTimeline(timelines, stack, es, event);
      timelines := timelines + [Timeline(event.tid, "", [event], [0], 0)];
      stack := [0];
    } else {
      ContinueTimeline(timelines, stack, es, event);
      var last := |timelines| - 1;
      var timeline := timelines[last];
      stack := PopStack(timeline.events, stack, event);
      timelines := timelines[last := Extended(timeline, event, |stack|)];
      stack := stack + [|timeline.events|];
    }
  }

  /** The loop that goes up the stack to the first event that this one fits inside. */
  method PopStack(es: seq<Event>, before: seq<nat>, event: Event) returns (stack: seq<nat>)
    requires forall s :: 0 <= s < |before| ==> before[s] < |es|
    ensures stack == PopEnded(es, before, Reach(event))
  {
    stack := before;
    while |stack| > 0
        && (End(es[stack[|stack| - 1]]) < event.ts || End(es[stack[|stack| - 1]]) < event.ts + event.dur)
      invariant forall s :: 0 <= s < |stack| ==> stack[s] < |es|
      invariant PopEnded(es, stack, Reach(event)) == PopEnded(es, before, Reach(event))
      decreases |stack|
    {
      stack := stack[..|stack| - 1];
    }
  }

  lemma {:induction false} ShownHaveNames(events: seq<TraceEvent>, names: Names, visibilityThreshold: real)
    requires AreDistinct(names) && HasNames(events, names, visibilityThreshold)
    ensures forall e :: e in Shown(events, names, visibilityThreshold) ==> NameOf(names, e.tid).Some?
  {
    if events != [] {
      var e := events[|events| - 1];
      ShownHaveNames(events[..|events| - 1], names, visibilityThreshold);
      if IsShown(e, visibilityThreshold) {
        MergedExactlyByName(names, e.tid.value, e.tid.value);
      }
    }
  }

  lemma {:induction false} TimelineEventsAreEvents(timelines: seq<Timeline>, i: nat)
    requires i < |timelines|
    ensures forall e :: e in timelines[i].events ==> e in EventsOf(timelines)
  {
    if i < |timelines| - 1 {
      TimelineEventsAreEvents(timelines[..|timelines| - 1], i);
    }
  }

  lemma TimelinesHaveNames(timelines: seq<Timeline>, events: seq<TraceEvent>, names: Names, visibilityThreshold: real)
    requires AreDistinct(names) && HasNames(events, names, visibilityThreshold)
    requires AreTimelines(timelines, Sorted(Shown(events, names, visibilityThreshold)))
    ensures forall i :: 0 <= i < |timelines| ==> NameOf(names, timelines[i].tid).Some?
  {
    var shown := Shown(events, names, visibilityThreshold);
    ShownHaveNames(events, names, visibilityThreshold);
    forall i | 0 <= i < |timelines| ensures NameOf(names, timelines[i].tid).Some? {
      var e := timelines[i].events[0];
      TimelineEventsAreEvents(timelines, i);
      assert e in timelines[i].events;
      assert e in multiset(Sorted(shown));
      assert e in multiset(shown);
    }
  }

  lemma {:induction false} RenamingKeepsEvents(a: seq<Timeline>, b: seq<Timeline>)
    requires |a| == |b| && forall i :: 0 <= i < |a| ==> a[i].events == b[i].events
    ensures EventsOf(a) == EventsOf(b)
  {
    if a != [] {
      RenamingKeepsEvents(a[..|a| - 1], b[..|b| - 1]);
    }
  }

  /** The loop that fills in the names. */
  method NameTimelines(timelines: seq<Timeline>, names: Names, ghost es: seq<Event>) returns (r: seq<Timeline>)
    requires AreTimelines(timelines, es)
    requires forall i :: 0 <= i < |timelines| ==> NameOf(names, timelines[i].tid).Some?
    ensures AreTimelines(r, es)
    ensures forall i :: 0 <= i < |r| ==> NameOf(names, r[i].tid) == Some(r[i].threadName)
  {
    r := timelines;
    for i := 0 to |timelines|
      invariant |r| == |timelines|
      invariant forall k :: 0 <= k < |r| ==>
        r[k] == if k < i then timelines[k].(threadName := NameOf(names, timelines[k].tid).value) else timelines[k]
    {
      r := r[i := r[i].(threadName := NameOf(names, r[i].tid).value)];
    }
    forall k | 0 <= k < |r| ensures IsTimeline(r[k]) {
      assert IsTimeline(timelines[k]);
    }
    RenamingKeepsEvents(timelines, r);
  }

  /** buildThreadTimelines up to the final sort of the timelines by name. */
  method BuildThreadTimelines(events: seq<TraceEvent>, normalize: string -> string, visibilityThreshold: real)
    returns (timelines: seq<Timeline>)
    requires HasNames(events, NamesIn(events, normalize), visibilityThreshold)
    ensures AreTimelines(timelines, Sorted(Shown(events, NamesIn(events, normalize), visibilityThreshold)))
    ensures forall i :: 0 <= i < |timelines| ==>
      NameOf(NamesIn(events, normalize), timelines[i].tid) == Some(timelines[i].threadName)
  {
    var names := NamesIn(events, normalize);
    var shown: seq<Event> := [];
    for n := 0 to |events|
      invariant HasNames(events[..n], names, visibilityThreshold)
      invariant shown == Shown(events[..n], names, visibilityThreshold)
    {
      assert events[..n + 1][..n] == events[..n];
      var e := events[n];
      if IsShown(e, visibilityThreshold) {
        shown := shown + [Event(MergedTid(names, e.tid.value), e.ts.value, e.dur.value, e.cat, e.name)];
      }
    }
    assert events[..|events|] == events;
    timelines := Group(Sorted(shown));
    TimelinesHaveNames(timelines, events, names, visibilityThreshold);
    timelines := NameTimelines(timelines, names, Sorted(shown));
  }
}
