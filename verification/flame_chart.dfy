/** Placing the bars of a flame chart (buildFlameChartModel in app/flame_chart/flame_chart_model.ts). */
module FlameChart {
  import opened CallDepth
  import opened CallOverlap
  import opened Timelines

  // app/flame_chart/style_constants.ts
  const SECTION_LABEL_HEIGHT := 20
  const SECTION_PADDING_TOP := 8
  const SECTION_PADDING_BOTTOM := 8
  const BLOCK_VERTICAL_GAP := 1
  const BLOCK_HEIGHT := 16

  const MICROSECONDS_PER_SECOND := 1000000.0

  datatype Block = Block(x: real, width: real, y: int, event: Event)

  datatype Section = Section(name: string, y: int, height: int)

  /** The bar of an event in a section that starts at the given y. */
  function BlockOf(e: Event, depth: nat, y: int): Block {
    Block(
      e.ts / MICROSECONDS_PER_SECOND,
      e.dur / MICROSECONDS_PER_SECOND,
      y + depth * (BLOCK_HEIGHT + BLOCK_VERTICAL_GAP) + SECTION_LABEL_HEIGHT + SECTION_PADDING_TOP,
      e)
  }

  function BlocksOf(t: Timeline, y: int): (blocks: seq<Block>)
    requires IsTimeline(t)
    ensures |blocks| == |t.events|
    ensures forall i :: 0 <= i < |blocks| ==> blocks[i] == BlockOf(t.events[i], t.depths[i], y)
  {
    seq(|t.events|, i requires 0 <= i < |t.events| => BlockOf(t.events[i], t.depths[i], y))
  }

  function Height(t: Timeline): int {
    SECTION_LABEL_HEIGHT + SECTION_PADDING_TOP + SECTION_PADDING_BOTTOM
    + (t.maxDepth + 1) * (BLOCK_HEIGHT + BLOCK_VERTICAL_GAP) - BLOCK_VERTICAL_GAP
  }

  /** Where the section after these timelines starts. */
  function Bottom(timelines: seq<Timeline>): int {
    if timelines == [] then 0 else Bottom(timelines[..|timelines| - 1]) + Height(timelines[|timelines| - 1])
  }

  predicate AreAllTimelines(timelines: seq<Timeline>) {
    forall i :: 0 <= i < |timelines| ==> IsTimeline(timelines[i])
  }

  function Layout(timelines: seq<Timeline>): seq<Block>
    requires AreAllTimelines(timelines)
  {
    if timelines == [] then []
    else
      var before := timelines[..|timelines| - 1];
      Layout(before) + BlocksOf(timelines[|timelines| - 1], Bottom(before))
  }

  function Sections(timelines: seq<Timeline>): seq<Section> {
    if timelines == [] then []
    else
      var before, t := timelines[..|timelines| - 1], timelines[|timelines| - 1];
      Sections(before) + [Section(t.threadName, Bottom(before), Height(t))]
  }

  /** The loop that fills the model, section by section. */
  method BuildFlameChartModel(timelines: seq<Timeline>) returns (sections: seq<Section>, blocks: seq<Block>)
    requires AreAllTimelines(timelines)
    ensures blocks == Layout(timelines) && sections == Sections(timelines)
  {
    var currentThreadY := 0;
    sections, blocks := [], [];
    for n := 0 to |timelines|
      invariant currentThreadY == Bottom(timelines[..n])
      invariant blocks == Layout(timelines[..n])
      invariant sections == Sections(timelines[..n])
    {
      assert timelines[..n + 1][..n] == timelines[..n];
      var bars, section := BuildSection(timelines[n], currentThreadY);
      blocks := blocks + bars;
      sections := sections + [section];
      currentThreadY := currentThreadY + section.height;
    }
    assert timelines[..|timelines|] == timelines;
  }

  method BuildSection(t: Timeline, currentThreadY: int) returns (bars: seq<Block>, section: Section)
    requires IsTimeline(t)
    ensures bars == BlocksOf(t, currentThreadY)
    ensures section == Section(t.threadName, currentThreadY, Height(t))
  {
    bars := MapEvents(t.events, t.depths, currentThreadY);
    section := Section(t.threadName, currentThreadY, Height(t));
  }

  /** Sections follow one another without a gap, the first at the top, and every bar is in its own. */
  lemma {:induction false} SectionsAreStacked(timelines: seq<Timeline>, i: nat)
    requires i < |timelines|
    ensures |Sections(timelines)| == |timelines|
    ensures Sections(timelines)[i] == Section(timelines[i].threadName, Bottom(timelines[..i]), Height(timelines[i]))
    ensures Bottom(timelines[..i + 1]) == Sections(timelines)[i].y + Sections(timelines)[i].height
  {
    var before := timelines[..|timelines| - 1];
    assert timelines[..i + 1][..i] == timelines[..i];
    if i < |before| {
      SectionsAreStacked(before, i);
      assert before[..i] == timelines[..i] && before[..i + 1] == timelines[..i + 1];
    } else {
      if before != [] {
        SectionsAreStacked(before, 0);
      }
      assert timelines[..i + 1] == timelines;
    }
  }

  /** The bars of one timeline. */
  method MapEvents(events: seq<Event>, depths: seq<nat>, currentThreadY: int) returns (bars: seq<Block>)
    requires |depths| == |events|
    ensures |bars| == |events|
    ensures forall i :: 0 <= i < |bars| ==> bars[i] == BlockOf(events[i], depths[i], currentThreadY)
  {
    bars := [];
    for i := 0 to |events|
      invariant |bars| == i
      invariant forall k :: 0 <= k < i ==> bars[k] == BlockOf(events[k], depths[k], currentThreadY)
    {
      var bar := BlockOf(events[i], depths[i], currentThreadY);
      bars := bars + [bar];
    }
  }

  /** Where the bars are: one for each event, in the order of the events, from its start for as long as it
      lasts, in seconds. */
  lemma {:induction false} BarsAreInSeconds(timelines: seq<Timeline>)
    requires AreAllTimelines(timelines)
    ensures var blocks, es := Layout(timelines), EventsOf(timelines);
      && |blocks| == |es|
      && forall k :: 0 <= k < |es| ==>
        && blocks[k].event == es[k]
        && blocks[k].x * 1000000.0 == es[k].ts
        && blocks[k].width * 1000000.0 == es[k].dur
  {
    if timelines != [] {
      BarsAreInSeconds(timelines[..|timelines| - 1]);
    }
  }

  /** And how far down: 17 pixels for each level of depth, below 28 for the label and the padding; the
      section ends 8 pixels below its lowest row. */
  lemma BarsAreInRows(t: Timeline, y: int, i: nat)
    requires IsTimeline(t) && i < |t.events|
    ensures BlocksOf(t, y)[i].y == y + 28 + 17 * Depth(t.events, i)
    ensures Height(t) == 28 + 17 * t.maxDepth + 16 + 8
  {
  }

  // ----- geometry -----

  /** Two bars have some area in common. */
  predicate Collide(a: Block, b: Block) {
    && a.x < b.x + b.width && b.x < a.x + a.width
    && a.y < b.y + BLOCK_HEIGHT && b.y < a.y + BLOCK_HEIGHT
  }

  predicate NoneCollide(blocks: seq<Block>) {
    forall i, j :: 0 <= i < j < |blocks| ==> !Collide(blocks[i], blocks[j])
  }

  /** The bars lie between two heights. */
  predicate AreWithin(blocks: seq<Block>, top: int, bottom: int) {
    forall i :: 0 <= i < |blocks| ==> top <= blocks[i].y && blocks[i].y + BLOCK_HEIGHT <= bottom
  }

  /** The bars of a timeline lie within its section, below the label and above the padding. */
  lemma BlocksAreInSection(t: Timeline, y: int)
    requires IsTimeline(t)
    ensures AreWithin(BlocksOf(t, y), y + SECTION_LABEL_HEIGHT + SECTION_PADDING_TOP,
      y + Height(t) - SECTION_PADDING_BOTTOM)
  {
  }

  lemma {:induction false} LayoutIsAboveBottom(timelines: seq<Timeline>)
    requires AreAllTimelines(timelines)
    ensures AreWithin(Layout(timelines), 0, Bottom(timelines))
    ensures Bottom(timelines) >= 0
  {
    if timelines != [] {
      var before := timelines[..|timelines| - 1];
      LayoutIsAboveBottom(before);
      BlocksAreInSection(timelines[|timelines| - 1], Bottom(before));
    }
  }

  lemma CollideByRow(a: Event, b: Event, da: nat, db: nat, y: int)
    ensures Collide(BlockOf(a, da, y), BlockOf(b, db, y)) <==> Overlap(a, b) && da == db
  {
    var m := MICROSECONDS_PER_SECOND;
    assert b.ts / m + b.dur / m == End(b) / m && a.ts / m + a.dur / m == End(a) / m;
    assert a.ts / m < End(b) / m <==> a.ts < End(b);
    assert b.ts / m < End(a) / m <==> b.ts < End(a);
  }

  /** Within a section, bars collide exactly if two of one row share some time. */
  lemma SectionIsFree(t: Timeline, y: int)
    requires IsTimeline(t)
    ensures NoneCollide(BlocksOf(t, y)) <==> RowsAreDisjoint(t.events)
  {
    var blocks := BlocksOf(t, y);
    forall i, j | 0 <= i < j < |blocks|
      ensures Collide(blocks[i], blocks[j])
        <==> Overlap(t.events[i], t.events[j]) && Depth(t.events, i) == Depth(t.events, j)
    {
      CollideByRow(t.events[i], t.events[j], t.depths[i], t.depths[j], y);
    }
  }

  lemma FreeTogether(a: seq<Block>, b: seq<Block>, top: int, y: int, bottom: int)
    requires AreWithin(a, top, y) && AreWithin(b, y, bottom)
    ensures NoneCollide(a + b) <==> NoneCollide(a) && NoneCollide(b)
  {
    var both := a + b;
    if NoneCollide(both) {
      forall i, j | 0 <= i < j < |a| ensures !Collide(a[i], a[j]) {
        assert both[i] == a[i] && both[j] == a[j];
      }
      forall i, j | 0 <= i < j < |b| ensures !Collide(b[i], b[j]) {
        assert both[|a| + i] == b[i] && both[|a| + j] == b[j];
      }
    }
  }

  predicate HavePositiveTimes(timelines: seq<Timeline>) {
    forall i :: 0 <= i < |timelines| ==> HavePositiveDurations(timelines[i].events)
  }

  predicate AreAllNested(timelines: seq<Timeline>) {
    forall i :: 0 <= i < |timelines| ==> AreNestedOrDisjoint(timelines[i].events)
  }

  lemma NestedOneLonger(timelines: seq<Timeline>)
    requires timelines != []
    ensures AreAllNested(timelines)
      <==> AreAllNested(timelines[..|timelines| - 1]) && AreNestedOrDisjoint(timelines[|timelines| - 1].events)
  {
  }

  /** Adding a section below those before it. */
  lemma SectionBelow(before: seq<Timeline>, t: Timeline)
    requires AreAllTimelines(before) && IsTimeline(t) && HavePositiveDurations(t.events)
    ensures NoneCollide(Layout(before) + BlocksOf(t, Bottom(before)))
      <==> NoneCollide(Layout(before)) && AreNestedOrDisjoint(t.events)
  {
    LayoutIsAboveBottom(before);
    BlocksAreInSection(t, Bottom(before));
    FreeTogether(Layout(before), BlocksOf(t, Bottom(before)), 0, Bottom(before), Bottom(before) + Height(t));
    SectionIsFree(t, Bottom(before));
    RowsAreDisjointExactly(t.events);
  }

  /** No two bars of the chart have any area in common exactly when the events of each thread are
      pairwise nested or disjoint, in whatever order the threads are drawn. */
  lemma {:induction false} ChartIsFreeExactly(timelines: seq<Timeline>)
    requires AreAllTimelines(timelines) && HavePositiveTimes(timelines)
    ensures NoneCollide(Layout(timelines)) <==> AreAllNested(timelines)
  {
    if timelines != [] {
      var before, t := timelines[..|timelines| - 1], timelines[|timelines| - 1];
      ChartIsFreeExactly(before);
      SectionBelow(before, t);
      NestedOneLonger(timelines);
    }
  }

  // ----- the whole chart -----

  /** Events of one thread are pairwise nested or disjoint. */
  ghost predicate IsWellNested(es: seq<Event>) {
    forall a, b :: a in es && b in es && a.tid == b.tid ==> IsNestedOrDisjoint(a, b)
  }

  lemma {:induction false} EventsBelongToTimelines(timelines: seq<Timeline>, e: Event) returns (i: nat)
    requires e in EventsOf(timelines)
    ensures i < |timelines| && e in timelines[i].events
  {
    var before := timelines[..|timelines| - 1];
    if e in EventsOf(before) {
      i := EventsBelongToTimelines(before, e);
    } else {
      i := |timelines| - 1;
    }
  }

  lemma NestedWithinTimeline(es: seq<Event>, a: Event, b: Event)
    requires AreNestedOrDisjoint(es) && a in es && b in es
    ensures IsNestedOrDisjoint(a, b)
  {
    var p :| 0 <= p < |es| && es[p] == a;
    var q :| 0 <= q < |es| && es[q] == b;
    assert p < q ==> IsNestedOrDisjoint(es[p], es[q]);
    assert q < p ==> IsNestedOrDisjoint(es[q], es[p]);
  }

  lemma NestedByThread(timelines: seq<Timeline>, es: seq<Event>)
    requires AreTimelines(timelines, es)
    ensures AreAllNested(timelines) <==> IsWellNested(es)
  {
    if AreAllNested(timelines) {
      forall a, b | a in es && b in es && a.tid == b.tid ensures IsNestedOrDisjoint(a, b) {
        var i := EventsBelongToTimelines(timelines, a);
        var j := EventsBelongToTimelines(timelines, b);
        assert i == j;
        NestedWithinTimeline(timelines[i].events, a, b);
      }
    }
    if IsWellNested(es) {
      forall i | 0 <= i < |timelines| ensures AreNestedOrDisjoint(timelines[i].events) {
        TimelineEventsAreEvents(timelines, i);
      }
    }
  }

  /** The final sort only reorders the timelines. */
  predicate IsReordering(drawn: seq<Timeline>, timelines: seq<Timeline>) {
    multiset(drawn) == multiset(timelines)
  }

  lemma ReorderedTimelines(drawn: seq<Timeline>, timelines: seq<Timeline>)
    requires IsReordering(drawn, timelines)
    ensures forall t :: t in drawn <==> t in timelines
  {
    forall t ensures t in drawn <==> t in timelines {
      assert t in drawn <==> t in multiset(drawn);
    }
  }

  lemma ReorderedAreNested(drawn: seq<Timeline>, timelines: seq<Timeline>)
    requires IsReordering(drawn, timelines)
    ensures AreAllNested(drawn) <==> AreAllNested(timelines)
    ensures AreAllTimelines(timelines) ==> AreAllTimelines(drawn)
    ensures HavePositiveTimes(timelines) ==> HavePositiveTimes(drawn)
  {
    ReorderedTimelines(drawn, timelines);
    assert forall i :: 0 <= i < |drawn| ==> drawn[i] in timelines;
    assert forall i :: 0 <= i < |timelines| ==> timelines[i] in drawn;
  }

  lemma SortedHasSameEvents(es: seq<Event>)
    ensures forall e :: e in Sorted(es) <==> e in es
  {
    forall e ensures e in Sorted(es) <==> e in es {
      assert e in multiset(Sorted(es)) <==> e in multiset(es);
    }
  }

  lemma ShownTimesArePositive(timelines: seq<Timeline>, es: seq<Event>)
    requires AreTimelines(timelines, Sorted(es)) && HavePositiveDurations(es)
    ensures HavePositiveTimes(timelines)
  {
    SortedHasSameEvents(es);
    forall i, k | 0 <= i < |timelines| && 0 <= k < |timelines[i].events| ensures timelines[i].events[k].dur > 0.0 {
      TimelineEventsAreEvents(timelines, i);
      assert timelines[i].events[k] in es;
    }
  }

  /** From the events of a profile to the chart: if none of those shown ends before it begins, which a
      threshold that is not negative rules out, and whatever the order of the sections, no bars
      collide exactly when the shown events of each merged thread are pairwise nested or disjoint. */
  lemma ProfileIsDrawnFreeExactly(
      events: seq<TraceEvent>, names: Names, visibilityThreshold: real, timelines: seq<Timeline>, drawn: seq<Timeline>)
    requires HasNames(events, names, visibilityThreshold)
    requires HavePositiveDurations(Shown(events, names, visibilityThreshold))
    requires AreTimelines(timelines, Sorted(Shown(events, names, visibilityThreshold)))
    requires IsReordering(drawn, timelines)
    ensures AreAllTimelines(drawn)
    ensures NoneCollide(Layout(drawn)) <==> IsWellNested(Shown(events, names, visibilityThreshold))
  {
    var shown := Shown(events, names, visibilityThreshold);
    ShownTimesArePositive(timelines, shown);
    ReorderedAreNested(drawn, timelines);
    ChartIsFreeExactly(drawn);
    NestedByThread(timelines, Sorted(shown));
    SortedHasSameEvents(shown);
  }
}
