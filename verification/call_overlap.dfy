/** When the bars of one thread, drawn in rows by depth, are disjoint. */
module CallOverlap {
  import opened CallDepth

  predicate HavePositiveDurations(es: seq<Event>) {
    forall i :: 0 <= i < |es| ==> es[i].dur > 0.0
  }

  /** Two events share some time. */
  predicate Overlap(a: Event, b: Event) {
    a.ts < End(b) && b.ts < End(a)
  }

  predicate Contains(a: Event, b: Event) {
    a.ts <= b.ts && End(b) <= End(a)
  }

  /** As calls on a stack behave: one within the other, or one after the other. */
  predicate IsNestedOrDisjoint(a: Event, b: Event) {
    Contains(a, b) || Contains(b, a) || !Overlap(a, b)
  }

  predicate AreNestedOrDisjoint(es: seq<Event>) {
    forall i, j :: 0 <= i < j < |es| ==> IsNestedOrDisjoint(es[i], es[j])
  }

  /** No two bars in the same row share some time. */
  predicate RowsAreDisjoint(es: seq<Event>) {
    forall i, j :: 0 <= i < j < |es| && Depth(es, i) == Depth(es, j) ==> !Overlap(es[i], es[j])
  }

  // ----- the tree of open events -----

  lemma OpenIsTransitive(es: seq<Event>, h: nat, j: nat, i: nat)
    requires i < |es| && IsOpenAt(es, j, i)
    ensures h < j ==> (IsOpenAt(es, h, j) <==> IsOpenAt(es, h, i))
  {
  }

  /** An event is deeper than those that are open at it. */
  lemma OpenIsHigher(es: seq<Event>, j: nat, i: nat)
    requires i < |es| && IsOpenAt(es, j, i)
    ensures Depth(es, j) < Depth(es, i)
  {
    DepthCountsOpenEvents(es, i);
    DepthCountsOpenEvents(es, j);
    forall h | h in OpenAt(es, j) ensures h in OpenAt(es, i) {
      OpenIsTransitive(es, h, j, i);
    }
    SubsetIsSmaller(OpenAt(es, j), OpenAt(es, i), j);
  }

  lemma SubsetIsSmaller(a: set<nat>, b: set<nat>, x: nat)
    requires a <= b && x in b && x !in a
    ensures |a| < |b|
  {
    var rest := b - {x};
    assert a <= rest;
    Subset(a, rest);
    assert |b| == |rest| + 1;
  }

  lemma {:induction false} Subset(a: set<nat>, b: set<nat>)
    requires a <= b
    ensures |a| <= |b|
  {
    if a != {} {
      var x :| x in a;
      Subset(a - {x}, b - {x});
    }
  }

  /** The open event that began last. */
  lemma {:induction false} LastOpen(es: seq<Event>, i: nat, n: nat) returns (p: nat)
    requires n <= i < |es| && exists j: nat :: j < n && IsOpenAt(es, j, i)
    ensures p < n && IsOpenAt(es, p, i) && forall j :: p < j < n ==> !IsOpenAt(es, j, i)
  {
    if IsOpenAt(es, n - 1, i) {
      p := n - 1;
    } else {
      p := LastOpen(es, i, n - 1);
    }
  }

  /** It is one row above the event. */
  lemma Parent(es: seq<Event>, i: nat) returns (p: nat)
    requires i < |es| && Depth(es, i) > 0
    ensures IsOpenAt(es, p, i) && Depth(es, i) == Depth(es, p) + 1
  {
    DepthCountsOpenEvents(es, i);
    assert OpenAt(es, i) != {};
    var some :| some in OpenAt(es, i);
    assert some < i && IsOpenAt(es, some, i);
    p := LastOpen(es, i, i);
    DepthCountsOpenEvents(es, p);
    OpenUpToParent(es, p, i);
    assert p !in OpenAt(es, p);
  }

  lemma OpenUpToParent(es: seq<Event>, p: nat, i: nat)
    requires i < |es| && IsOpenAt(es, p, i) && forall j :: p < j < i ==> !IsOpenAt(es, j, i)
    ensures OpenAt(es, i) == OpenAt(es, p) + {p}
  {
    forall h: nat ensures h in OpenAt(es, i) <==> h in OpenAt(es, p) + {p} {
      if h < p {
        OpenIsTransitive(es, h, p, i);
      }
    }
  }

  /** In every row above the event there is one that is open at it. */
  lemma {:induction false} Ancestor(es: seq<Event>, i: nat, row: nat) returns (a: nat)
    requires i < |es| && row <= Depth(es, i)
    ensures a <= i && Depth(es, a) == row && (a == i || IsOpenAt(es, a, i))
    decreases i
  {
    a := i;
    if row < Depth(es, i) {
      var p := Parent(es, i);
      a := Ancestor(es, p, row);
      if a != p {
        OpenIsTransitive(es, a, p, i);
      }
    }
  }

  // ----- disjoint rows -----

  /** If events are nested or disjoint, one that shares time with a later one is open at it. */
  lemma OverlappingIsOpen(es: seq<Event>, i: nat, j: nat)
    requires IsSorted(es) && HavePositiveDurations(es) && AreNestedOrDisjoint(es)
    requires i < j < |es| && Overlap(es[i], es[j])
    ensures IsOpenAt(es, i, j)
  {
    forall k | i < k <= j ensures Outlasts(es[i], es[k]) {
      assert es[i].ts <= es[k].ts <= es[j].ts;
      assert IsNestedOrDisjoint(es[i], es[k]);
    }
  }

  /** Two events that cross make two bars of one row overlap. */
  lemma CrossingShows(es: seq<Event>, i: nat, j: nat) returns (a: nat, b: nat)
    requires IsSorted(es) && HavePositiveDurations(es)
    requires i < j < |es| && !IsNestedOrDisjoint(es[i], es[j])
    ensures a < b < |es| && Depth(es, a) == Depth(es, b) && Overlap(es[a], es[b])
  {
    assert es[i].ts <= es[j].ts < End(es[i]) < End(es[j]);
    if Depth(es, j) <= Depth(es, i) {
      a := Ancestor(es, i, Depth(es, j));
      b := j;
      if a != i {
        OpenEventsContain(es, a, i);
      }
    } else {
      a := i;
      b := Ancestor(es, j, Depth(es, i));
      assert !IsOpenAt(es, i, j);
      if b < i {
        assert IsOpenAt(es, b, i);
        OpenIsHigher(es, b, i);
      }
      assert es[i].ts <= es[b].ts <= es[j].ts;
    }
  }

  /** The rows of a thread are free of overlaps exactly when its events are nested or disjoint. */
  lemma RowsAreDisjointExactly(es: seq<Event>)
    requires IsSorted(es) && HavePositiveDurations(es)
    ensures RowsAreDisjoint(es) <==> AreNestedOrDisjoint(es)
  {
    if AreNestedOrDisjoint(es) {
      forall i, j | 0 <= i < j < |es| && Depth(es, i) == Depth(es, j) ensures !Overlap(es[i], es[j]) {
        if Overlap(es[i], es[j]) {
          OverlappingIsOpen(es, i, j);
          OpenIsHigher(es, i, j);
        }
      }
    } else {
      var i, j :| 0 <= i < j < |es| && !IsNestedOrDisjoint(es[i], es[j]);
      var a, b := CrossingShows(es, i, j);
    }
  }
}
