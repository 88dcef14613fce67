/** Why styles may be treated as values although style.color appends to a slice whose backing
    array older styles share (server/terminal/style.go). */
module StyleStorage {
  import opened Bytes
  import opened Styles

  /** A slice that starts at the beginning of its backing array; its capacity is the array's length. */
  datatype Slice = Slice(backing: array?<seq<Byte>>, len: nat)

  const NIL_SLICE := Slice(null, 0)

  datatype StoredStyle = StoredStyle(colors: Slice, meta: StyleMeta)

  /** The empty style has no backing array, so appending to it always allocates one. */
  const STORED_EMPTY_STYLE := StoredStyle(NIL_SLICE, NO_META)

  predicate IsInBounds(s: Slice) {
    s.len <= if s.backing == null then 0 else s.backing.Length
  }

  function Elements(s: Slice): seq<seq<Byte>>
    requires IsInBounds(s)
    reads s.backing
  {
    if s.backing == null then [] else s.backing[..s.len]
  }

  /** What a stored style means now. */
  function Value(s: StoredStyle): Style
    requires IsInBounds(s.colors)
    reads s.colors.backing
  {
    Style(Elements(s.colors), s.meta)
  }

  /** The built-in append: in place if the capacity suffices, else in a new and larger array. */
  method AppendSlice(s: Slice, more: seq<seq<Byte>>) returns (r: Slice)
    requires IsInBounds(s)
    modifies s.backing
    ensures IsInBounds(r)
    ensures Elements(r) == old(Elements(s)) + more
    ensures r.backing != s.backing ==> r.backing != null && fresh(r.backing)
    ensures r.backing == s.backing ==> r.len >= s.len
    ensures s.backing != null ==> forall i :: 0 <= i < s.len ==> s.backing[i] == old(s.backing[i])
  {
    var capacity := if s.backing == null then 0 else s.backing.Length;
    var needed := s.len + |more|;
    var backing := s.backing;
    if capacity < needed {
      var spare: nat :| spare >= 0;
      var grown := new seq<Byte>[needed + spare](_ => []);
      for i := 0 to s.len
        invariant forall k :: 0 <= k < i ==> grown[k] == s.backing[k]
        invariant s.backing != null ==> s.backing[..] == old(s.backing[..])
      {
        grown[i] := s.backing[i];
      }
      backing := grown;
    }
    for i := 0 to |more|
      invariant backing != null || |more| == 0
      invariant backing != null ==> needed <= backing.Length
      invariant backing != null ==> forall k :: 0 <= k < s.len ==> backing[k] == old(Elements(s)[k])
      invariant backing != null ==> forall k :: 0 <= k < i ==> backing[s.len + k] == more[k]
      invariant s.backing != null ==> forall k :: 0 <= k < s.len ==> s.backing[k] == old(s.backing[k])
    {
      backing[s.len + i] := more[i];
    }
    r := Slice(backing, needed);
  }

  /** The current style of a screen and every style that a cell may still refer to. */
  class Palette {
    var current: StoredStyle
    ghost var live: set<StoredStyle>

    /** Among the styles that share the current backing array, the current one is the longest: so
        what append overwrites, no other style shows. */
    ghost predicate Valid()
      reads this
    {
      && current in live
      && (forall s :: s in live ==> IsInBounds(s.colors))
      && (forall s :: s in live && s.colors.backing == current.colors.backing ==> s.colors.len <= current.colors.len)
    }

    constructor ()
      ensures Valid() && Value(current) == EMPTY_STYLE
    {
      current := STORED_EMPTY_STYLE;
      live := {STORED_EMPTY_STYLE};
    }

    /** screen.color: the new style is the one that the value semantics says, and every style in
        use keeps its meaning. */
    method Color(codes: seq<seq<Byte>>)
      requires Valid()
      modifies this, current.colors.backing
      ensures Valid() && live == old(live) + {current}
      ensures Value(current) == Styles.Color(old(Value(current)), codes)
      ensures forall s :: s in old(live) ==> Value(s) == old(Value(s))
    {
      if |codes| == 1 && (codes[0] == RESET_CODE || codes[0] == []) {
        current := STORED_EMPTY_STYLE;
        live := live + {current};
        return;
      }
      var colors := AppendSlice(current.colors, codes);
      var appended: seq<seq<Byte>> := if colors.backing == null then [] else colors.backing[..colors.len];
      var pen := ColorFold(Pen(Style(appended, current.meta), ColorNormal), codes);
      FoldStoresNothingNew(Pen(Style(appended, current.meta), ColorNormal), codes);
      // A zero in the list starts from a new, empty style.
      var kept := if pen.style.colors == appended then colors else NIL_SLICE;
      current := StoredStyle(kept, pen.style.meta);
      live := live + {current};
    }
  }
}
