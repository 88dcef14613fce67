/** Merging one flag of the command line with its field in a configuration (the visitor of
    ReconcileFlagsAndConfig in server/config/config.go). Both sides are overwritten each time. */
module Reconcile {
  import opened Wrappers

  /** The elements of a slice are either strings or structs; what matters is which elements setting a
      slice to a text adds, none if the text is malformed, and the text of all its elements. */
  datatype SliceType = SliceType(added: string -> seq<string>, text: seq<string> -> string)

  /** The value of a flag, or of a field of the configuration. */
  datatype Value = Scalar(text: string) | Slice(items: seq<string>, elements: SliceType)

  function SplitAtCommas(s: string): (parts: seq<string>)
    ensures parts != []
  {
    if s == "" then [""]
    else
      var rest := SplitAtCommas(s[1..]);
      if s[0] == ',' then [""] + rest else [[s[0]] + rest[0]] + rest[1..]
  }

  function JoinWithCommas(items: seq<string>): string {
    if items == [] then "" else if |items| == 1 then items[0] else items[0] + "," + JoinWithCommas(items[1..])
  }

  lemma {:induction false} SplitThenJoin(s: string)
    ensures JoinWithCommas(SplitAtCommas(s)) == s
    ensures forall i :: 0 <= i < |SplitAtCommas(s)| ==> ',' !in SplitAtCommas(s)[i]
  {
    if s != "" {
      SplitThenJoin(s[1..]);
      var rest, parts := SplitAtCommas(s[1..]), SplitAtCommas(s);
      assert parts[1..] == if s[0] == ',' then rest else rest[1..];
      assert s == [s[0]] + s[1..];
      if s[0] != ',' && |rest| > 1 {
        var others := JoinWithCommas(rest[1..]);
        assert [s[0]] + (rest[0] + "," + others) == [s[0]] + rest[0] + "," + others;
      }
    }
  }

  /** Slices of strings. */
  const STRINGS := SliceType(SplitAtCommas, JoinWithCommas)

  /** flag.Value.String */
  function Text(v: Value): string {
    match v
    case Scalar(text) => text
    case Slice(items, elements) => elements.text(items)
  }

  /** flag.Value.Set: slices grow by what they are set to. The error for a malformed text is ignored. */
  function Set(v: Value, text: string): Value {
    match v
    case Scalar(_) => Scalar(text)
    case Slice(items, elements) => Slice(items + elements.added(text), elements)
  }

  // ----- one flag -----

  /** What the merge of one flag reads and writes: the global flag, the recorded length of the slice
      that the command line gave, and the field of the configuration. */
  datatype Entry = Entry(flag: Value, originalLen: Option<nat>, config: Value)

  /** What does not change about it. */
  datatype Origin = Origin(
    commandLine: Value,      // the flag before any merge
    defValue: string,        // its default
    setOnCommandLine: bool)

  /** The configuration file's part in it. */
  datatype Yaml = Yaml(value: Value, present: bool)

  predicate AreSlices(flag: Value, config: Value) {
    flag.Slice? && config.Slice?
  }

  /** Cutting off what earlier merges have added must not cut into a slice that is too short; two slices
      have elements of the same type. */
  ghost predicate CanMerge(e: Entry, reconciled: bool) {
    AreSlices(e.flag, e.config) ==>
      && e.flag.elements == e.config.elements
      && (e.originalLen.Some? ==>
          e.originalLen.value <= |e.flag.items| && (reconciled ==> e.originalLen.value <= |e.config.items|))
  }

  ghost function Merge(e: Entry, defValue: string, setOnCommandLine: bool, present: bool, reconciled: bool): Entry
    requires CanMerge(e, reconciled)
  {
    if AreSlices(e.flag, e.config) then
      var n := if e.originalLen.Some? then e.originalLen.value else |e.flag.items|;
      var flagItems := e.flag.items[|e.flag.items| - n..];
      var configItems :=
        if e.originalLen.Some? && reconciled then e.config.items[..|e.config.items| - n] else e.config.items;
      var both := Slice(configItems + flagItems, e.flag.elements);
      Entry(both, Some(n), both)
    else
      var flag := if setOnCommandLine then e.flag else Set(e.flag, defValue);
      if setOnCommandLine || !present then e.(flag := flag, config := Set(e.config, Text(flag)))
      else e.(flag := Set(flag, Text(e.config)))
  }

  ghost function MergeOf(o: Origin, y: Yaml, e: Entry, reconciled: bool): Entry
    requires CanMerge(e, reconciled)
  {
    Merge(e, o.defValue, o.setOnCommandLine, y.present, reconciled)
  }

  /** Both are scalars, or slices with elements of one type. */
  predicate SameKind(o: Origin, y: Yaml) {
    o.commandLine.Slice? <==> y.value.Slice?
  }

  /** Slices on both sides have elements of one type. */
  ghost predicate AreCompatible(o: Origin, y: Yaml) {
    AreSlices(o.commandLine, y.value) ==> o.commandLine.elements == y.value.elements
  }

  /** The entry before the first merge. */
  function Fresh(o: Origin, y: Yaml): Entry {
    Entry(o.commandLine, None, y.value)
  }

  // ----- what merges lead to -----

  /** The two values that a merge should leave. */
  datatype Outcome = Outcome(flag: Value, config: Value)

  function Expected(o: Origin, y: Yaml): Outcome {
    match (o.commandLine, y.value)
    case (Slice(own, elements), Slice(items, _)) =>
      var both := Slice(items + own, elements);
      Outcome(both, both)
    case (Scalar(_), Scalar(_)) =>
      var value := if o.setOnCommandLine then o.commandLine else if y.present then y.value else Scalar(o.defValue);
      Outcome(value, value)
    case (Scalar(_), Slice(_, _)) =>
      Outcome(
        if o.setOnCommandLine then o.commandLine else Scalar(if y.present then Text(y.value) else o.defValue),
        y.value)
    case (Slice(_, _), Scalar(_)) =>
      Outcome(o.commandLine, if !o.setOnCommandLine && y.present then y.value else Scalar(Text(o.commandLine)))
  }

  /** If only the field is a slice: no merge of this configuration adds anything to it. */
  predicate FieldStays(o: Origin, y: Yaml)
    requires y.value.Slice? && o.commandLine.Scalar?
  {
    || (!o.setOnCommandLine && y.present)
    || y.value.elements.added(if o.setOnCommandLine then o.commandLine.text else o.defValue) == []
  }

  /** If only the flag is a slice: no merge of this configuration adds anything to it. */
  predicate FlagStays(o: Origin, y: Yaml)
    requires o.commandLine.Slice? && y.value.Scalar?
  {
    || o.setOnCommandLine
    || (o.commandLine.elements.added(o.defValue) == []
        && (y.present ==> o.commandLine.elements.added(y.value.text) == []))
  }

  /** No slice is set to a text that has elements. */
  predicate NothingGrows(o: Origin, y: Yaml) {
    if SameKind(o, y) then true else if y.value.Slice? then FieldStays(o, y) else FlagStays(o, y)
  }

  /** A slice of strings grows whenever it is set. */
  lemma StringsGrowWhenSet(o: Origin, y: Yaml)
    requires o.commandLine.Slice? ==> o.commandLine.elements == STRINGS
    requires y.value.Slice? ==> y.value.elements == STRINGS
    ensures NothingGrows(o, y)
      <==> || SameKind(o, y)
           || (y.value.Slice? && !o.setOnCommandLine && y.present)
           || (o.commandLine.Slice? && o.setOnCommandLine)
  {
  }

  /** The global part of an entry after some merges or none, possibly with other configurations whose
      field is of this kind, if they add nothing to the flag. */
  ghost predicate IsReachedFlag(o: Origin, fieldIsSlice: bool, flag: Value, originalLen: Option<nat>, grows: bool) {
    match o.commandLine
    case Slice(items, elements) =>
      && flag.Slice? && flag.elements == elements
      && (if fieldIsSlice then
            (flag == o.commandLine && originalLen == None)
            || (originalLen == Some(|items|) && |items| <= |flag.items|
              && flag.items[|flag.items| - |items|..] == items)
          else grows || flag == o.commandLine)
    case Scalar(_) => flag.Scalar? && (o.setOnCommandLine ==> flag == o.commandLine)
  }

  /** The field as it was read, and after a merge as it should be, unless merges make it grow. */
  ghost predicate IsReachedField(o: Origin, y: Yaml, config: Value, reconciled: bool, grows: bool) {
    && (config.Slice? <==> y.value.Slice?)
    && (config.Slice? ==> config.elements == y.value.elements)
    && (grows || config == if reconciled then Expected(o, y).config else y.value)
  }

  ghost predicate IsReached(o: Origin, y: Yaml, e: Entry, reconciled: bool, grows: bool) {
    && AreCompatible(o, y)
    && IsReachedFlag(o, y.value.Slice?, e.flag, e.originalLen, grows)
    && IsReachedField(o, y, e.config, reconciled, grows)
    && (reconciled && AreSlices(o.commandLine, y.value) ==> e.originalLen.Some?)
  }

  /** Slices on both sides. */
  lemma SlicesReachExpected(o: Origin, y: Yaml, e: Entry, reconciled: bool)
    requires AreSlices(o.commandLine, y.value) && IsReached(o, y, e, reconciled, false)
    ensures CanMerge(e, reconciled)
    ensures var r := MergeOf(o, y, e, reconciled);
      IsReached(o, y, r, true, false) && r.flag == Expected(o, y).flag == r.config
  {
    var items, own := y.value.items + o.commandLine.items, y.value.items;
    assert items[..|items| - |o.commandLine.items|] == own;
    assert items[|own|..] == o.commandLine.items;
    assert o.commandLine.items[0..] == o.commandLine.items;
  }

  /** At most one slice. */
  lemma OthersReachExpected(o: Origin, y: Yaml, e: Entry, reconciled: bool, grows: bool)
    requires !AreSlices(o.commandLine, y.value) && IsReached(o, y, e, reconciled, grows)
    requires if grows then !SameKind(o, y) else NothingGrows(o, y)
    ensures CanMerge(e, reconciled)
    ensures var r := MergeOf(o, y, e, reconciled);
      && IsReached(o, y, r, true, grows)
      && (!grows ==> r.flag == Expected(o, y).flag && r.config == Expected(o, y).config)
      && (r.flag == r.config <==> SameKind(o, y))
  {
    if e.flag.Slice? {
      assert e.flag.items + [] == e.flag.items;
    } else if e.config.Slice? {
      assert e.config.items + [] == e.config.items;
    }
  }

  /** Merging, for the first time or again, after any merges with other configurations: it is possible,
      and unless slices grow, flag and field become what file, default and command line determine. They
      are then equal exactly if they are of the same kind. */
  lemma MergeReachesExpected(o: Origin, y: Yaml, e: Entry, reconciled: bool, grows: bool)
    requires IsReached(o, y, e, reconciled, grows)
    requires if grows then !SameKind(o, y) else NothingGrows(o, y)
    ensures CanMerge(e, reconciled)
    ensures var r := MergeOf(o, y, e, reconciled);
      && IsReached(o, y, r, true, grows)
      && (!grows ==> r.flag == Expected(o, y).flag && r.config == Expected(o, y).config)
      && (r.flag == r.config <==> SameKind(o, y))
  {
    if AreSlices(o.commandLine, y.value) {
      SlicesReachExpected(o, y, e, reconciled);
    } else {
      OthersReachExpected(o, y, e, reconciled, grows);
    }
  }

  /** What the merge of one configuration makes of a flag is right for another one. */
  lemma FlagIsShared(o: Origin, y: Yaml, z: Yaml, r: Entry, grows: bool, e: Entry, reconciled: bool, alsoGrows: bool)
    requires IsReached(o, y, r, true, grows) && IsReached(o, z, e, reconciled, alsoGrows)
    requires y.value.Slice? <==> z.value.Slice?
    requires o.commandLine.Slice? ==> grows == alsoGrows
    ensures IsReached(o, z, r.(config := e.config), reconciled, alsoGrows)
  {
  }

  /** Merging the same configuration twice. */
  ghost function Twice(o: Origin, y: Yaml): Entry
    requires CanMerge(Fresh(o, y), false) && CanMerge(MergeOf(o, y, Fresh(o, y), false), true)
  {
    MergeOf(o, y, MergeOf(o, y, Fresh(o, y), false), true)
  }

  /** Merging again changes nothing, exactly if the flag and the field are both slices or both
      scalars, or the slice among them is only read or set to texts without elements. */
  lemma MergeIsIdempotentExactly(o: Origin, y: Yaml)
    requires AreCompatible(o, y)
    ensures CanMerge(Fresh(o, y), false) && CanMerge(MergeOf(o, y, Fresh(o, y), false), true)
    ensures Twice(o, y) == MergeOf(o, y, Fresh(o, y), false) <==> NothingGrows(o, y)
  {
    var once := MergeOf(o, y, Fresh(o, y), false);
    if NothingGrows(o, y) {
      MergeReachesExpected(o, y, Fresh(o, y), false, false);
      MergeReachesExpected(o, y, once, true, false);
    } else if y.value.Slice? {
      assert |Twice(o, y).config.items| > |once.config.items|;
    } else {
      assert |Twice(o, y).flag.items| > |once.flag.items|;
    }
  }
}
