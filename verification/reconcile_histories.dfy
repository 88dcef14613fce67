/** Merging whole configurations again and again (ReconcileFlagsAndConfig in server/config/config.go).
    The flags are global and shared by every configurator. */
module ReconcileHistories {
  import opened Reconcile
  import opened Wrappers

  datatype Config = Config(fields: map<string, Value>, present: set<string>, reconciled: bool)

  /** The global variables, and the configurators that share them. */
  datatype World = World(flags: map<string, Value>, originalSliceLens: map<string, nat>, configs: map<nat, Config>)

  /** The defaults of the flags and which of them the command line set. */
  datatype CommandLine = CommandLine(defaults: map<string, string>, setFlags: set<string>)

  /** The flags as the command line left them, and the configurations as they were read. */
  datatype Start = Start(cl: CommandLine, flags: map<string, Value>, configs: map<nat, Config>)

  /** Every field has a flag, slices on both sides have elements of one type, and a field is of the same
      type in all configurations. */
  ghost predicate IsStart(s: Start) {
    && s.flags.Keys <= s.cl.defaults.Keys
    && (forall id :: id in s.configs ==> !s.configs[id].reconciled && s.configs[id].fields.Keys <= s.flags.Keys)
    && (forall id, name :: id in s.configs && name in s.configs[id].fields ==>
        AreCompatible(OriginOf(s, name), YamlOf(s, id, name)))
    && (forall id, other, name ::
        id in s.configs && name in s.configs[id].fields && other in s.configs && name in s.configs[other].fields ==>
          (s.configs[id].fields[name].Slice? <==> s.configs[other].fields[name].Slice?))
  }

  function LenOf(lens: map<string, nat>, name: string): Option<nat> {
    if name in lens then Some(lens[name]) else None
  }

  predicate HasEntry(w: World, id: nat, name: string) {
    name in w.flags && id in w.configs && name in w.configs[id].fields
  }

  function EntryOf(w: World, id: nat, name: string): Entry
    requires HasEntry(w, id, name)
  {
    Entry(w.flags[name], LenOf(w.originalSliceLens, name), w.configs[id].fields[name])
  }

  function OriginOf(s: Start, name: string): Origin
    requires name in s.flags && name in s.cl.defaults
  {
    Origin(s.flags[name], s.cl.defaults[name], name in s.cl.setFlags)
  }

  function YamlOf(s: Start, id: nat, name: string): Yaml
    requires id in s.configs && name in s.configs[id].fields
  {
    Yaml(s.configs[id].fields[name], name in s.configs[id].present)
  }

  predicate IsField(s: Start, id: nat, name: string) {
    id in s.configs && name in s.configs[id].fields && name in s.flags && name in s.cl.defaults
  }

  /** Nothing that can be merged makes this flag or this field grow. A flag that is a slice is shared:
      no configuration may add to it. */
  ghost predicate StaysAsItIs(s: Start, id: nat, name: string)
    requires IsField(s, id, name)
  {
    && NothingGrows(OriginOf(s, name), YamlOf(s, id, name))
    && (s.flags[name].Slice? ==>
        forall other :: IsField(s, other, name) ==> NothingGrows(OriginOf(s, name), YamlOf(s, other, name)))
  }

  // ----- one merge -----

  /** The merge of one name. */
  ghost function MergedEntry(cl: CommandLine, w: World, id: nat, name: string): Entry
    requires HasEntry(w, id, name) && name in cl.defaults && CanMerge(EntryOf(w, id, name), w.configs[id].reconciled)
  {
    Merge(
      EntryOf(w, id, name), cl.defaults[name], name in cl.setFlags,
      name in w.configs[id].present, w.configs[id].reconciled)
  }

  /** Every field of the configuration has a flag with a default, and can be merged as things are. */
  ghost predicate CanReconcile(cl: CommandLine, w: World, id: nat) {
    && id in w.configs
    && forall name :: name in w.configs[id].fields ==>
      HasEntry(w, id, name) && name in cl.defaults && CanMerge(EntryOf(w, id, name), w.configs[id].reconciled)
  }

  /** The world in which one configuration has been merged. */
  ghost predicate IsAfter(cl: CommandLine, w: World, id: nat, t: World)
    requires CanReconcile(cl, w, id)
  {
    && t.flags.Keys == w.flags.Keys
    && t.configs.Keys == w.configs.Keys
    && (forall other :: other in w.configs && other != id ==> t.configs[other] == w.configs[other])
    && t.configs[id].present == w.configs[id].present && t.configs[id].reconciled
    && t.configs[id].fields.Keys == w.configs[id].fields.Keys
    && (forall name :: name in w.configs[id].fields ==> EntryOf(t, id, name) == MergedEntry(cl, w, id, name))
    && (forall name :: name in w.flags && name !in w.configs[id].fields ==>
        t.flags[name] == w.flags[name] && LenOf(t.originalSliceLens, name) == LenOf(w.originalSliceLens, name))
  }

  // ----- what merges lead to -----

  /** A field and its flag, after any merges. */
  ghost predicate IsRightEntry(s: Start, w: World, id: nat, name: string) {
    && IsField(s, id, name) && HasEntry(w, id, name)
    && w.configs[id].present == s.configs[id].present
    && IsReached(
      OriginOf(s, name), YamlOf(s, id, name), EntryOf(w, id, name), w.configs[id].reconciled, !StaysAsItIs(s, id, name))
  }

  /** What holds after any merges. */
  ghost predicate IsReconciled(s: Start, w: World) {
    && IsStart(s)
    && w.configs.Keys == s.configs.Keys
    && (forall id :: id in s.configs ==> w.configs[id].fields.Keys == s.configs[id].fields.Keys)
    && (forall id, name :: id in s.configs && name in s.configs[id].fields ==> IsRightEntry(s, w, id, name))
  }

  lemma StartIsReconciled(s: Start)
    requires IsStart(s)
    ensures IsReconciled(s, World(s.flags, map[], s.configs))
  {
  }

  /** Flags and fields of one kind never grow. */
  lemma SameKindStays(s: Start, id: nat, name: string)
    requires IsStart(s) && IsField(s, id, name) && SameKind(OriginOf(s, name), YamlOf(s, id, name))
    ensures StaysAsItIs(s, id, name)
  {
    forall other | IsField(s, other, name) ensures NothingGrows(OriginOf(s, name), YamlOf(s, other, name)) {
      assert s.configs[id].fields[name].Slice? <==> s.configs[other].fields[name].Slice?;
    }
  }

  /** Merging one name. */
  lemma MergeOne(s: Start, w: World, id: nat, name: string)
    requires IsStart(s) && IsRightEntry(s, w, id, name)
    ensures name in s.cl.defaults && CanMerge(EntryOf(w, id, name), w.configs[id].reconciled)
    ensures var o, y, r := OriginOf(s, name), YamlOf(s, id, name), MergedEntry(s.cl, w, id, name);
      && IsReached(o, y, r, true, !StaysAsItIs(s, id, name))
      && (StaysAsItIs(s, id, name) ==> r.flag == Expected(o, y).flag && r.config == Expected(o, y).config)
      && (r.flag == r.config <==> SameKind(o, y))
  {
    var o, y := OriginOf(s, name), YamlOf(s, id, name);
    if SameKind(o, y) {
      SameKindStays(s, id, name);
    }
    MergeReachesExpected(o, y, EntryOf(w, id, name), w.configs[id].reconciled, !StaysAsItIs(s, id, name));
  }

  /** A world that merges have led to allows any further merge. */
  lemma ReconciledCanReconcile(s: Start, w: World, id: nat)
    requires IsReconciled(s, w) && id in s.configs
    ensures CanReconcile(s.cl, w, id)
  {
    forall name | name in w.configs[id].fields
      ensures HasEntry(w, id, name) && name in s.cl.defaults && CanMerge(EntryOf(w, id, name), w.configs[id].reconciled)
    {
      assert IsRightEntry(s, w, id, name);
      MergeOne(s, w, id, name);
    }
  }

  /** The flag is shared: what the merge of one configuration makes of it is right for the others. */
  lemma SharedFlagStaysRight(s: Start, w: World, id: nat, t: World, other: nat, name: string)
    requires IsReconciled(s, w) && CanReconcile(s.cl, w, id) && IsAfter(s.cl, w, id, t)
    requires IsField(s, id, name) && IsField(s, other, name) && other != id
    ensures IsRightEntry(s, t, other, name)
  {
    assert IsRightEntry(s, w, id, name) && IsRightEntry(s, w, other, name);
    MergeOne(s, w, id, name);
    SlicesStayTogether(s, id, other, name);
    var e, r := EntryOf(w, other, name), EntryOf(t, id, name);
    assert r == MergedEntry(s.cl, w, id, name) && EntryOf(t, other, name) == r.(config := e.config);
    FlagIsShared(
      OriginOf(s, name), YamlOf(s, id, name), YamlOf(s, other, name), r, !StaysAsItIs(s, id, name), e,
      w.configs[other].reconciled, !StaysAsItIs(s, other, name));
  }

  lemma SlicesStayTogether(s: Start, id: nat, other: nat, name: string)
    requires IsStart(s) && IsField(s, id, name) && IsField(s, other, name)
    ensures s.flags[name].Slice? ==> (StaysAsItIs(s, id, name) <==> StaysAsItIs(s, other, name))
    ensures s.configs[id].fields[name].Slice? <==> s.configs[other].fields[name].Slice?
  {
  }

  /** Merging one more configuration. */
  lemma ReconcileOnce(s: Start, w: World, id: nat, t: World)
    requires IsReconciled(s, w) && id in s.configs && CanReconcile(s.cl, w, id) && IsAfter(s.cl, w, id, t)
    ensures IsReconciled(s, t)
  {
    forall other, name | other in s.configs && name in s.configs[other].fields
      ensures IsRightEntry(s, t, other, name)
    {
      assert IsRightEntry(s, w, other, name);
      if other == id {
        MergeOne(s, w, id, name);
        assert EntryOf(t, id, name) == MergedEntry(s.cl, w, id, name);
      } else if name in s.configs[id].fields {
        SharedFlagStaysRight(s, w, id, t, other, name);
      } else {
        assert EntryOf(t, other, name) == EntryOf(w, other, name);
      }
    }
  }

  // ----- histories -----

  /** A history of merges: each world follows from the one before. */
  ghost predicate IsHistory(cl: CommandLine, w: World, merges: seq<(nat, World)>)
    decreases merges
  {
    merges == []
    || (CanReconcile(cl, w, merges[0].0) && IsAfter(cl, w, merges[0].0, merges[0].1)
        && IsHistory(cl, merges[0].1, merges[1..]))
  }

  lemma {:induction false} HistoriesReconcile(s: Start, w: World, merges: seq<(nat, World)>)
    requires IsReconciled(s, w) && IsHistory(s.cl, w, merges)
    ensures forall i :: 0 <= i < |merges| ==> IsReconciled(s, merges[i].1)
    decreases merges
  {
    if merges != [] {
      var (id, t) := merges[0];
      ReconcileOnce(s, w, id, t);
      HistoriesReconcile(s, t, merges[1..]);
      forall i | 0 <= i < |merges| ensures IsReconciled(s, merges[i].1) {
        if i > 0 {
          assert merges[i] == merges[1..][i - 1];
        }
      }
    }
  }

  /** The world before the last merge, and that one. */
  lemma {:induction false} LastMerge(cl: CommandLine, w: World, merges: seq<(nat, World)>) returns (before: World)
    requires IsHistory(cl, w, merges) && merges != []
    ensures before == (if |merges| == 1 then w else merges[|merges| - 2].1)
    ensures var (id, t) := merges[|merges| - 1]; CanReconcile(cl, before, id) && IsAfter(cl, before, id, t)
    decreases merges
  {
    before := w;
    if |merges| > 1 {
      before := LastMerge(cl, merges[0].1, merges[1..]);
    }
  }

  function StartWorld(s: Start): World {
    World(s.flags, map[], s.configs)
  }

  /** A history that begins with the start and ends with this configuration. */
  ghost predicate LeadsTo(s: Start, merges: seq<(nat, World)>, id: nat) {
    merges != [] && IsHistory(s.cl, StartWorld(s), merges) && merges[|merges| - 1].0 == id
  }

  function LastWorld(merges: seq<(nat, World)>): World
    requires merges != []
  {
    merges[|merges| - 1].1
  }

  /** Whatever has been merged before, in any order and any number of times: after merging a
      configuration, each of its flags equals its field exactly if they are of the same kind; and unless
      they grow, both depend only on its file, the defaults and the command line. */
  lemma ReconcilingForgetsHistory(s: Start, merges: seq<(nat, World)>, id: nat, name: string)
    requires IsStart(s) && LeadsTo(s, merges, id) && IsField(s, id, name)
    ensures var t, o, y := LastWorld(merges), OriginOf(s, name), YamlOf(s, id, name);
      && HasEntry(t, id, name)
      && (t.flags[name] == t.configs[id].fields[name] <==> SameKind(o, y))
      && (StaysAsItIs(s, id, name) ==>
          t.flags[name] == Expected(o, y).flag && t.configs[id].fields[name] == Expected(o, y).config)
  {
    StartIsReconciled(s);
    HistoriesReconcile(s, StartWorld(s), merges);
    var before := LastMerge(s.cl, StartWorld(s), merges);
    assert IsRightEntry(s, before, id, name);
    MergeOne(s, before, id, name);
    assert EntryOf(LastWorld(merges), id, name) == MergedEntry(s.cl, before, id, name);
  }

  // ----- exactly when -----

  /** The merge of one configuration as a function. */
  ghost function Reconciled(cl: CommandLine, w: World, id: nat): World
    requires CanReconcile(cl, w, id)
  {
    var c := w.configs[id];
    var merged := map name | name in c.fields :: MergedEntry(cl, w, id, name);
    var kept := map name | name in w.originalSliceLens && name !in c.fields :: w.originalSliceLens[name];
    var recorded := map name | name in c.fields && merged[name].originalLen.Some? :: merged[name].originalLen.value;
    World(
      map name | name in w.flags :: if name in c.fields then merged[name].flag else w.flags[name],
      kept + recorded,
      w.configs[id := Config(map name | name in c.fields :: merged[name].config, c.present, true)])
  }

  lemma ReconciledIsAfter(cl: CommandLine, w: World, id: nat)
    requires CanReconcile(cl, w, id)
    ensures IsAfter(cl, w, id, Reconciled(cl, w, id))
  {
    var t := Reconciled(cl, w, id);
    forall name | name in w.configs[id].fields ensures EntryOf(t, id, name) == MergedEntry(cl, w, id, name) {
      assert HasEntry(w, id, name);
    }
  }

  /** One merge, and two. */
  lemma ShortHistories(s: Start, first: nat, id: nat) returns (one: seq<(nat, World)>, two: seq<(nat, World)>)
    requires IsStart(s) && first in s.configs && id in s.configs
    ensures LeadsTo(s, one, first) && |one| == 1
    ensures LeadsTo(s, two, id) && |two| == 2 && two[0] == one[0]
  {
    var w := StartWorld(s);
    StartIsReconciled(s);
    ReconciledCanReconcile(s, w, first);
    var t := Reconciled(s.cl, w, first);
    ReconciledIsAfter(s.cl, w, first);
    ReconcileOnce(s, w, first, t);
    ReconciledCanReconcile(s, t, id);
    var u := Reconciled(s.cl, t, id);
    ReconciledIsAfter(s.cl, t, id);
    one, two := [(first, t)], [(first, t), (id, u)];
    assert two[1..] == [(id, u)];
  }

  /** After any two histories that end with a configuration, this field and its flag are the same. */
  ghost predicate IsDetermined(s: Start, id: nat, name: string)
    requires IsStart(s) && IsField(s, id, name)
  {
    forall a, b :: LeadsTo(s, a, id) && LeadsTo(s, b, id) ==>
      && HasEntry(LastWorld(a), id, name) && HasEntry(LastWorld(b), id, name)
      && LastWorld(a).flags[name] == LastWorld(b).flags[name]
      && LastWorld(a).configs[id].fields[name] == LastWorld(b).configs[id].fields[name]
  }

  /** What a history of one merge leads to, and what one of two does. */
  lemma EntriesAfterOne(s: Start, one: seq<(nat, World)>, id: nat, name: string)
    requires IsStart(s) && LeadsTo(s, one, id) && |one| == 1 && IsField(s, id, name)
    ensures var o, y, t := OriginOf(s, name), YamlOf(s, id, name), one[0].1;
      && CanMerge(Fresh(o, y), false)
      && HasEntry(t, id, name) && EntryOf(t, id, name) == MergeOf(o, y, Fresh(o, y), false)
      && t.configs[id].present == s.configs[id].present && t.configs[id].reconciled
      && forall other :: other in s.configs && other != id ==>
        other in t.configs && t.configs[other] == s.configs[other]
  {
    assert EntryOf(one[0].1, id, name) == MergedEntry(s.cl, StartWorld(s), id, name);
  }

  lemma EntriesAfterTwo(s: Start, two: seq<(nat, World)>, id: nat, name: string)
    requires IsStart(s) && LeadsTo(s, two, id) && |two| == 2 && IsField(s, id, name)
    ensures var w, t := two[0].1, two[1].1;
      && HasEntry(w, id, name) && CanMerge(EntryOf(w, id, name), w.configs[id].reconciled)
      && HasEntry(t, id, name) && EntryOf(t, id, name) == MergedEntry(s.cl, w, id, name)
  {
    var before := LastMerge(s.cl, StartWorld(s), two);
    StartIsReconciled(s);
    HistoriesReconcile(s, StartWorld(s), two);
    assert IsReconciled(s, before);
  }

  lemma EntryAfterTwice(s: Start, one: seq<(nat, World)>, two: seq<(nat, World)>, id: nat, name: string)
    requires IsStart(s) && IsField(s, id, name) && LeadsTo(s, one, id) && |one| == 1
    requires LeadsTo(s, two, id) && |two| == 2 && two[0] == one[0]
    ensures var o, y := OriginOf(s, name), YamlOf(s, id, name);
      && CanMerge(Fresh(o, y), false) && CanMerge(MergeOf(o, y, Fresh(o, y), false), true)
      && HasEntry(two[1].1, id, name) && EntryOf(two[1].1, id, name) == Twice(o, y)
  {
    EntriesAfterOne(s, one, id, name);
    EntriesAfterTwo(s, two, id, name);
  }

  /** Two histories that leave different entries, for flags and fields of different kinds. */
  lemma TellsApart(s: Start, a: seq<(nat, World)>, b: seq<(nat, World)>, id: nat, name: string)
    requires IsStart(s) && IsField(s, id, name) && LeadsTo(s, a, id) && LeadsTo(s, b, id)
    requires HasEntry(LastWorld(a), id, name) && HasEntry(LastWorld(b), id, name)
    requires EntryOf(LastWorld(a), id, name).flag != EntryOf(LastWorld(b), id, name).flag
      || EntryOf(LastWorld(a), id, name).config != EntryOf(LastWorld(b), id, name).config
    ensures !IsDetermined(s, id, name)
  {
  }

  /** What grows tells how often it has been merged. */
  lemma GrowingShowsTwice(s: Start, id: nat, name: string)
    requires IsStart(s) && IsField(s, id, name) && !NothingGrows(OriginOf(s, name), YamlOf(s, id, name))
    ensures !IsDetermined(s, id, name)
  {
    var one, two := ShortHistories(s, id, id);
    EntriesAfterOne(s, one, id, name);
    EntryAfterTwice(s, one, two, id, name);
    MergeIsIdempotentExactly(OriginOf(s, name), YamlOf(s, id, name));
    TellsApart(s, one, two, id, name);
  }

  /** And a flag that another configuration adds to, whether that has been merged. */
  lemma GrowingShowsOther(s: Start, other: nat, id: nat, name: string)
    requires IsStart(s) && IsField(s, id, name) && IsField(s, other, name) && s.flags[name].Slice? && id != other
    requires !NothingGrows(OriginOf(s, name), YamlOf(s, other, name))
    requires NothingGrows(OriginOf(s, name), YamlOf(s, id, name))
    ensures !IsDetermined(s, id, name)
  {
    assert s.configs[id].fields[name].Slice? <==> s.configs[other].fields[name].Slice?;
    var one, _ := ShortHistories(s, id, id);
    var first, two := ShortHistories(s, other, id);
    EntriesAfterOne(s, one, id, name);
    EntriesAfterOne(s, first, other, name);
    EntriesAfterTwo(s, two, id, name);
    assert |LastWorld(two).flags[name].items| > |LastWorld(one).flags[name].items|;
  }

  /** The last configuration, the defaults and the command line determine a flag and its field exactly if
      nothing that can be merged makes them grow. */
  lemma HistoryIsForgottenExactly(s: Start, id: nat, name: string)
    requires IsStart(s) && IsField(s, id, name)
    ensures IsDetermined(s, id, name) <==> StaysAsItIs(s, id, name)
  {
    if StaysAsItIs(s, id, name) {
      forall a, b | LeadsTo(s, a, id) && LeadsTo(s, b, id)
        ensures HasEntry(LastWorld(a), id, name) && HasEntry(LastWorld(b), id, name)
        ensures LastWorld(a).flags[name] == LastWorld(b).flags[name]
        ensures LastWorld(a).configs[id].fields[name] == LastWorld(b).configs[id].fields[name]
      {
        ReconcilingForgetsHistory(s, a, id, name);
        ReconcilingForgetsHistory(s, b, id, name);
      }
    } else if !NothingGrows(OriginOf(s, name), YamlOf(s, id, name)) {
      GrowingShowsTwice(s, id, name);
    } else {
      var other :| IsField(s, other, name) && !NothingGrows(OriginOf(s, name), YamlOf(s, other, name));
      GrowingShowsOther(s, other, id, name);
    }
  }
}
