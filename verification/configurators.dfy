/** The flags of the command line and the configurators as objects (server/config/config.go). */
module Configurators {
  import opened Reconcile
  import opened ReconcileHistories

  /** The default flag set and the variables that go with it. */
  class FlagRegistry {
    const cl: CommandLine
    var values: map<string, Value>
    var originalSliceLens: map<string, nat>

    constructor (cl: CommandLine, values: map<string, Value>)
      ensures this.cl == cl && this.values == values && originalSliceLens == map[]
    {
      this.cl, this.values, originalSliceLens := cl, values, map[];
    }
  }

  class Configurator {
    const presenceMap: set<string>
    var gc: map<string, Value>
    var reconciled: bool

    constructor (gc: map<string, Value>, presenceMap: set<string>)
      ensures this.gc == gc && this.presenceMap == presenceMap && !reconciled
    {
      this.gc, this.presenceMap, reconciled := gc, presenceMap, false;
    }

    /** The registry and this configurator as a world with a single configuration. */
    ghost function View(flags: FlagRegistry): World
      reads this, flags
    {
      World(flags.values, flags.originalSliceLens, map[0 := Config(gc, presenceMap, reconciled)])
    }

    /** The same in terms of worlds: what the method promises is one merge of a history. */
    twostate lemma MergeIsStep(flags: FlagRegistry)
      requires old(IsReady(flags))
      requires gc.Keys == old(gc.Keys) && flags.values.Keys == old(flags.values.Keys) && reconciled
      requires forall name :: name in gc ==> EntryIn(flags, name) == old(MergedIn(flags, name))
      requires forall name :: name in flags.values && name !in gc ==>
        (flags.values[name] == old(flags.values[name])
         && LenOf(flags.originalSliceLens, name) == old(LenOf(flags.originalSliceLens, name)))
      ensures CanReconcile(flags.cl, old(View(flags)), 0) && IsAfter(flags.cl, old(View(flags)), 0, View(flags))
    {
      var w, t := old(View(flags)), View(flags);
      forall name | name in w.configs[0].fields
        ensures HasEntry(w, 0, name) && CanMerge(EntryOf(w, 0, name), w.configs[0].reconciled)
        ensures EntryOf(t, 0, name) == MergedEntry(flags.cl, w, 0, name)
      {
        assert EntryIn(flags, name) == old(MergedIn(flags, name));
        assert EntryOf(w, 0, name) == old(EntryIn(flags, name));
      }
    }

    function EntryIn(flags: FlagRegistry, name: string): Entry
      requires name in gc && name in flags.values
      reads this, flags
    {
      Entry(flags.values[name], LenOf(flags.originalSliceLens, name), gc[name])
    }

    /** What merging this name now would give. */
    ghost function MergedIn(flags: FlagRegistry, name: string): Entry
      requires name in gc && name in flags.values && name in flags.cl.defaults
      requires CanMerge(EntryIn(flags, name), reconciled)
      reads this, flags
    {
      Merge(EntryIn(flags, name), flags.cl.defaults[name], name in flags.cl.setFlags, name in presenceMap, reconciled)
    }

    /** Every field has a flag with a default, and can be merged. */
    ghost predicate IsReady(flags: FlagRegistry)
      reads this, flags
    {
      && gc.Keys <= flags.values.Keys && gc.Keys <= flags.cl.defaults.Keys
      && forall name :: name in gc ==> CanMerge(EntryIn(flags, name), reconciled)
    }

    method ReconcileFlagsAndConfig(flags: FlagRegistry)
      requires IsReady(flags)
      modifies this, flags
      ensures gc.Keys == old(gc.Keys) && flags.values.Keys == old(flags.values.Keys) && reconciled
      ensures forall name :: name in gc ==> EntryIn(flags, name) == old(MergedIn(flags, name))
      ensures forall name :: name in flags.values && name !in gc ==>
        (flags.values[name] == old(flags.values[name])
         && LenOf(flags.originalSliceLens, name) == old(LenOf(flags.originalSliceLens, name)))
    {
      var toVisit := gc.Keys;
      while toVisit != {}
        invariant toVisit <= gc.Keys == old(gc.Keys) && flags.values.Keys == old(flags.values.Keys)
        invariant reconciled == old(reconciled)
        invariant forall name :: name in gc && name in toVisit ==> EntryIn(flags, name) == old(EntryIn(flags, name))
        invariant forall name :: name in gc && name !in toVisit ==> EntryIn(flags, name) == old(MergedIn(flags, name))
        invariant forall name :: name in flags.values && name !in gc ==>
          (flags.values[name] == old(flags.values[name])
           && LenOf(flags.originalSliceLens, name) == old(LenOf(flags.originalSliceLens, name)))
        decreases toVisit
      {
        var name :| name in toVisit;
        MergeFlag(flags, name);
        toVisit := toVisit - {name};
      }
      reconciled := true;
    }

    /** The visit of one flag. */
    method MergeFlag(flags: FlagRegistry, name: string)
      requires name in gc && name in flags.values && name in flags.cl.defaults
      requires CanMerge(EntryIn(flags, name), reconciled)
      modifies this`gc, flags
      ensures gc.Keys == old(gc.Keys) && flags.values.Keys == old(flags.values.Keys)
      ensures EntryIn(flags, name) == old(MergedIn(flags, name))
      ensures forall other :: other in gc && other in flags.values && other != name ==>
        EntryIn(flags, other) == old(EntryIn(flags, other))
      ensures forall other :: other in flags.values && other != name ==>
        (flags.values[other] == old(flags.values[other])
         && LenOf(flags.originalSliceLens, other) == old(LenOf(flags.originalSliceLens, other)))
    {
      ghost var e := EntryIn(flags, name);
      if gc[name].Slice? && flags.values[name].Slice? {
        var configSlice, flagSlice := gc[name].items, flags.values[name].items;
        if name in flags.originalSliceLens {
          var originalSliceLen := flags.originalSliceLens[name];
          flagSlice := flagSlice[|flagSlice| - originalSliceLen..|flagSlice|];
          if reconciled {
            configSlice := configSlice[..|configSlice| - originalSliceLen];
          }
        } else {
          flags.originalSliceLens := flags.originalSliceLens[name := |flagSlice|];
        }
        assert flagSlice
          == e.flag.items[|e.flag.items| - (if e.originalLen.Some? then e.originalLen.value else |e.flag.items|)..];
        var concatSlice := configSlice + flagSlice;
        gc := gc[name := Slice(concatSlice, gc[name].elements)];
        flags.values := flags.values[name := Slice(concatSlice, gc[name].elements)];
        return;
      }
      var setInFlags := name in flags.cl.setFlags;
      var presentInYaml := name in presenceMap;
      if !setInFlags {
        flags.values := flags.values[name := Set(flags.values[name], flags.cl.defaults[name])];
      }
      if setInFlags || !presentInYaml {
        gc := gc[name := Set(gc[name], Text(flags.values[name]))];
        return;
      }
      flags.values := flags.values[name := Set(flags.values[name], Text(gc[name]))];
    }
  }
}
