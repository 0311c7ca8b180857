/**
 What loading does with a configuration, before it is called: in every order of the maps, and in some. The order matters
 in two places: the default profile lists the scheduling plugins in that order, and any picker may be the one that is
 appended to profiles without one.
 */
module ConfigOrders {
  import opened ConfigProfiles
  import opened ConfigDefaults
  import opened Wrappers

  /** Exactly one instantiated plugin is a profile handler, and it is `h`. */
  predicate OnlyHandler(plugins: Plugins, h: Plugin) {
    exists n :: n in plugins && plugins[n] == h && h.profileHandler
      && forall m :: m in plugins && plugins[m].profileHandler ==> m == n
  }

  predicate OneHandler(plugins: Plugins) {
    exists n :: n in plugins && OnlyHandler(plugins, plugins[n])
  }

  /** Everything that building asks of a defaulted configuration. */
  predicate Loadable(plugins: Plugins, profiles: seq<Profile>) {
    (forall i :: 0 <= i < |profiles| ==> Buildable(plugins, profiles[i].plugins)) && OneHandler(plugins)
  }

  /** Profile `i` is the first that cannot be built, and a missing weight is the reason. */
  predicate PanicsAtProfile(plugins: Plugins, profiles: seq<Profile>, i: nat)
    requires i < |profiles|
  {
    Panics(plugins, profiles[i].plugins) && forall j :: 0 <= j < i ==> Buildable(plugins, profiles[j].plugins)
  }

  predicate PanicsBuilding(plugins: Plugins, profiles: seq<Profile>) {
    exists i: nat :: i < |profiles| && PanicsAtProfile(plugins, profiles, i)
  }

  /** Loading succeeds in an order that leads to `base` and `c`. */
  predicate Loads(instantiated: Plugins, given: RawConfig, base: seq<Profile>, c: Choice) {
    var out := FinalConfig(instantiated, given, base, c);
    ProfilesValid(out) && Loadable(FinalPlugins(instantiated, |base|, c), out.profiles)
  }

  /** Loading panics in an order that leads to `base` and `c`. */
  predicate PanicsOn(instantiated: Plugins, given: RawConfig, base: seq<Profile>, c: Choice) {
    var out := FinalConfig(instantiated, given, base, c);
    ProfilesValid(out) && PanicsBuilding(FinalPlugins(instantiated, |base|, c), out.profiles)
  }

  // ---------- In terms of the profiles as written ----------

  /** A profile as written passes validation and building; a picker is appended if the loop over it never breaks. */
  predicate ProfileLoads(specs: seq<PluginSpec>, plugins: Plugins, refs: seq<PluginRef>, pickerName: string)
    requires pickerName in plugins
  {
    && RefsDefined(specs, refs)
    && (BreakIndex(plugins, refs) < |refs| || Defined(specs, pickerName))
    && WellPicked(plugins, refs, pickerName)
  }

  predicate NamesValid(profiles: seq<Profile>) {
    && (forall i :: 0 <= i < |profiles| ==> profiles[i].name != "")
    && (forall i, j :: 0 <= i < j < |profiles| ==> profiles[i].name != profiles[j].name)
  }

  lemma DefaultedRefsDefinedIff(specs: seq<PluginSpec>, plugins: Plugins, refs: seq<PluginRef>, pickerName: string)
    requires pickerName != ""
    ensures RefsDefined(specs, DefaultedRefs(plugins, refs, pickerName))
            <==> RefsDefined(specs, refs) && (BreakIndex(plugins, refs) < |refs| || Defined(specs, pickerName))
  {
    var out := DefaultedRefs(plugins, refs, pickerName);
    assert forall i :: 0 <= i < |refs| ==> out[i].ref == refs[i].ref;
    if RefsDefined(specs, out) {
      forall i | 0 <= i < |refs| ensures refs[i].ref != "" && Defined(specs, refs[i].ref) {
        assert out[i].ref == refs[i].ref;
      }
      if |out| > |refs| {
        assert out[|refs|].ref == pickerName;
      }
    }
  }

  predicate WrittenLoads(instantiated: Plugins, given: RawConfig, base: seq<Profile>, c: Choice)
    requires PickerName(c) in FinalPlugins(instantiated, |base|, c)
  {
    var plugins := FinalPlugins(instantiated, |base|, c);
    && NamesValid(base) && OneHandler(plugins)
    && forall i :: 0 <= i < |base| ==>
         ProfileLoads(FinalSpecs(instantiated, given.plugins, |base|, c), plugins, base[i].plugins, PickerName(c))
  }

  lemma ChosenIsPicker(instantiated: Plugins, given: RawConfig, base: seq<Profile>, c: Choice)
    requires Possible(instantiated, given, base, c)
    ensures var plugins := FinalPlugins(instantiated, |base|, c);
      PickerName(c) in plugins && plugins[PickerName(c)].picker && PickerName(c) != ""
  {
  }

  /** Loading in terms of the base profiles as written. */
  lemma LoadsIffWritten(instantiated: Plugins, given: RawConfig, base: seq<Profile>, c: Choice)
    requires Possible(instantiated, given, base, c)
    ensures PickerName(c) in FinalPlugins(instantiated, |base|, c)
    ensures Loads(instantiated, given, base, c) <==> WrittenLoads(instantiated, given, base, c)
  {
    ChosenIsPicker(instantiated, given, base, c);
    var plugins, out := FinalPlugins(instantiated, |base|, c), FinalConfig(instantiated, given, base, c);
    assert NamesValid(out.profiles) <==> NamesValid(base) by {
      assert forall i :: 0 <= i < |base| ==> out.profiles[i].name == base[i].name;
    }
    forall i | 0 <= i < |base|
      ensures RefsDefined(out.plugins, out.profiles[i].plugins) && Buildable(plugins, out.profiles[i].plugins)
              <==> ProfileLoads(out.plugins, plugins, base[i].plugins, PickerName(c))
    {
      ProfileBuildsIff(plugins, base[i].plugins, PickerName(c));
      DefaultedRefsDefinedIff(out.plugins, plugins, base[i].plugins, PickerName(c));
    }
  }

  // ---------- The default profile in any order ----------

  function SchedulingNames(plugins: Plugins): set<string> {
    set n | n in plugins && IsScheduling(plugins[n])
  }

  predicate NamesDefined(specs: seq<PluginSpec>, names: set<string>) {
    forall n :: n in names ==> n != "" && Defined(specs, n)
  }

  /** None of the plugins is a picker, and the one appended needs no weight. */
  predicate PickerAppended(specs: seq<PluginSpec>, plugins: Plugins, names: set<string>, pickerName: string)
    requires pickerName in plugins && names <= plugins.Keys
  {
    (forall n :: n in names ==> !plugins[n].picker) && Defined(specs, pickerName) && !plugins[pickerName].scorer
  }

  /** `p` is the only picker, and it is no scorer. */
  predicate OnlyPicker(plugins: Plugins, names: set<string>, p: string)
    requires names <= plugins.Keys
  {
    p in names && plugins[p].picker && !plugins[p].scorer && forall n :: n in names && plugins[n].picker ==> n == p
  }

  /** The default profile loads however it lists the plugins: with a picker among them there must be no scorer. */
  predicate DefaultLoadsAlways(specs: seq<PluginSpec>, plugins: Plugins, names: set<string>, pickerName: string)
    requires pickerName in plugins && names <= plugins.Keys
  {
    && NamesDefined(specs, names)
    && (PickerAppended(specs, plugins, names, pickerName)
        || ((exists p :: p in names && OnlyPicker(plugins, names, p)) && forall n :: n in names ==> !plugins[n].scorer))
  }

  /** The default profile loads if it lists the plugins in a suitable order: the picker, if any, behind the scorers. */
  predicate DefaultLoadsSometimes(specs: seq<PluginSpec>, plugins: Plugins, names: set<string>, pickerName: string)
    requires pickerName in plugins && names <= plugins.Keys
  {
    && NamesDefined(specs, names)
    && (PickerAppended(specs, plugins, names, pickerName) || exists p :: p in names && OnlyPicker(plugins, names, p))
  }

  /** The references list exactly the names, each once and without a weight. */
  predicate Lists(refs: seq<PluginRef>, names: set<string>) {
    && (forall i :: 0 <= i < |refs| ==> refs[i].weight.None? && refs[i].ref in names)
    && (forall n :: n in names ==> PluginRef(n, None) in refs)
    && (forall i, j :: 0 <= i < j < |refs| ==> refs[i].ref != refs[j].ref)
  }

  lemma BaseListsSchedulingNames(plugins: Plugins, base: seq<Profile>)
    ensures BaseProfiles(plugins, [], base)
            <==> |base| == 1 && base[0].name == "default" && Lists(base[0].plugins, SchedulingNames(plugins))
  {
  }

  /** Every finite set of names can be listed, and any of them first or last. */
  lemma {:induction false} Enumerate(names: set<string>) returns (refs: seq<PluginRef>)
    ensures Lists(refs, names)
    decreases |names|
  {
    refs := [];
    if names != {} {
      var n :| n in names;
      var rest := Enumerate(names - {n});
      refs := [PluginRef(n, None)] + rest;
      ListsOneMore(refs, rest, names, n, 0);
    }
  }

  /** A listing with `n` inserted in front or at the end. */
  lemma ListsOneMore(refs: seq<PluginRef>, rest: seq<PluginRef>, names: set<string>, n: string, at: nat)
    requires n in names && Lists(rest, names - {n})
    requires (at == 0 && refs == [PluginRef(n, None)] + rest) || (at == |rest| && refs == rest + [PluginRef(n, None)])
    ensures Lists(refs, names) && at < |refs| && refs[at] == PluginRef(n, None)
  {
    forall m | m in names ensures PluginRef(m, None) in refs {
      if m == n {
        assert refs[at] == PluginRef(n, None);
      } else {
        assert PluginRef(m, None) in rest;
      }
    }
  }

  /** The loop over a listing breaks at its only picker, or never. */
  lemma {:induction false} BreakOfListing(plugins: Plugins, refs: seq<PluginRef>, k: nat)
    requires k <= |refs| && forall i :: 0 <= i < k ==> !IsPicker(plugins, refs[i])
    requires k < |refs| ==> IsPicker(plugins, refs[k]) && !Unweighted(plugins, refs[k])
    ensures BreakIndex(plugins, refs) == k
    decreases |refs|
  {
    if k > 0 {
      BreakOfListing(plugins, refs[1..], k - 1);
    }
  }

  lemma ListedAt(refs: seq<PluginRef>, names: set<string>, n: string) returns (i: nat)
    requires Lists(refs, names) && n in names
    ensures i < |refs| && refs[i] == PluginRef(n, None)
  {
    i :| i < |refs| && refs[i] == PluginRef(n, None);
  }

  lemma ListingDefinedIff(specs: seq<PluginSpec>, refs: seq<PluginRef>, names: set<string>)
    requires Lists(refs, names)
    ensures RefsDefined(specs, refs) <==> NamesDefined(specs, names)
  {
    if RefsDefined(specs, refs) {
      forall n | n in names ensures n != "" && Defined(specs, n) {
        var i := ListedAt(refs, names, n);
      }
    }
  }

  /** Listings that load are those of the second condition. */
  lemma ListingThatLoads(specs: seq<PluginSpec>, plugins: Plugins, refs: seq<PluginRef>, names: set<string>, pickerName: string)
    requires pickerName in plugins && names <= plugins.Keys && Lists(refs, names)
    requires ProfileLoads(specs, plugins, refs, pickerName)
    ensures DefaultLoadsSometimes(specs, plugins, names, pickerName)
    ensures forall i :: 0 <= i < |refs| && IsPicker(plugins, refs[i]) ==>
              OnlyPicker(plugins, names, refs[i].ref) && forall j :: i < j < |refs| ==> !plugins[refs[j].ref].scorer
  {
    ListingDefinedIff(specs, refs, names);
    BreaksAtAPicker(plugins, refs);
    var k := BreakIndex(plugins, refs);
    forall n | n in names && plugins[n].picker ensures k < |refs| && n == refs[k].ref {
      var i := ListedAt(refs, names, n);
      assert IsPicker(plugins, refs[i]);
    }
    if k < |refs| {
      assert OnlyPicker(plugins, names, refs[k].ref);
    }
    forall i, j | 0 <= i < j < |refs| && IsPicker(plugins, refs[i]) ensures !plugins[refs[j].ref].scorer {
      assert i == k && !Unweighted(plugins, refs[j]);
    }
  }

  /** A listing without pickers, or with its only picker behind all scorers, loads. */
  lemma GoodListingLoads(specs: seq<PluginSpec>, plugins: Plugins, refs: seq<PluginRef>, names: set<string>, pickerName: string, k: nat)
    requires pickerName in plugins && names <= plugins.Keys && Lists(refs, names) && NamesDefined(specs, names)
    requires k <= |refs| && forall i :: 0 <= i < |refs| && i != k ==> !IsPicker(plugins, refs[i])
    requires if k == |refs| then PickerAppended(specs, plugins, names, pickerName) else OnlyPicker(plugins, names, refs[k].ref)
    requires forall j :: k < j < |refs| ==> !plugins[refs[j].ref].scorer
    ensures ProfileLoads(specs, plugins, refs, pickerName)
  {
    ListingDefinedIff(specs, refs, names);
    BreakOfListing(plugins, refs, k);
  }

  /** Each listing loads if and only if the first condition holds. */
  lemma EveryListingLoadsIff(specs: seq<PluginSpec>, plugins: Plugins, names: set<string>, pickerName: string)
    requires pickerName in plugins && names <= plugins.Keys
    ensures (forall refs :: Lists(refs, names) ==> ProfileLoads(specs, plugins, refs, pickerName))
            <==> DefaultLoadsAlways(specs, plugins, names, pickerName)
  {
    if forall refs :: Lists(refs, names) ==> ProfileLoads(specs, plugins, refs, pickerName) {
      var any := Enumerate(names);
      ListingThatLoads(specs, plugins, any, names, pickerName);
      if p :| p in names && OnlyPicker(plugins, names, p) {
        PickerFirst(specs, plugins, names, pickerName, p);
      }
    }
    if DefaultLoadsAlways(specs, plugins, names, pickerName) {
      forall refs | Lists(refs, names) ensures ProfileLoads(specs, plugins, refs, pickerName) {
        AlwaysLoads(specs, plugins, refs, names, pickerName);
      }
    }
  }

  lemma PickerFirst(specs: seq<PluginSpec>, plugins: Plugins, names: set<string>, pickerName: string, p: string)
    requires pickerName in plugins && names <= plugins.Keys && OnlyPicker(plugins, names, p)
    requires forall refs :: Lists(refs, names) ==> ProfileLoads(specs, plugins, refs, pickerName)
    ensures forall n :: n in names ==> !plugins[n].scorer
  {
    var rest := Enumerate(names - {p});
    var refs := [PluginRef(p, None)] + rest;
    ListsOneMore(refs, rest, names, p, 0);
    ListingThatLoads(specs, plugins, refs, names, pickerName);
    assert IsPicker(plugins, refs[0]);
    forall n | n in names ensures !plugins[n].scorer {
      var i := ListedAt(refs, names, n);
    }
  }

  lemma AlwaysLoads(specs: seq<PluginSpec>, plugins: Plugins, refs: seq<PluginRef>, names: set<string>, pickerName: string)
    requires pickerName in plugins && names <= plugins.Keys && Lists(refs, names)
    requires DefaultLoadsAlways(specs, plugins, names, pickerName)
    ensures ProfileLoads(specs, plugins, refs, pickerName)
  {
    if PickerAppended(specs, plugins, names, pickerName) {
      GoodListingLoads(specs, plugins, refs, names, pickerName, |refs|);
    } else {
      var p :| p in names && OnlyPicker(plugins, names, p);
      var k := ListedAt(refs, names, p);
      GoodListingLoads(specs, plugins, refs, names, pickerName, k);
    }
  }

  /** Some listing loads if and only if the second condition holds. */
  lemma SomeListingLoadsIff(specs: seq<PluginSpec>, plugins: Plugins, names: set<string>, pickerName: string)
    requires pickerName in plugins && names <= plugins.Keys
    ensures (exists refs :: Lists(refs, names) && ProfileLoads(specs, plugins, refs, pickerName))
            <==> DefaultLoadsSometimes(specs, plugins, names, pickerName)
  {
    if refs :| Lists(refs, names) && ProfileLoads(specs, plugins, refs, pickerName) {
      ListingThatLoads(specs, plugins, refs, names, pickerName);
    }
    if DefaultLoadsSometimes(specs, plugins, names, pickerName) {
      var refs := SuitableListing(specs, plugins, names, pickerName);
    }
  }

  lemma SuitableListing(specs: seq<PluginSpec>, plugins: Plugins, names: set<string>, pickerName: string) returns (refs: seq<PluginRef>)
    requires pickerName in plugins && names <= plugins.Keys
    requires DefaultLoadsSometimes(specs, plugins, names, pickerName)
    ensures Lists(refs, names) && ProfileLoads(specs, plugins, refs, pickerName)
  {
    if PickerAppended(specs, plugins, names, pickerName) {
      refs := Enumerate(names);
      GoodListingLoads(specs, plugins, refs, names, pickerName, |refs|);
    } else {
      var p :| p in names && OnlyPicker(plugins, names, p);
      var rest := Enumerate(names - {p});
      refs := rest + [PluginRef(p, None)];
      ListsOneMore(refs, rest, names, p, |rest|);
      GoodListingLoads(specs, plugins, refs, names, pickerName, |rest|);
    }
  }

  // ---------- Whole configurations ----------

  function ProfileCount(given: RawConfig): nat {
    if given.profiles == [] then 1 else |given.profiles|
  }

  function Available(instantiated: Plugins, given: RawConfig): Plugins {
    WithHandler(instantiated, ProfileCount(given))
  }

  /** With picker `c`, a configuration loads in every order of the default profile. */
  predicate LoadsAlwaysWith(instantiated: Plugins, given: RawConfig, c: Choice)
    requires MayChoose(Available(instantiated, given), c)
  {
    var plugins := FinalPlugins(instantiated, ProfileCount(given), c);
    var specs := FinalSpecs(instantiated, given.plugins, ProfileCount(given), c);
    OneHandler(plugins) &&
    if given.profiles == [] then DefaultLoadsAlways(specs, plugins, SchedulingNames(instantiated), PickerName(c))
    else NamesValid(given.profiles) && forall i :: 0 <= i < |given.profiles| ==>
                                         ProfileLoads(specs, plugins, given.profiles[i].plugins, PickerName(c))
  }

  /** With picker `c`, a configuration loads in some order of the default profile. */
  predicate LoadsSometimesWith(instantiated: Plugins, given: RawConfig, c: Choice)
    requires MayChoose(Available(instantiated, given), c)
  {
    if given.profiles != [] then LoadsAlwaysWith(instantiated, given, c) else
      var plugins := FinalPlugins(instantiated, ProfileCount(given), c);
      var specs := FinalSpecs(instantiated, given.plugins, ProfileCount(given), c);
      OneHandler(plugins) && DefaultLoadsSometimes(specs, plugins, SchedulingNames(instantiated), PickerName(c))
  }

  /** Whichever picker is chosen, the configuration loads in every order. */
  predicate LoadsInEveryOrder(instantiated: Plugins, given: RawConfig) {
    var available := Available(instantiated, given);
    && (forall n :: n in available && MayChoose(available, Existing(n)) ==> LoadsAlwaysWith(instantiated, given, Existing(n)))
    && (MayChoose(available, Added) ==> LoadsAlwaysWith(instantiated, given, Added))
  }

  /** With some picker, the configuration loads in some order. */
  predicate LoadsInSomeOrder(instantiated: Plugins, given: RawConfig) {
    var available := Available(instantiated, given);
    || (exists n :: n in available && MayChoose(available, Existing(n)) && LoadsSometimesWith(instantiated, given, Existing(n)))
    || (MayChoose(available, Added) && LoadsSometimesWith(instantiated, given, Added))
  }

  lemma GivenProfilesLoadIff(instantiated: Plugins, given: RawConfig, base: seq<Profile>, c: Choice)
    requires given.profiles != [] && Possible(instantiated, given, base, c)
    ensures MayChoose(Available(instantiated, given), c)
    ensures Loads(instantiated, given, base, c) <==> LoadsAlwaysWith(instantiated, given, c)
  {
    LoadsIffWritten(instantiated, given, base, c);
  }

  lemma DefaultBaseShape(instantiated: Plugins, given: RawConfig, base: seq<Profile>, c: Choice)
    requires given.profiles == [] && Possible(instantiated, given, base, c)
    ensures |base| == 1 && base[0].name == "default" && Lists(base[0].plugins, SchedulingNames(instantiated))
    ensures PickerName(c) in FinalPlugins(instantiated, 1, c)
  {
    BaseListsSchedulingNames(instantiated, base);
    ChosenIsPicker(instantiated, given, base, c);
  }

  /** What loading asks of the references of a default profile. */
  predicate OneProfileLoads(instantiated: Plugins, given: RawConfig, refs: seq<PluginRef>, c: Choice)
    requires PickerName(c) in FinalPlugins(instantiated, 1, c)
  {
    var plugins := FinalPlugins(instantiated, 1, c);
    OneHandler(plugins) && ProfileLoads(FinalSpecs(instantiated, given.plugins, 1, c), plugins, refs, PickerName(c))
  }

  lemma WrittenLoadsOfOne(instantiated: Plugins, given: RawConfig, base: seq<Profile>, c: Choice)
    requires |base| == 1 && base[0].name != "" && PickerName(c) in FinalPlugins(instantiated, 1, c)
    ensures WrittenLoads(instantiated, given, base, c) <==> OneProfileLoads(instantiated, given, base[0].plugins, c)
  {
    assert NamesValid(base);
  }

  lemma DefaultProfileLoadsIff(instantiated: Plugins, given: RawConfig, base: seq<Profile>, c: Choice)
    requires given.profiles == [] && Possible(instantiated, given, base, c)
    ensures |base| == 1 && Lists(base[0].plugins, SchedulingNames(instantiated))
    ensures PickerName(c) in FinalPlugins(instantiated, 1, c)
    ensures Loads(instantiated, given, base, c)
            <==> OneProfileLoads(instantiated, given, base[0].plugins, c)
  {
    DefaultBaseShape(instantiated, given, base, c);
    LoadsIffWritten(instantiated, given, base, c);
    WrittenLoadsOfOne(instantiated, given, base, c);
  }

  lemma DefaultBaseIsPossible(instantiated: Plugins, given: RawConfig, refs: seq<PluginRef>, c: Choice)
    requires given.profiles == [] && Lists(refs, SchedulingNames(instantiated))
    requires MayChoose(Available(instantiated, given), c)
    ensures Possible(instantiated, given, [Profile("default", refs)], c)
  {
    BaseListsSchedulingNames(instantiated, [Profile("default", refs)]);
  }

  /** The first condition is enough for the order at hand. */
  lemma AlwaysIsEnough(instantiated: Plugins, given: RawConfig, base: seq<Profile>, c: Choice)
    requires Possible(instantiated, given, base, c)
    ensures MayChoose(Available(instantiated, given), c)
    ensures LoadsAlwaysWith(instantiated, given, c) ==> Loads(instantiated, given, base, c)
  {
    if given.profiles != [] {
      GivenProfilesLoadIff(instantiated, given, base, c);
    } else {
      DefaultProfileLoadsIff(instantiated, given, base, c);
      EveryListingLoadsIff(FinalSpecs(instantiated, given.plugins, 1, c), FinalPlugins(instantiated, 1, c),
                           SchedulingNames(instantiated), PickerName(c));
    }
  }

  /** The second condition is necessary for the order at hand. */
  lemma SometimesIsNeeded(instantiated: Plugins, given: RawConfig, base: seq<Profile>, c: Choice)
    requires Possible(instantiated, given, base, c)
    ensures MayChoose(Available(instantiated, given), c)
    ensures Loads(instantiated, given, base, c) ==> LoadsSometimesWith(instantiated, given, c)
  {
    if given.profiles != [] {
      GivenProfilesLoadIff(instantiated, given, base, c);
    } else {
      DefaultProfileLoadsIff(instantiated, given, base, c);
      SomeListingLoadsIff(FinalSpecs(instantiated, given.plugins, 1, c), FinalPlugins(instantiated, 1, c),
                          SchedulingNames(instantiated), PickerName(c));
    }
  }

  /** Without the first condition some order does not load. */
  lemma OrderThatDoesNotLoad(instantiated: Plugins, given: RawConfig, c: Choice) returns (base: seq<Profile>)
    requires MayChoose(Available(instantiated, given), c) && !LoadsAlwaysWith(instantiated, given, c)
    ensures Possible(instantiated, given, base, c) && !Loads(instantiated, given, base, c)
  {
    if given.profiles != [] {
      base := given.profiles;
      GivenProfilesLoadIff(instantiated, given, base, c);
    } else {
      var plugins, specs := FinalPlugins(instantiated, 1, c), FinalSpecs(instantiated, given.plugins, 1, c);
      var names := SchedulingNames(instantiated);
      EveryListingLoadsIff(specs, plugins, names, PickerName(c));
      var refs := Enumerate(names);
      if !DefaultLoadsAlways(specs, plugins, names, PickerName(c)) {
        refs :| Lists(refs, names) && !ProfileLoads(specs, plugins, refs, PickerName(c));
      }
      base := [Profile("default", refs)];
      DefaultBaseIsPossible(instantiated, given, refs, c);
      DefaultProfileLoadsIff(instantiated, given, base, c);
    }
  }

  /** With the second condition some order loads. */
  lemma OrderThatLoads(instantiated: Plugins, given: RawConfig, c: Choice) returns (base: seq<Profile>)
    requires MayChoose(Available(instantiated, given), c) && LoadsSometimesWith(instantiated, given, c)
    ensures Possible(instantiated, given, base, c) && Loads(instantiated, given, base, c)
  {
    if given.profiles != [] {
      base := given.profiles;
      GivenProfilesLoadIff(instantiated, given, base, c);
    } else {
      var refs := SuitableListing(FinalSpecs(instantiated, given.plugins, 1, c), FinalPlugins(instantiated, 1, c),
                                  SchedulingNames(instantiated), PickerName(c));
      base := [Profile("default", refs)];
      DefaultBaseIsPossible(instantiated, given, refs, c);
      DefaultProfileLoadsIff(instantiated, given, base, c);
    }
  }

  /** Loading succeeds in every order of the maps if and only if the first condition holds for each picker. */
  lemma EveryOrderLoadsIff(instantiated: Plugins, given: RawConfig)
    ensures LoadsInEveryOrder(instantiated, given)
            <==> forall base, c :: Possible(instantiated, given, base, c) ==> Loads(instantiated, given, base, c)
  {
    var available := Available(instantiated, given);
    if LoadsInEveryOrder(instantiated, given) {
      forall base, c | Possible(instantiated, given, base, c) ensures Loads(instantiated, given, base, c) {
        AlwaysIsEnough(instantiated, given, base, c);
      }
    } else {
      var c :| MayChoose(available, c) && !LoadsAlwaysWith(instantiated, given, c);
      var base := OrderThatDoesNotLoad(instantiated, given, c);
    }
  }

  /** Loading succeeds in some order of the maps if and only if the second condition holds for some picker. */
  lemma SomeOrderLoadsIff(instantiated: Plugins, given: RawConfig)
    ensures LoadsInSomeOrder(instantiated, given)
            <==> exists base, c :: Possible(instantiated, given, base, c) && Loads(instantiated, given, base, c)
  {
    var available := Available(instantiated, given);
    if LoadsInSomeOrder(instantiated, given) {
      var c :| MayChoose(available, c) && LoadsSometimesWith(instantiated, given, c);
      var base := OrderThatLoads(instantiated, given, c);
    }
    if base, c :| Possible(instantiated, given, base, c) && Loads(instantiated, given, base, c) {
      SometimesIsNeeded(instantiated, given, base, c);
      assert c.Existing? ==> c == Existing(c.name);
    }
  }

  /** There is always an order, so what holds in every order holds in some. */
  lemma EveryOrderImpliesSome(instantiated: Plugins, given: RawConfig)
    requires LoadsInEveryOrder(instantiated, given)
    ensures LoadsInSomeOrder(instantiated, given)
  {
    EveryOrderLoadsIff(instantiated, given);
    SomeOrderLoadsIff(instantiated, given);
    var available := Available(instantiated, given);
    var c := Added;
    if n :| n in available && available[n].picker && n != "" {
      c := Existing(n);
    }
    var base := given.profiles;
    if given.profiles == [] {
      var refs := Enumerate(SchedulingNames(instantiated));
      base := [Profile("default", refs)];
      DefaultBaseIsPossible(instantiated, given, refs, c);
    }
    assert Possible(instantiated, given, base, c);
  }

  // ---------- Panics ----------

  /** Panicking in terms of the base profiles as written: the first that is not well picked misses a weight. */
  lemma PanicsIffWritten(instantiated: Plugins, given: RawConfig, base: seq<Profile>, c: Choice)
    requires Possible(instantiated, given, base, c)
    ensures PickerName(c) in FinalPlugins(instantiated, |base|, c)
    ensures PanicsOn(instantiated, given, base, c) <==>
            && ProfilesValid(FinalConfig(instantiated, given, base, c))
            && exists i: nat :: i < |base| && FirstMiss(FinalPlugins(instantiated, |base|, c), base, PickerName(c), i)
  {
    ChosenIsPicker(instantiated, given, base, c);
    var plugins, out := FinalPlugins(instantiated, |base|, c), FinalConfig(instantiated, given, base, c);
    forall i: nat | i < |base|
      ensures PanicsAtProfile(plugins, out.profiles, i) <==> FirstMiss(plugins, base, PickerName(c), i)
    {
      ProfilePanicsIff(plugins, base[i].plugins, PickerName(c));
      forall j | 0 <= j < i
        ensures Buildable(plugins, out.profiles[j].plugins) <==> WellPicked(plugins, base[j].plugins, PickerName(c))
      {
        ProfileBuildsIff(plugins, base[j].plugins, PickerName(c));
      }
    }
  }

  predicate FirstMiss(plugins: Plugins, base: seq<Profile>, pickerName: string, i: nat)
    requires pickerName in plugins && i < |base|
  {
    && MissesWeight(plugins, base[i].plugins, pickerName)
    && forall j :: 0 <= j < i ==> WellPicked(plugins, base[j].plugins, pickerName)
  }

  /**
   Without profiles, with one picker and a scorer, the order of the map decides: the configuration loads if the picker
   comes last, and panics if it comes first.
   */
  lemma MapOrderDecides(instantiated: Plugins, given: RawConfig, c: Choice, p: string, s: string)
    returns (good: seq<Profile>, bad: seq<Profile>)
    requires given.profiles == [] && MayChoose(Available(instantiated, given), c)
    requires var plugins := FinalPlugins(instantiated, 1, c);
      && OneHandler(plugins) && OnlyPicker(plugins, SchedulingNames(instantiated), p)
      && s in SchedulingNames(instantiated) && plugins[s].scorer
    requires NamesDefined(FinalSpecs(instantiated, given.plugins, 1, c), SchedulingNames(instantiated))
    ensures Possible(instantiated, given, good, c) && Loads(instantiated, given, good, c)
    ensures Possible(instantiated, given, bad, c) && PanicsOn(instantiated, given, bad, c)
  {
    good := OrderThatLoads(instantiated, given, c);
    bad := OrderThatPanics(instantiated, given, c, p, s);
  }

  lemma OrderThatPanics(instantiated: Plugins, given: RawConfig, c: Choice, p: string, s: string) returns (base: seq<Profile>)
    requires given.profiles == [] && MayChoose(Available(instantiated, given), c)
    requires var plugins := FinalPlugins(instantiated, 1, c);
      && OnlyPicker(plugins, SchedulingNames(instantiated), p)
      && s in SchedulingNames(instantiated) && plugins[s].scorer
    requires NamesDefined(FinalSpecs(instantiated, given.plugins, 1, c), SchedulingNames(instantiated))
    ensures Possible(instantiated, given, base, c) && PanicsOn(instantiated, given, base, c)
  {
    var refs := PickerFirstListing(FinalSpecs(instantiated, given.plugins, 1, c), FinalPlugins(instantiated, 1, c),
                                   SchedulingNames(instantiated), PickerName(c), p, s);
    base := [Profile("default", refs)];
    DefaultBaseIsPossible(instantiated, given, refs, c);
    DefaultProfilePanics(instantiated, given, refs, c);
  }

  lemma DefaultProfilePanics(instantiated: Plugins, given: RawConfig, refs: seq<PluginRef>, c: Choice)
    requires Possible(instantiated, given, [Profile("default", refs)], c)
    requires PickerName(c) in FinalPlugins(instantiated, 1, c)
    requires var plugins := FinalPlugins(instantiated, 1, c);
      && RefsDefined(FinalSpecs(instantiated, given.plugins, 1, c), DefaultedRefs(plugins, refs, PickerName(c)))
      && MissesWeight(plugins, refs, PickerName(c))
    ensures PanicsOn(instantiated, given, [Profile("default", refs)], c)
  {
    var base := [Profile("default", refs)];
    PanicsIffWritten(instantiated, given, base, c);
    assert FirstMiss(FinalPlugins(instantiated, 1, c), base, PickerName(c), 0);
  }

  lemma PickerFirstListing(specs: seq<PluginSpec>, plugins: Plugins, names: set<string>, pickerName: string, p: string, s: string)
    returns (refs: seq<PluginRef>)
    requires names <= plugins.Keys && pickerName in plugins && pickerName != "" && OnlyPicker(plugins, names, p)
    requires s in names && plugins[s].scorer && NamesDefined(specs, names)
    ensures Lists(refs, names) && MissesWeight(plugins, refs, pickerName)
    ensures RefsDefined(specs, DefaultedRefs(plugins, refs, pickerName))
  {
    var rest := Enumerate(names - {p});
    refs := [PluginRef(p, None)] + rest;
    ListsOneMore(refs, rest, names, p, 0);
    ListingDefinedIff(specs, refs, names);
    BreakOfListing(plugins, refs, 0);
    DefaultedRefsDefinedIff(specs, plugins, refs, pickerName);
    var j := ListedAt(refs, names, s);
    assert forall i :: 0 < i < |refs| ==> !IsPicker(plugins, refs[i]);
    assert forall i :: 0 <= i < j ==> refs[..j][i] == refs[i];
    assert Unweighted(plugins, refs[j]) && AtMostOnePicker(plugins, refs[..j]);
  }
}
