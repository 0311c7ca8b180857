/** Loading of the endpoint-picker configuration as a whole. */
module ConfigLoader {
  import opened ConfigProfiles
  import opened ConfigDefaults
  import opened ConfigOrders
  import opened Wrappers

  method FindProfileHandler(plugins: Plugins) returns (r: Option<Plugin>)
    ensures r.Some? ==> OnlyHandler(plugins, r.value)
    ensures r.None? ==> forall n :: n in plugins ==> !OnlyHandler(plugins, plugins[n])
  {
    var todo := plugins.Keys;
    r := None;
    ghost var found := "";
    while todo != {}
      invariant todo <= plugins.Keys
      invariant r.Some? ==> found in plugins && found !in todo && plugins[found] == r.value && r.value.profileHandler
      invariant forall n :: n in plugins && n !in todo && plugins[n].profileHandler ==> r.Some? && n == found
      decreases todo
    {
      var n :| n in todo;
      todo := todo - {n};
      if plugins[n].profileHandler {
        if r.Some? {
          assert n != found;
          return None;
        }
        r, found := Some(plugins[n]), n;
      }
    }
  }

  datatype SchedulerConfig = SchedulerConfig(profileHandler: Plugin, profiles: map<string, LoadedProfile>)

  /** The result has exactly the configured profiles, each built from its own references, and the only profile handler. */
  predicate GoodLoad(plugins: Plugins, profiles: seq<Profile>, sc: SchedulerConfig) {
    AllBuilt(plugins, profiles, sc.profiles) && OnlyHandler(plugins, sc.profileHandler)
  }

  function NameSet(profiles: seq<Profile>): set<string> {
    set i | 0 <= i < |profiles| :: profiles[i].name
  }

  lemma NamesOneMore(profiles: seq<Profile>, i: nat)
    requires i < |profiles|
    ensures NameSet(profiles[..i + 1]) == NameSet(profiles[..i]) + {profiles[i].name}
  {
    var front, more := profiles[..i], profiles[..i + 1];
    assert forall j :: 0 <= j <= i ==> more[j] == if j < i then front[j] else profiles[i];
    assert forall n :: n in NameSet(front) ==> n in NameSet(more) by {
      forall n | n in NameSet(front) ensures n in NameSet(more) {
        var j :| 0 <= j < i && front[j].name == n;
        assert more[j].name == n;
      }
    }
    assert more[i].name in NameSet(more);
  }

  predicate AllBuilt(plugins: Plugins, profiles: seq<Profile>, built: map<string, LoadedProfile>) {
    && built.Keys == NameSet(profiles)
    && forall i :: 0 <= i < |profiles| ==>
         profiles[i].name in built && Builds(plugins, profiles[i].plugins, built[profiles[i].name])
  }

  lemma BuiltOneMore(plugins: Plugins, profiles: seq<Profile>, i: nat, built: map<string, LoadedProfile>, p: LoadedProfile)
    requires i < |profiles| && DistinctNames(profiles)
    requires AllBuilt(plugins, profiles[..i], built) && Builds(plugins, profiles[i].plugins, p)
    ensures AllBuilt(plugins, profiles[..i + 1], built[profiles[i].name := p])
  {
    var front, more, next := profiles[..i], profiles[..i + 1], built[profiles[i].name := p];
    assert forall j :: 0 <= j <= i ==> more[j] == if j < i then front[j] else profiles[i];
    forall j | 0 <= j <= i
      ensures more[j].name in next && Builds(plugins, more[j].plugins, next[more[j].name])
    {
      if j < i {
        assert front[j].name != profiles[i].name;
      }
    }
    NamesOneMore(profiles, i);
  }

  predicate DistinctNames(profiles: seq<Profile>) {
    forall i, j :: 0 <= i < j < |profiles| ==> profiles[i].name != profiles[j].name
  }

  lemma NeitherBuildsNorPanics(plugins: Plugins, refs: seq<PluginRef>)
    requires Buildable(plugins, refs)
    ensures !Panics(plugins, refs)
  {
  }

  /** The profile that cannot be built decides between an error and a panic. */
  lemma OutcomeAtProfile(plugins: Plugins, profiles: seq<Profile>, i: nat)
    requires i < |profiles| && !Buildable(plugins, profiles[i].plugins)
    requires forall j :: 0 <= j < i ==> Buildable(plugins, profiles[j].plugins)
    ensures !Loadable(plugins, profiles)
    ensures PanicsBuilding(plugins, profiles) <==> Panics(plugins, profiles[i].plugins)
  {
    if k: nat :| k < |profiles| && PanicsAtProfile(plugins, profiles, k) {
      if k < i {
        NeitherBuildsNorPanics(plugins, profiles[k].plugins);
      }
    }
    if Panics(plugins, profiles[i].plugins) {
      assert PanicsAtProfile(plugins, profiles, i);
    }
  }

  method LoadSchedulerConfig(profiles: seq<Profile>, plugins: Plugins) returns (r: Outcome<SchedulerConfig>)
    requires DistinctNames(profiles)
    requires forall i :: 0 <= i < |profiles| ==> Resolved(plugins, profiles[i].plugins)
    ensures r.Loaded? <==> Loadable(plugins, profiles)
    ensures r.Loaded? ==> GoodLoad(plugins, profiles, r.value)
    ensures r.Panicked? <==> PanicsBuilding(plugins, profiles)
  {
    var built: map<string, LoadedProfile> := map[];
    for i := 0 to |profiles|
      invariant forall j :: 0 <= j < i ==> Buildable(plugins, profiles[j].plugins)
      invariant AllBuilt(plugins, profiles[..i], built)
    {
      assert Resolved(plugins, profiles[i].plugins);
      var profile := BuildProfile(plugins, profiles[i].plugins);
      match profile
      case Failed =>
        OutcomeAtProfile(plugins, profiles, i);
        return Failed;
      case Panicked =>
        OutcomeAtProfile(plugins, profiles, i);
        return Panicked;
      case Loaded(p) =>
        BuiltOneMore(plugins, profiles, i, built, p);
        built := built[profiles[i].name := p];
    }
    assert profiles[..|profiles|] == profiles;
    forall i: nat | i < |profiles| ensures !Panics(plugins, profiles[i].plugins) {
      NeitherBuildsNorPanics(plugins, profiles[i].plugins);
    }
    var profileHandler := FindProfileHandler(plugins);
    if profileHandler.None? {
      return Failed;
    }
    return Loaded(SchedulerConfig(profileHandler.value, built));
  }

  /** A configuration was loaded from `out`: everything resolves, and each profile has exactly one picker. */
  predicate LoadedFrom(plugins: Plugins, out: RawConfig, sc: SchedulerConfig) {
    && ProfilesValid(out)
    && (forall i :: 0 <= i < |out.profiles| ==> Resolved(plugins, out.profiles[i].plugins))
    && GoodLoad(plugins, out.profiles, sc)
    && forall n :: n in sc.profiles ==> sc.profiles[n].picker.Some?
  }

  lemma {:induction false} ChosenFindsPicker(plugins: Plugins, refs: seq<PluginRef>, i: nat)
    requires Resolved(plugins, refs)
    requires i < |refs| && IsPicker(plugins, refs[i])
    ensures Chosen(plugins, refs, PickerSlot) != []
    decreases |refs|
  {
    if i < |refs| - 1 {
      ChosenFindsPicker(plugins, refs[..|refs| - 1], i);
    }
  }

  lemma EveryProfileHasAPicker(plugins: Plugins, base: seq<Profile>, pickerName: string, sc: SchedulerConfig)
    requires pickerName in plugins && plugins[pickerName].picker
    requires GoodLoad(plugins, DefaultedProfiles(plugins, base, pickerName), sc)
    ensures forall n :: n in sc.profiles ==> sc.profiles[n].picker.Some?
  {
    var profiles := DefaultedProfiles(plugins, base, pickerName);
    forall n | n in sc.profiles ensures sc.profiles[n].picker.Some? {
      var i :| 0 <= i < |profiles| && profiles[i].name == n;
      DefaultedRefsHaveAPicker(plugins, base[i].plugins, pickerName);
      var refs := profiles[i].plugins;
      var j :| 0 <= j < |refs| && IsPicker(plugins, refs[j]);
      assert Builds(plugins, refs, sc.profiles[n]);
      ChosenFindsPicker(plugins, refs, j);
    }
  }

  /** Each loaded profile has the scorers of its references in order, each with the weight written for it, or 1. */
  predicate ScoresAsWritten(plugins: Plugins, base: seq<Profile>, sc: SchedulerConfig) {
    forall i :: 0 <= i < |base| ==>
      && Resolved(plugins, base[i].plugins) && base[i].name in sc.profiles
      && sc.profiles[base[i].name].scorers == ScorersAsWritten(plugins, base[i].plugins)
  }

  lemma LoadedScoresAsWritten(plugins: Plugins, base: seq<Profile>, pickerName: string, sc: SchedulerConfig)
    requires pickerName in plugins && GoodLoad(plugins, DefaultedProfiles(plugins, base, pickerName), sc)
    ensures ScoresAsWritten(plugins, base, sc)
  {
    var profiles := DefaultedProfiles(plugins, base, pickerName);
    forall i | 0 <= i < |base|
      ensures && Resolved(plugins, base[i].plugins) && base[i].name in sc.profiles
              && sc.profiles[base[i].name].scorers == ScorersAsWritten(plugins, base[i].plugins)
    {
      assert profiles[i].name == base[i].name && Builds(plugins, profiles[i].plugins, sc.profiles[base[i].name]);
      BuiltScorersAreAsWritten(plugins, base[i].plugins, pickerName, sc.profiles[base[i].name]);
    }
  }

  function AllNamed(specs: seq<PluginSpec>): seq<PluginSpec> {
    seq(|specs|, i requires 0 <= i < |specs| => Named(specs[i]))
  }

  /** The configuration and the plugins that the second phase starts from. */
  function Prepared(raw: RawConfig): RawConfig {
    RawConfig(AllNamed(raw.plugins), raw.profiles)
  }

  function Instantiated(raw: RawConfig, initial: Plugins): Plugins
    requires forall i :: 0 <= i < |raw.plugins| ==> raw.plugins[i].made.Some?
  {
    Installed(initial, AllNamed(raw.plugins))
  }

  predicate CanInstantiate(raw: RawConfig, registry: set<string>) {
    Instantiable(AllNamed(raw.plugins), registry) && forall i :: 0 <= i < |raw.plugins| ==> raw.plugins[i].made.Some?
  }

  /** The configuration loads, whatever the order of the maps. */
  predicate AlwaysLoads(raw: RawConfig, registry: set<string>, initial: Plugins) {
    CanInstantiate(raw, registry) && LoadsInEveryOrder(Instantiated(raw, initial), Prepared(raw))
  }

  /** The configuration loads in some order of the maps. */
  predicate MayLoad(raw: RawConfig, registry: set<string>, initial: Plugins) {
    CanInstantiate(raw, registry) && LoadsInSomeOrder(Instantiated(raw, initial), Prepared(raw))
  }

  lemma PreparedIsInstantiated(raw: RawConfig, registry: set<string>, initial: Plugins)
    requires CanInstantiate(raw, registry)
    ensures AllInstantiated(Instantiated(raw, initial), Prepared(raw).plugins)
  {
    forall i | 0 <= i < |raw.plugins| ensures Prepared(raw).plugins[i].name in Instantiated(raw, initial) {
      InstalledHoldsEach(initial, AllNamed(raw.plugins), i);
    }
  }

  /**
   Loading ends as the order that the maps happen to have demands: `base` and `c` are the default profile and the picker
   of that order. A configuration that always loads is loaded, and one that is loaded may load; a loaded configuration
   is complete.
   */
  method LoadConfig(raw: RawConfig, registry: set<string>, handle: Handle)
    returns (r: Outcome<SchedulerConfig>, ghost base: seq<Profile>, ghost c: Choice)
    modifies handle
    ensures !CanInstantiate(raw, registry) ==> r.Failed?
    ensures CanInstantiate(raw, registry) ==>
              var instantiated, given := Instantiated(raw, old(handle.plugins)), Prepared(raw);
              && Possible(instantiated, given, base, c)
              && handle.plugins == FinalPlugins(instantiated, |base|, c)
              && (r.Loaded? <==> Loads(instantiated, given, base, c))
              && (r.Panicked? <==> PanicsOn(instantiated, given, base, c))
              && (r.Loaded? ==> LoadedFrom(handle.plugins, FinalConfig(instantiated, given, base, c), r.value))
              && (r.Loaded? ==> ScoresAsWritten(handle.plugins, base, r.value))
    ensures AlwaysLoads(raw, registry, old(handle.plugins)) ==> r.Loaded?
    ensures r.Loaded? ==> MayLoad(raw, registry, old(handle.plugins))
  {
    base, c := [], Added;
    var specs := SetDefaultsPhaseOne(raw.plugins);
    assert specs == AllNamed(raw.plugins);
    var ok := InstantiatePlugins(specs, registry, handle);
    assert forall i :: 0 <= i < |specs| ==> specs[i].made == raw.plugins[i].made;
    if !ok {
      return Failed, base, c;
    }
    ghost var instantiated, given := handle.plugins, Prepared(raw);
    PreparedIsInstantiated(raw, registry, old(handle.plugins));
    EveryOrderLoadsIff(instantiated, given);
    SomeOrderLoadsIff(instantiated, given);
    var cfg;
    cfg, base, c := SetDefaultsPhaseTwo(RawConfig(specs, raw.profiles), handle);
    FinalSpecsAreInstantiated(instantiated, given, base, c);
    var valid := ValidateSchedulingProfiles(cfg);
    if !valid {
      return Failed, base, c;
    }
    ValidReferencesResolve(handle.plugins, cfg);
    r := LoadSchedulerConfig(cfg.profiles, handle.plugins);
    if r.Loaded? {
      EveryProfileHasAPicker(handle.plugins, base, PickerName(c), r.value);
      LoadedScoresAsWritten(handle.plugins, base, PickerName(c), r.value);
    }
  }

  // ---------- Two configurations ----------

  function QueueScorer(): Plugin {
    Plugin("queue-scorer", false, true, false, false, false)
  }

  /** A picker and a scorer, with the given profiles. */
  function PickerAndScorer(profiles: seq<Profile>): RawConfig {
    RawConfig([PluginSpec("picker", MAX_SCORE_PICKER, Some(MaxScorePicker())),
               PluginSpec("scorer", "queue-scorer", Some(QueueScorer()))], profiles)
  }

  lemma PickerAndScorerPlugins(profiles: seq<Profile>)
    ensures Instantiated(PickerAndScorer(profiles), map[]) == map["picker" := MaxScorePicker(), "scorer" := QueueScorer()]
    ensures Prepared(PickerAndScorer(profiles)) == PickerAndScorer(profiles)
    ensures CanInstantiate(PickerAndScorer(profiles), {MAX_SCORE_PICKER, "queue-scorer"})
  {
    var raw := PickerAndScorer(profiles);
    assert AllNamed(raw.plugins) == raw.plugins;
    assert raw.plugins[..0] == [] && raw.plugins[..2] == raw.plugins;
    InstalledExtends(map[], raw.plugins, 0);
    InstalledExtends(map[], raw.plugins, 1);
  }

  function PickerFirst(): Profile {
    Profile("p", [PluginRef("picker", None), PluginRef("scorer", None)])
  }

  lemma PickerAndScorerDefined(specs: seq<PluginSpec>)
    requires PickerAndScorer([]).plugins <= specs
    ensures Defined(specs, "picker") && Defined(specs, "scorer")
  {
    assert specs[0].name == "picker" && specs[1].name == "scorer";
  }

  lemma PickerFirstIsValid(out: RawConfig)
    requires PickerAndScorer([]).plugins <= out.plugins && out.profiles == [PickerFirst()]
    ensures ProfilesValid(out)
  {
    PickerAndScorerDefined(out.plugins);
    assert RefsDefined(out.plugins, PickerFirst().plugins);
  }

  lemma PickerFirstPanics(plugins: Plugins, pickerName: string)
    requires "picker" in plugins && plugins["picker"] == MaxScorePicker()
    requires "scorer" in plugins && plugins["scorer"] == QueueScorer()
    ensures DefaultedRefs(plugins, PickerFirst().plugins, pickerName) == PickerFirst().plugins
    ensures Panics(plugins, PickerFirst().plugins)
  {
    var refs := PickerFirst().plugins;
    assert BreakIndex(plugins, refs) == 0;
    assert PanicsAt(plugins, refs, 1);
  }

  /** A profile that lists the picker before the scorer panics in every order of the maps. */
  lemma PickerBeforeScorerPanics(base: seq<Profile>, c: Choice)
    requires var raw := PickerAndScorer([PickerFirst()]); Possible(Instantiated(raw, map[]), Prepared(raw), base, c)
    ensures var raw := PickerAndScorer([PickerFirst()]); PanicsOn(Instantiated(raw, map[]), Prepared(raw), base, c)
  {
    var raw := PickerAndScorer([PickerFirst()]);
    PickerAndScorerPlugins([PickerFirst()]);
    var instantiated := Instantiated(raw, map[]);
    var plugins, out := FinalPlugins(instantiated, 1, c), FinalConfig(instantiated, raw, base, c);
    PickerFirstPanics(plugins, PickerName(c));
    assert out.profiles == [PickerFirst()];
    PickerFirstIsValid(out);
    assert PanicsAtProfile(plugins, out.profiles, 0);
  }

  /** The same plugins without a profile load in one order of the map and panic in the other. */
  lemma OrderDecidesPickerAndScorer() returns (good: seq<Profile>, bad: seq<Profile>)
    ensures var raw := PickerAndScorer([]);
      var instantiated := Instantiated(raw, map[]);
      && Possible(instantiated, raw, good, Existing("picker")) && Loads(instantiated, raw, good, Existing("picker"))
      && Possible(instantiated, raw, bad, Existing("picker")) && PanicsOn(instantiated, raw, bad, Existing("picker"))
  {
    var raw := PickerAndScorer([]);
    PickerAndScorerPlugins([]);
    var instantiated, c := Instantiated(raw, map[]), Existing("picker");
    var plugins, specs := FinalPlugins(instantiated, 1, c), FinalSpecs(instantiated, raw.plugins, 1, c);
    assert OnlyHandler(plugins, plugins[SINGLE_PROFILE_HANDLER]);
    PickerAndScorerDefined(specs);
    assert OnlyPicker(plugins, SchedulingNames(instantiated), "picker");
    good, bad := MapOrderDecides(instantiated, raw, c, "picker", "scorer");
  }
}
