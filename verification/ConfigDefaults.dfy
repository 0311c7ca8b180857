/**
 The phases of loading before profiles are built: naming, instantiation, defaulting and validation. Where the code ranges
 over a map, the order is left open: it decides how a default profile lists its plugins, and which picker is chosen.
 */
module ConfigDefaults {
  import opened ConfigProfiles
  import opened Wrappers

  /** The handle with the instantiated plugins. */
  class Handle {
    var plugins: Plugins

    constructor ()
      ensures plugins == map[]
    {
      plugins := map[];
    }

    method AddPlugin(name: string, p: Plugin)
      modifies this
      ensures plugins == old(plugins)[name := p]
    {
      plugins := plugins[name := p];
    }
  }

  /** Entries without a name are named after their type. */
  function Named(spec: PluginSpec): PluginSpec {
    if spec.name == "" then spec.(name := spec.kind) else spec
  }

  method SetDefaultsPhaseOne(specs: seq<PluginSpec>) returns (named: seq<PluginSpec>)
    ensures |named| == |specs| && forall i :: 0 <= i < |specs| ==> named[i] == Named(specs[i])
    ensures forall i :: 0 <= i < |specs| ==>
              && named[i].name == (if specs[i].name == "" then specs[i].kind else specs[i].name)
              && named[i].kind == specs[i].kind && named[i].made == specs[i].made
  {
    named := specs;
    for i := 0 to |specs|
      invariant |named| == |specs|
      invariant forall j :: 0 <= j < |specs| ==> named[j] == if j < i then Named(specs[j]) else specs[j]
    {
      if named[i].name == "" {
        named := named[i := named[i].(name := named[i].kind)];
      }
    }
  }

  /** Every configured plugin can be made: typed, uniquely named, of a registered type, with a factory that succeeds. */
  predicate Instantiable(specs: seq<PluginSpec>, registry: set<string>) {
    && (forall i :: 0 <= i < |specs| ==> specs[i].kind != "" && specs[i].kind in registry && specs[i].made.Some?)
    && (forall i, j :: 0 <= i < j < |specs| ==> specs[i].name != specs[j].name)
  }

  lemma InstantiableExtends(specs: seq<PluginSpec>, registry: set<string>, i: nat)
    requires i < |specs| && Instantiable(specs[..i], registry)
    requires specs[i].kind != "" && specs[i].kind in registry && specs[i].made.Some?
    requires forall j :: 0 <= j < i ==> specs[j].name != specs[i].name
    ensures Instantiable(specs[..i + 1], registry)
    ensures forall j :: 0 <= j <= i ==> specs[j].made.Some?
  {
    var front, more := specs[..i], specs[..i + 1];
    assert forall j :: 0 <= j <= i ==> more[j] == if j < i then front[j] else specs[i];
    assert forall j :: 0 <= j <= i ==> specs[j] == more[j];
  }

  /** The handle's plugins once those of `specs` are added under their names, in order. */
  function Installed(plugins: Plugins, specs: seq<PluginSpec>): Plugins
    requires forall i :: 0 <= i < |specs| ==> specs[i].made.Some?
    decreases |specs|
  {
    if specs == [] then plugins else
      var last := |specs| - 1;
      Installed(plugins, specs[..last])[specs[last].name := specs[last].made.value]
  }

  lemma InstalledExtends(plugins: Plugins, specs: seq<PluginSpec>, i: nat)
    requires i < |specs| && forall j :: 0 <= j <= i ==> specs[j].made.Some?
    ensures Installed(plugins, specs[..i + 1]) == Installed(plugins, specs[..i])[specs[i].name := specs[i].made.value]
  {
    assert specs[..i + 1][..i] == specs[..i];
  }

  lemma {:induction false} InstalledHoldsEach(plugins: Plugins, specs: seq<PluginSpec>, i: nat)
    requires forall j :: 0 <= j < |specs| ==> specs[j].made.Some?
    requires forall j, k :: 0 <= j < k < |specs| ==> specs[j].name != specs[k].name
    requires i < |specs|
    ensures specs[i].name in Installed(plugins, specs)
    ensures Installed(plugins, specs)[specs[i].name] == specs[i].made.value
    decreases |specs|
  {
    if i < |specs| - 1 {
      InstalledHoldsEach(plugins, specs[..|specs| - 1], i);
    }
  }

  method InstantiatePlugins(specs: seq<PluginSpec>, registry: set<string>, handle: Handle) returns (ok: bool)
    modifies handle
    ensures ok <==> Instantiable(specs, registry)
    ensures ok ==> handle.plugins == Installed(old(handle.plugins), specs)
  {
    var pluginNames: set<string> := {};
    for i := 0 to |specs|
      invariant forall n :: n in pluginNames <==> exists j :: 0 <= j < i && specs[j].name == n
      invariant Instantiable(specs[..i], registry)
      invariant handle.plugins == Installed(old(handle.plugins), specs[..i])
    {
      if specs[i].kind == "" {
        return false;
      }
      if specs[i].name in pluginNames {
        ghost var j :| 0 <= j < i && specs[j].name == specs[i].name;
        return false;
      }
      assert forall j :: 0 <= j < i ==> specs[j].name in pluginNames;
      pluginNames := pluginNames + {specs[i].name};
      if specs[i].kind !in registry {
        return false;
      }
      if specs[i].made.None? {
        return false;
      }
      handle.AddPlugin(specs[i].name, specs[i].made.value);
      InstantiableExtends(specs, registry, i);
      InstalledExtends(old(handle.plugins), specs, i);
    }
    assert specs[..|specs|] == specs;
    return true;
  }

  predicate IsScheduling(p: Plugin) {
    p.filter || p.picker || p.postCycle || p.scorer
  }

  /** The profiles before their own defaults: those given, or one that refers to every scheduling plugin once. */
  predicate BaseProfiles(plugins: Plugins, given: seq<Profile>, base: seq<Profile>) {
    if given != [] then base == given else
      && |base| == 1 && base[0].name == "default"
      && (forall i :: 0 <= i < |base[0].plugins| ==>
           base[0].plugins[i].weight.None? && base[0].plugins[i].ref in plugins
           && IsScheduling(plugins[base[0].plugins[i].ref]))
      && (forall n :: n in plugins && IsScheduling(plugins[n]) ==> PluginRef(n, None) in base[0].plugins)
      && (forall i, j :: 0 <= i < j < |base[0].plugins| ==> base[0].plugins[i].ref != base[0].plugins[j].ref)
  }

  /** The loop over all plugins, in whatever order the map yields them. */
  method DefaultProfile(plugins: Plugins) returns (p: Profile)
    ensures BaseProfiles(plugins, [], [p])
    ensures p.name == "default"
    ensures forall n :: PluginRef(n, None) in p.plugins <==>
              n in plugins && (plugins[n].filter || plugins[n].picker || plugins[n].postCycle || plugins[n].scorer)
  {
    var refs: seq<PluginRef> := [];
    var todo := plugins.Keys;
    while todo != {}
      invariant todo <= plugins.Keys
      invariant forall i :: 0 <= i < |refs| ==>
                  refs[i].weight.None? && refs[i].ref in plugins && IsScheduling(plugins[refs[i].ref])
      invariant forall n :: n in plugins && n !in todo && IsScheduling(plugins[n]) ==> PluginRef(n, None) in refs
      invariant forall i :: 0 <= i < |refs| ==> refs[i].ref !in todo
      invariant forall i, j :: 0 <= i < j < |refs| ==> refs[i].ref != refs[j].ref
      decreases todo
    {
      var n :| n in todo;
      todo := todo - {n};
      if IsScheduling(plugins[n]) {
        refs := refs + [PluginRef(n, None)];
      }
    }
    p := Profile("default", refs);
  }

  /** The final loop of the second phase, over the profiles. */
  method DefaultProfiles(plugins: Plugins, base: seq<Profile>, pickerName: string) returns (out: seq<Profile>)
    ensures |out| == |base|
    ensures forall i :: 0 <= i < |base| ==>
              out[i] == Profile(base[i].name, DefaultedRefs(plugins, base[i].plugins, pickerName))
  {
    out := [];
    for i := 0 to |base|
      invariant |out| == i
      invariant forall j :: 0 <= j < i ==>
                  out[j] == Profile(base[j].name, DefaultedRefs(plugins, base[j].plugins, pickerName))
    {
      var refs := DefaultRefs(plugins, base[i].plugins, pickerName);
      out := out + [Profile(base[i].name, refs)];
    }
  }

  method DefaultRefs(plugins: Plugins, given: seq<PluginRef>, pickerName: string) returns (refs: seq<PluginRef>)
    ensures refs == DefaultedRefs(plugins, given, pickerName)
    ensures |given| <= |refs| <= |given| + 1
    ensures forall i :: 0 <= i < |given| ==>
              && refs[i].ref == given[i].ref
              && (given[i].weight.Some? ==> refs[i].weight == given[i].weight)
              && (given[i].weight.None? ==> refs[i].weight in {None, Some(1)})
    ensures |refs| == |given| + 1 ==> refs[|given|] == PluginRef(pickerName, None)
  {
    refs := given;
    var hasPicker := false;
    var i := 0;
    while i < |given|
      invariant 0 <= i <= |given| == |refs|
      invariant forall j :: 0 <= j < |given| ==> refs[j] == if j < i then Weighted(plugins, given[j]) else given[j]
      invariant BreakIndex(plugins, given) == i + BreakIndex(plugins, given[i..])
    {
      assert given[i..][1..] == given[i + 1..];
      if Unweighted(plugins, given[i]) {
        refs := refs[i := given[i].(weight := Some(DEFAULT_SCORER_WEIGHT))];
      } else if IsPicker(plugins, given[i]) {
        hasPicker := true;
        break;
      }
      i := i + 1;
    }
    assert BreakIndex(plugins, given) == i;
    if !hasPicker {
      refs := refs + [PluginRef(pickerName, None)];
    }
  }

  // ---------- The second phase ----------

  predicate HandlerMissing(plugins: Plugins, profileCount: nat) {
    profileCount == 1 && forall n :: n in plugins ==> !plugins[n].profileHandler
  }

  function WithHandler(plugins: Plugins, profileCount: nat): Plugins {
    if HandlerMissing(plugins, profileCount) then plugins[SINGLE_PROFILE_HANDLER := SingleProfileHandler()] else plugins
  }

  function BuiltIn(name: string): PluginSpec {
    PluginSpec(name, name, None)
  }

  function AddedHandler(plugins: Plugins, profileCount: nat): seq<PluginSpec> {
    if HandlerMissing(plugins, profileCount) then [BuiltIn(SINGLE_PROFILE_HANDLER)] else []
  }

  /** The picker for profiles without one: a picker there is, or the default one added. */
  datatype Choice = Existing(name: string) | Added

  /** Any picker may come first in the order of the map; one with the empty name counts as none. */
  predicate MayChoose(available: Plugins, c: Choice) {
    match c
    case Existing(n) => n != "" && n in available && available[n].picker
    case Added => (forall n :: n in available ==> !available[n].picker) || ("" in available && available[""].picker)
  }

  function PickerName(c: Choice): string {
    if c.Existing? then c.name else MAX_SCORE_PICKER
  }

  function WithPicker(available: Plugins, c: Choice): Plugins {
    if c.Existing? then available else available[MAX_SCORE_PICKER := MaxScorePicker()]
  }

  function AddedPicker(c: Choice): seq<PluginSpec> {
    if c.Existing? then [] else [BuiltIn(MAX_SCORE_PICKER)]
  }

  /** The base profiles and the picker that some order of the maps leads to. */
  predicate Possible(instantiated: Plugins, given: RawConfig, base: seq<Profile>, c: Choice) {
    BaseProfiles(instantiated, given.profiles, base) && MayChoose(WithHandler(instantiated, |base|), c)
  }

  function FinalPlugins(instantiated: Plugins, profileCount: nat, c: Choice): Plugins {
    WithPicker(WithHandler(instantiated, profileCount), c)
  }

  function FinalSpecs(instantiated: Plugins, given: seq<PluginSpec>, profileCount: nat, c: Choice): seq<PluginSpec> {
    given + AddedHandler(instantiated, profileCount) + AddedPicker(c)
  }

  function DefaultedProfiles(plugins: Plugins, base: seq<Profile>, pickerName: string): seq<Profile> {
    seq(|base|, i requires 0 <= i < |base| =>
      Profile(base[i].name, DefaultedRefs(plugins, base[i].plugins, pickerName)))
  }

  /** The configuration after the second phase. */
  function FinalConfig(instantiated: Plugins, given: RawConfig, base: seq<Profile>, c: Choice): RawConfig {
    RawConfig(FinalSpecs(instantiated, given.plugins, |base|, c),
              DefaultedProfiles(FinalPlugins(instantiated, |base|, c), base, PickerName(c)))
  }

  method ChoosePicker(handle: Handle) returns (maxScorePicker: string, added: seq<PluginSpec>, ghost c: Choice)
    modifies handle
    ensures MayChoose(old(handle.plugins), c) && handle.plugins == WithPicker(old(handle.plugins), c)
    ensures maxScorePicker == PickerName(c) && added == AddedPicker(c)
  {
    maxScorePicker, added := "", [];
    if exists n :: n in handle.plugins && handle.plugins[n].picker {
      maxScorePicker :| maxScorePicker in handle.plugins && handle.plugins[maxScorePicker].picker;
    }
    c := Existing(maxScorePicker);
    if maxScorePicker == "" {
      handle.AddPlugin(MAX_SCORE_PICKER, MaxScorePicker());
      maxScorePicker, added := MAX_SCORE_PICKER, [BuiltIn(MAX_SCORE_PICKER)];
      c := Added;
    }
  }

  /** Adds the default profile, profile handler and picker where they are missing, then fills in every profile. */
  method SetDefaultsPhaseTwo(cfg: RawConfig, handle: Handle)
    returns (out: RawConfig, ghost base: seq<Profile>, ghost c: Choice)
    modifies handle
    ensures Possible(old(handle.plugins), cfg, base, c)
    ensures handle.plugins == FinalPlugins(old(handle.plugins), |base|, c)
    ensures out == FinalConfig(old(handle.plugins), cfg, base, c)
  {
    var profiles := cfg.profiles;
    var specs := cfg.plugins;
    if |profiles| == 0 {
      var p := DefaultProfile(handle.plugins);
      profiles := [p];
    }
    base := profiles;
    if |profiles| == 1 {
      if forall n :: n in handle.plugins ==> !handle.plugins[n].profileHandler {
        handle.AddPlugin(SINGLE_PROFILE_HANDLER, SingleProfileHandler());
        specs := specs + [BuiltIn(SINGLE_PROFILE_HANDLER)];
      }
    }
    var maxScorePicker, added;
    maxScorePicker, added, c := ChoosePicker(handle);
    var defaulted := DefaultProfiles(handle.plugins, profiles, maxScorePicker);
    out := RawConfig(specs + added, defaulted);
    assert out.plugins == FinalSpecs(old(handle.plugins), cfg.plugins, |base|, c);
  }

  predicate AllInstantiated(plugins: Plugins, specs: seq<PluginSpec>) {
    forall i :: 0 <= i < |specs| ==> specs[i].name in plugins
  }

  /** Every plugin the defaulted configuration lists is instantiated, and the chosen picker is a picker. */
  lemma FinalSpecsAreInstantiated(instantiated: Plugins, given: RawConfig, base: seq<Profile>, c: Choice)
    requires Possible(instantiated, given, base, c) && AllInstantiated(instantiated, given.plugins)
    ensures var plugins := FinalPlugins(instantiated, |base|, c);
      && AllInstantiated(plugins, FinalConfig(instantiated, given, base, c).plugins)
      && PickerName(c) in plugins && plugins[PickerName(c)].picker && PickerName(c) != ""
  {
    var plugins := FinalPlugins(instantiated, |base|, c);
    assert AllInstantiated(plugins, given.plugins) && AllInstantiated(plugins, AddedHandler(instantiated, |base|))
           && AllInstantiated(plugins, AddedPicker(c));
  }

  /**
   The handle after the second phase: a lone profile without any handler gets the single profile handler, configurations
   without a picker get the default one, and every other plugin stays what it was.
   */
  lemma FinalPluginsAre(instantiated: Plugins, given: RawConfig, base: seq<Profile>, c: Choice, n: string)
    requires Possible(instantiated, given, base, c)
    ensures var plugins := FinalPlugins(instantiated, |base|, c);
      var handlerAdded := |base| == 1 && forall m :: m in instantiated ==> !instantiated[m].profileHandler;
      && (n == MAX_SCORE_PICKER && c == Added ==> n in plugins && plugins[n] == MaxScorePicker())
      && (n == SINGLE_PROFILE_HANDLER && handlerAdded ==> n in plugins && plugins[n] == SingleProfileHandler())
      && (!(n == MAX_SCORE_PICKER && c == Added) && !(n == SINGLE_PROFILE_HANDLER && handlerAdded) ==>
           (n in plugins <==> n in instantiated) && (n in instantiated ==> plugins[n] == instantiated[n]))
  {
    assert |MAX_SCORE_PICKER| == 16 && |SINGLE_PROFILE_HANDLER| == 22;
  }

  /** With no picker at all the default one is added; with a named picker and none without a name, it never is. */
  lemma WhenThePickerIsAdded(available: Plugins, c: Choice)
    requires MayChoose(available, c)
    ensures (forall n :: n in available ==> !available[n].picker) ==> c == Added
    ensures (exists n :: n in available && available[n].picker) && (forall n :: n in available && available[n].picker ==> n != "")
            ==> c.Existing? && c.name in available && available[c.name].picker
  {
  }

  // ---------- Validation ----------

  /** Profile names are distinct and non-empty, and every reference names a configured plugin. */
  predicate ProfilesValid(cfg: RawConfig) {
    && (forall i :: 0 <= i < |cfg.profiles| ==> cfg.profiles[i].name != "")
    && (forall i, j :: 0 <= i < j < |cfg.profiles| ==> cfg.profiles[i].name != cfg.profiles[j].name)
    && (forall i :: 0 <= i < |cfg.profiles| ==> RefsDefined(cfg.plugins, cfg.profiles[i].plugins))
  }

  predicate RefsDefined(specs: seq<PluginSpec>, refs: seq<PluginRef>) {
    forall j :: 0 <= j < |refs| ==> refs[j].ref != "" && Defined(specs, refs[j].ref)
  }

  predicate Defined(specs: seq<PluginSpec>, name: string) {
    exists k :: 0 <= k < |specs| && specs[k].name == name
  }

  method ValidateSchedulingProfiles(cfg: RawConfig) returns (ok: bool)
    ensures ok <==> ProfilesValid(cfg)
  {
    var profileNames: set<string> := {};
    for i := 0 to |cfg.profiles|
      invariant forall p :: p in profileNames <==> exists j :: 0 <= j < i && cfg.profiles[j].name == p
      invariant forall j :: 0 <= j < i ==> cfg.profiles[j].name != "" && RefsDefined(cfg.plugins, cfg.profiles[j].plugins)
      invariant forall j, k :: 0 <= j < k < i ==> cfg.profiles[j].name != cfg.profiles[k].name
    {
      var profile := cfg.profiles[i];
      if profile.name == "" {
        return false;
      }
      if profile.name in profileNames {
        return false;
      }
      profileNames := profileNames + {profile.name};
      var refsOk := ValidateRefs(cfg.plugins, profile.plugins);
      if !refsOk {
        return false;
      }
    }
    return true;
  }

  method ValidateRefs(specs: seq<PluginSpec>, refs: seq<PluginRef>) returns (ok: bool)
    ensures ok <==> RefsDefined(specs, refs)
  {
    for j := 0 to |refs|
      invariant RefsDefined(specs, refs[..j])
    {
      if |refs[j].ref| == 0 {
        return false;
      }
      var notFound := true;
      for k := 0 to |specs|
        invariant notFound
        invariant forall l :: 0 <= l < k ==> specs[l].name != refs[j].ref
      {
        if refs[j].ref == specs[k].name {
          notFound := false;
          break;
        }
      }
      if notFound {
        assert !Defined(specs, refs[j].ref);
        return false;
      }
      assert refs[..j + 1] == refs[..j] + [refs[j]];
    }
    assert refs[..|refs|] == refs;
    return true;
  }

  /** Validation resolves every reference to an instantiated plugin. */
  lemma ValidReferencesResolve(plugins: Plugins, cfg: RawConfig)
    requires ProfilesValid(cfg) && AllInstantiated(plugins, cfg.plugins)
    ensures forall i :: 0 <= i < |cfg.profiles| ==> Resolved(plugins, cfg.profiles[i].plugins)
  {
    forall i, j | 0 <= i < |cfg.profiles| && 0 <= j < |cfg.profiles[i].plugins|
      ensures cfg.profiles[i].plugins[j].ref in plugins
    {
      assert RefsDefined(cfg.plugins, cfg.profiles[i].plugins);
      assert Defined(cfg.plugins, cfg.profiles[i].plugins[j].ref);
    }
  }

  predicate Resolved(plugins: Plugins, refs: seq<PluginRef>) {
    forall i :: 0 <= i < |refs| ==> refs[i].ref in plugins
  }
}
