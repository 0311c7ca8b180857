/** One scheduling profile of the endpoint-picker configuration: its defaults, and how it is built from its references. */
module ConfigProfiles {
  import opened Sequences
  import opened Wrappers

  /** An instantiated plugin, by the scheduling interfaces it implements. */
  datatype Plugin = Plugin(id: string, filter: bool, scorer: bool, picker: bool, postCycle: bool, profileHandler: bool)

  /** `made` is what the factory of the plugin's type returns for this entry, if it does not fail. */
  datatype PluginSpec = PluginSpec(name: string, kind: string, made: Option<Plugin>)
  datatype PluginRef = PluginRef(ref: string, weight: Option<int>)
  datatype Profile = Profile(name: string, plugins: seq<PluginRef>)
  datatype RawConfig = RawConfig(plugins: seq<PluginSpec>, profiles: seq<Profile>)

  type Plugins = map<string, Plugin>

  const SINGLE_PROFILE_HANDLER := "single-profile-handler"
  const MAX_SCORE_PICKER := "max-score-picker"
  const DEFAULT_SCORER_WEIGHT := 1

  function SingleProfileHandler(): Plugin {
    Plugin(SINGLE_PROFILE_HANDLER, false, false, false, false, true)
  }

  function MaxScorePicker(): Plugin {
    Plugin(MAX_SCORE_PICKER, false, false, true, false, false)
  }

  predicate IsScorer(plugins: Plugins, ref: PluginRef) {
    ref.ref in plugins && plugins[ref.ref].scorer
  }

  predicate IsPicker(plugins: Plugins, ref: PluginRef) {
    ref.ref in plugins && plugins[ref.ref].picker
  }

  // ---------- Defaults of one profile ----------

  /** The entry gets the default weight; such an entry is not looked at as a picker. */
  predicate Unweighted(plugins: Plugins, ref: PluginRef) {
    IsScorer(plugins, ref) && ref.weight.None?
  }

  /** Where the loop over a profile's plugins breaks: at the first picker it recognises, or never. */
  function BreakIndex(plugins: Plugins, refs: seq<PluginRef>): (i: nat)
    ensures i <= |refs|
  {
    if refs == [] then 0
    else if !Unweighted(plugins, refs[0]) && IsPicker(plugins, refs[0]) then 0
    else 1 + BreakIndex(plugins, refs[1..])
  }

  function Weighted(plugins: Plugins, ref: PluginRef): PluginRef {
    if Unweighted(plugins, ref) then ref.(weight := Some(DEFAULT_SCORER_WEIGHT)) else ref
  }

  /** A profile's plugins after the second phase: weights filled in up to the break, a picker appended if none was found. */
  function DefaultedRefs(plugins: Plugins, refs: seq<PluginRef>, pickerName: string): seq<PluginRef> {
    var k := BreakIndex(plugins, refs);
    seq(|refs|, i requires 0 <= i < |refs| => if i < k then Weighted(plugins, refs[i]) else refs[i])
    + if k < |refs| then [] else [PluginRef(pickerName, None)]
  }

  lemma {:induction false} BreaksAtAPicker(plugins: Plugins, refs: seq<PluginRef>)
    ensures var k := BreakIndex(plugins, refs);
      k < |refs| ==> IsPicker(plugins, refs[k]) && !Unweighted(plugins, refs[k])
    decreases |refs|
  {
    if refs != [] {
      BreaksAtAPicker(plugins, refs[1..]);
    }
  }

  /** Every defaulted profile has a picker. */
  lemma DefaultedRefsHaveAPicker(plugins: Plugins, refs: seq<PluginRef>, pickerName: string)
    requires pickerName in plugins && plugins[pickerName].picker
    ensures exists i :: 0 <= i < |DefaultedRefs(plugins, refs, pickerName)|
                        && IsPicker(plugins, DefaultedRefs(plugins, refs, pickerName)[i])
  {
    BreaksAtAPicker(plugins, refs);
    var k := BreakIndex(plugins, refs);
    var out := DefaultedRefs(plugins, refs, pickerName);
    assert IsPicker(plugins, out[if k < |refs| then k else |refs|]);
  }

  /**
   The second phase gives every scorer of a profile a weight if and only if no unweighted scorer stands behind the picker
   the loop breaks at, and the picker it appends, if any, is not itself a scorer.
   */
  lemma AllScorersWeightedIff(plugins: Plugins, refs: seq<PluginRef>, pickerName: string)
    requires pickerName in plugins
    ensures (forall i :: 0 <= i < |DefaultedRefs(plugins, refs, pickerName)| ==>
               !Unweighted(plugins, DefaultedRefs(plugins, refs, pickerName)[i]))
            <==> && (forall i :: BreakIndex(plugins, refs) < i < |refs| ==> !Unweighted(plugins, refs[i]))
                 && (BreakIndex(plugins, refs) < |refs| || !plugins[pickerName].scorer)
  {
    BreaksAtAPicker(plugins, refs);
    var k, out := BreakIndex(plugins, refs), DefaultedRefs(plugins, refs, pickerName);
    assert forall i :: 0 <= i < |refs| ==> out[i] == if i < k then Weighted(plugins, refs[i]) else refs[i];
    if forall i :: 0 <= i < |out| ==> !Unweighted(plugins, out[i]) {
      forall i | k < i < |refs| ensures !Unweighted(plugins, refs[i]) {
        assert out[i] == refs[i];
      }
      if k == |refs| {
        assert !Unweighted(plugins, out[k]);
      }
    }
  }

  /** In particular the promise that all scorers get a weight fails for a picker listed before an unweighted scorer. */
  lemma ScorerBehindPickerStaysUnweighted(plugins: Plugins, refs: seq<PluginRef>, pickerName: string, i: nat, j: nat)
    requires i < j < |refs| && Unweighted(plugins, refs[j])
    requires IsPicker(plugins, refs[i]) && !Unweighted(plugins, refs[i])
    ensures |DefaultedRefs(plugins, refs, pickerName)| == |refs|
    ensures DefaultedRefs(plugins, refs, pickerName)[j] == refs[j]
  {
    BreaksByThen(plugins, refs, i);
  }

  lemma {:induction false} BreaksByThen(plugins: Plugins, refs: seq<PluginRef>, i: nat)
    requires i < |refs| && IsPicker(plugins, refs[i]) && !Unweighted(plugins, refs[i])
    ensures BreakIndex(plugins, refs) <= i
    decreases |refs|
  {
    if i > 0 {
      BreaksByThen(plugins, refs[1..], i - 1);
    }
  }

  /** Every reference has its weight if it needs one, and at most one names a picker. */
  predicate Buildable(plugins: Plugins, refs: seq<PluginRef>) {
    && (forall i :: 0 <= i < |refs| ==> !Unweighted(plugins, refs[i]))
    && AtMostOnePicker(plugins, refs)
  }

  predicate AtMostOnePicker(plugins: Plugins, refs: seq<PluginRef>) {
    forall i, j :: 0 <= i < j < |refs| ==> !(IsPicker(plugins, refs[i]) && IsPicker(plugins, refs[j]))
  }

  /**
   A profile as it was written, before its own defaults: no unweighted scorer behind the picker the loop breaks at, no
   other picker, and an appended picker that needs no weight.
   */
  predicate WellPicked(plugins: Plugins, refs: seq<PluginRef>, pickerName: string)
    requires pickerName in plugins
  {
    && (forall i :: BreakIndex(plugins, refs) < i < |refs| ==> !Unweighted(plugins, refs[i]))
    && (BreakIndex(plugins, refs) < |refs| || !plugins[pickerName].scorer)
    && (forall i :: 0 <= i < |refs| && i != BreakIndex(plugins, refs) ==> !IsPicker(plugins, refs[i]))
  }

  /** Which profiles survive defaulting and building. */
  lemma ProfileBuildsIff(plugins: Plugins, refs: seq<PluginRef>, pickerName: string)
    requires pickerName in plugins && plugins[pickerName].picker
    ensures Buildable(plugins, DefaultedRefs(plugins, refs, pickerName)) <==> WellPicked(plugins, refs, pickerName)
  {
    AllScorersWeightedIff(plugins, refs, pickerName);
    BreaksAtAPicker(plugins, refs);
    var k, out := BreakIndex(plugins, refs), DefaultedRefs(plugins, refs, pickerName);
    assert IsPicker(plugins, out[k]);
    forall i | 0 <= i < |refs| ensures IsPicker(plugins, out[i]) == IsPicker(plugins, refs[i]) {
      assert out[i].ref == refs[i].ref;
    }
    if Buildable(plugins, out) {
      forall i | 0 <= i < |refs| && i != k ensures !IsPicker(plugins, refs[i]) {
        assert IsPicker(plugins, out[i]) == IsPicker(plugins, refs[i]);
      }
    }
  }

  // ---------- Building profiles ----------

  datatype LoadedProfile = LoadedProfile(
    filters: seq<Plugin>,
    scorers: seq<(Plugin, int)>,
    picker: Option<Plugin>,
    postCyclePlugins: seq<Plugin>)

  function With(p: LoadedProfile, plugin: Plugin, weight: Option<int>): LoadedProfile
    requires plugin.scorer ==> weight.Some?
  {
    LoadedProfile(
      p.filters + if plugin.filter then [plugin] else [],
      p.scorers + if plugin.scorer then [(plugin, weight.value)] else [],
      if plugin.picker then Some(plugin) else p.picker,
      p.postCyclePlugins + if plugin.postCycle then [plugin] else [])
  }

  /** A scheduler profile under construction. */
  class SchedulerProfile {
    var filters: seq<Plugin>
    var scorers: seq<(Plugin, int)>
    var picker: Option<Plugin>
    var postCyclePlugins: seq<Plugin>

    function Contents(): LoadedProfile
      reads this
    {
      LoadedProfile(filters, scorers, picker, postCyclePlugins)
    }

    constructor ()
      ensures filters == [] && scorers == [] && picker == None && postCyclePlugins == []
    {
      filters, scorers, picker, postCyclePlugins := [], [], None, [];
    }

    /** Adds a plugin to every slot it fits; fails on a scorer without a weight and on a second picker. */
    method AddPlugin(p: Plugin, weight: Option<int>) returns (ok: bool)
      modifies this
      ensures ok <==> !(p.scorer && weight.None?) && !(p.picker && old(picker).Some?)
      ensures ok ==> Contents() == With(old(Contents()), p, weight)
    {
      if p.scorer {
        if weight.None? {
          return false;
        }
        scorers := scorers + [(p, weight.value)];
      }
      if p.filter {
        filters := filters + [p];
      }
      if p.picker {
        if picker.Some? {
          return false;
        }
        picker := Some(p);
      }
      if p.postCycle {
        postCyclePlugins := postCyclePlugins + [p];
      }
      return true;
    }
  }

  /** `Panicked` is the dereference of a weight that was never set. */
  datatype Outcome<T> = Loaded(value: T) | Failed | Panicked

  datatype Slot = FilterSlot | PickerSlot | PostCycleSlot

  predicate Fits(p: Plugin, slot: Slot) {
    match slot
    case FilterSlot => p.filter
    case PickerSlot => p.picker
    case PostCycleSlot => p.postCycle
  }

  function Chosen(plugins: Plugins, refs: seq<PluginRef>, slot: Slot): seq<Plugin>
    requires forall i :: 0 <= i < |refs| ==> refs[i].ref in plugins
  {
    if refs == [] then [] else
      var last := |refs| - 1;
      Chosen(plugins, refs[..last], slot) + if Fits(plugins[refs[last].ref], slot) then [plugins[refs[last].ref]] else []
  }

  function Scored(plugins: Plugins, refs: seq<PluginRef>): seq<(Plugin, int)>
    requires forall i :: 0 <= i < |refs| ==> refs[i].ref in plugins && !Unweighted(plugins, refs[i])
  {
    if refs == [] then [] else
      var last := |refs| - 1;
      assert !Unweighted(plugins, refs[last]);
      Scored(plugins, refs[..last])
      + if plugins[refs[last].ref].scorer then [(plugins[refs[last].ref], refs[last].weight.value)] else []
  }

  function Held(p: Option<Plugin>): seq<Plugin> {
    if p.Some? then [p.value] else []
  }

  /** The profile holds, slot by slot and in order, exactly the plugins its references name, and at most one picker. */
  predicate Builds(plugins: Plugins, refs: seq<PluginRef>, p: LoadedProfile) {
    && (forall i :: 0 <= i < |refs| ==> refs[i].ref in plugins && !Unweighted(plugins, refs[i]))
    && p.filters == Chosen(plugins, refs, FilterSlot)
    && p.scorers == Scored(plugins, refs)
    && Chosen(plugins, refs, PickerSlot) == Held(p.picker)
    && p.postCyclePlugins == Chosen(plugins, refs, PostCycleSlot)
  }

  /** What the loop over a profile's references has built so far. */
  predicate BuiltSoFar(plugins: Plugins, refs: seq<PluginRef>, p: LoadedProfile) {
    && Buildable(plugins, refs) && Builds(plugins, refs, p)
    && (p.picker.Some? <==> exists j :: 0 <= j < |refs| && IsPicker(plugins, refs[j]))
  }

  lemma BuildsOneMore(plugins: Plugins, refs: seq<PluginRef>, i: nat, p: LoadedProfile)
    requires i < |refs| && BuiltSoFar(plugins, refs[..i], p)
    requires refs[i].ref in plugins && !Unweighted(plugins, refs[i])
    requires !(IsPicker(plugins, refs[i]) && p.picker.Some?)
    ensures BuiltSoFar(plugins, refs[..i + 1], With(p, plugins[refs[i].ref], refs[i].weight))
  {
    var before, more := refs[..i], refs[..i + 1];
    assert more[..i] == before;
    assert forall k :: 0 <= k < |more| ==> more[k] == if k < i then before[k] else refs[i];
    assert IsPicker(plugins, refs[i]) ==> IsPicker(plugins, more[i]);
    if p.picker.Some? {
      var j :| 0 <= j < i && IsPicker(plugins, before[j]);
      assert IsPicker(plugins, more[j]);
    }
  }

  /** The weight of reference `i` is dereferenced, and it has none. */
  predicate PanicsAt(plugins: Plugins, refs: seq<PluginRef>, i: nat)
    requires i < |refs|
  {
    Unweighted(plugins, refs[i]) && Buildable(plugins, refs[..i])
  }

  predicate Panics(plugins: Plugins, refs: seq<PluginRef>) {
    exists i: nat :: i < |refs| && PanicsAt(plugins, refs, i)
  }

  /** A scorer without a weight at `i` stops the profile from being built. */
  lemma UnweightedStops(plugins: Plugins, refs: seq<PluginRef>, i: nat)
    requires i < |refs| && PanicsAt(plugins, refs, i)
    ensures !Buildable(plugins, refs) && Panics(plugins, refs)
  {
  }

  /** A second picker at `i` stops the profile from being built before any weight is missed. */
  lemma SecondPickerStops(plugins: Plugins, refs: seq<PluginRef>, i: nat, p: LoadedProfile)
    requires i < |refs| && BuiltSoFar(plugins, refs[..i], p) && !Unweighted(plugins, refs[i])
    requires IsPicker(plugins, refs[i]) && p.picker.Some?
    ensures !Buildable(plugins, refs) && !Panics(plugins, refs)
  {
    var j :| 0 <= j < i && IsPicker(plugins, refs[..i][j]);
    assert IsPicker(plugins, refs[j]);
    forall k: nat | k < |refs| ensures !PanicsAt(plugins, refs, k) {
      if k < i {
        assert refs[..i][k] == refs[k];
      } else if k > i {
        assert refs[..k][j] == refs[j] && refs[..k][i] == refs[i];
      }
    }
  }

  /** The inner loop of profile building, reached only with references that validation has resolved. */
  method BuildProfile(plugins: Plugins, refs: seq<PluginRef>) returns (r: Outcome<LoadedProfile>)
    requires forall i :: 0 <= i < |refs| ==> refs[i].ref in plugins
    ensures r.Loaded? <==> Buildable(plugins, refs)
    ensures r.Loaded? ==> Builds(plugins, refs, r.value)
    ensures r.Panicked? <==> Panics(plugins, refs)
  {
    var profile := new SchedulerProfile();
    for i := 0 to |refs|
      invariant BuiltSoFar(plugins, refs[..i], profile.Contents())
    {
      var referenced := plugins[refs[i].ref];
      if referenced.scorer && refs[i].weight.None? {
        UnweightedStops(plugins, refs, i);
        return Panicked;
      }
      ghost var before := profile.Contents();
      var ok := profile.AddPlugin(referenced, refs[i].weight);
      if !ok {
        SecondPickerStops(plugins, refs, i, before);
        return Failed;
      }
      BuildsOneMore(plugins, refs, i, before);
    }
    assert refs[..|refs|] == refs;
    return Loaded(profile.Contents());
  }

  // ---------- When a profile as written panics ----------

  /**
   A profile as it was written leads to a missing weight: an unweighted scorer behind the picker the loop breaks at, or
   an appended picker that is a scorer, with no second picker before it.
   */
  predicate MissesWeight(plugins: Plugins, refs: seq<PluginRef>, pickerName: string)
    requires pickerName in plugins
  {
    var k := BreakIndex(plugins, refs);
    || (exists j :: k < j < |refs| && Unweighted(plugins, refs[j]) && AtMostOnePicker(plugins, refs[..j]))
    || (k == |refs| && plugins[pickerName].scorer && AtMostOnePicker(plugins, refs))
  }

  lemma DefaultingKeepsPickers(plugins: Plugins, refs: seq<PluginRef>, pickerName: string, j: nat)
    requires j <= |refs|
    ensures AtMostOnePicker(plugins, DefaultedRefs(plugins, refs, pickerName)[..j]) <==> AtMostOnePicker(plugins, refs[..j])
  {
    var out := DefaultedRefs(plugins, refs, pickerName)[..j];
    forall i | 0 <= i < j ensures IsPicker(plugins, out[i]) == IsPicker(plugins, refs[..j][i]) {
      assert out[i].ref == refs[i].ref;
    }
  }

  lemma DefaultedRefsAt(plugins: Plugins, refs: seq<PluginRef>, pickerName: string, i: nat)
    requires i < |DefaultedRefs(plugins, refs, pickerName)|
    ensures Unweighted(plugins, DefaultedRefs(plugins, refs, pickerName)[i])
            <==> if i < |refs| then BreakIndex(plugins, refs) < i && Unweighted(plugins, refs[i])
                 else pickerName in plugins && plugins[pickerName].scorer
  {
    BreaksAtAPicker(plugins, refs);
  }

  /** The first missing weight at or before `j`. */
  lemma {:induction false} FirstUnweighted(plugins: Plugins, refs: seq<PluginRef>, j: nat)
    requires j < |refs| && Unweighted(plugins, refs[j]) && AtMostOnePicker(plugins, refs[..j])
    ensures Panics(plugins, refs)
    decreases j
  {
    if i :| 0 <= i < j && Unweighted(plugins, refs[i]) {
      assert forall k :: 0 <= k < i ==> refs[..i][k] == refs[..j][k];
      FirstUnweighted(plugins, refs, i);
    } else {
      assert forall k :: 0 <= k < j ==> refs[..j][k] == refs[k];
      assert PanicsAt(plugins, refs, j);
    }
  }

  /** A defaulted profile panics if and only if the profile as written misses a weight. */
  lemma ProfilePanicsIff(plugins: Plugins, refs: seq<PluginRef>, pickerName: string)
    requires pickerName in plugins
    ensures Panics(plugins, DefaultedRefs(plugins, refs, pickerName)) <==> MissesWeight(plugins, refs, pickerName)
  {
    var k, out := BreakIndex(plugins, refs), DefaultedRefs(plugins, refs, pickerName);
    assert refs[..|refs|] == refs;
    if Panics(plugins, out) {
      var j: nat :| j < |out| && PanicsAt(plugins, out, j);
      DefaultedRefsAt(plugins, refs, pickerName, j);
      DefaultingKeepsPickers(plugins, refs, pickerName, j);
    }
    if MissesWeight(plugins, refs, pickerName) {
      var j := |refs|;
      if i :| k < i < |refs| && Unweighted(plugins, refs[i]) && AtMostOnePicker(plugins, refs[..i]) {
        j := i;
      }
      DefaultedRefsAt(plugins, refs, pickerName, j);
      DefaultingKeepsPickers(plugins, refs, pickerName, j);
      FirstUnweighted(plugins, out, j);
    }
  }

  // ---------- Weights as written ----------

  /** A reference after defaulting: its name is kept, and so is a weight that was written. */
  lemma {:induction false} DefaultingKeepsWhatIsWritten(plugins: Plugins, refs: seq<PluginRef>, pickerName: string, i: nat)
    requires i < |refs|
    ensures i < |DefaultedRefs(plugins, refs, pickerName)|
    ensures var d := DefaultedRefs(plugins, refs, pickerName)[i];
      && d.ref == refs[i].ref
      && (refs[i].weight.Some? ==> d.weight == refs[i].weight)
      && (refs[i].weight.None? ==>
           d.weight == if i < BreakIndex(plugins, refs) && refs[i].ref in plugins && plugins[refs[i].ref].scorer
                       then Some(1) else None)
  {
    var k, out := BreakIndex(plugins, refs), DefaultedRefs(plugins, refs, pickerName);
    assert out[i] == if i < k then Weighted(plugins, refs[i]) else refs[i];
  }

  /** The loop breaks at the first reference to a picker that is not at the same time a scorer without a weight. */
  lemma {:induction false} BreaksAtTheFirstPicker(plugins: Plugins, refs: seq<PluginRef>, k: nat)
    requires k <= |refs|
    ensures BreakIndex(plugins, refs) == k <==>
            && (forall i :: 0 <= i < k ==> !Recognised(plugins, refs[i]))
            && (k < |refs| ==> Recognised(plugins, refs[k]))
    decreases |refs|
  {
    if refs != [] {
      var rest := refs[1..];
      assert forall i :: 0 <= i < |rest| ==> rest[i] == refs[i + 1];
      if k > 0 {
        BreaksAtTheFirstPicker(plugins, rest, k - 1);
        if forall i :: 0 <= i < k ==> !Recognised(plugins, refs[i]) {
          assert forall i :: 0 <= i < k - 1 ==> !Recognised(plugins, rest[i]);
        }
        if !Recognised(plugins, refs[0]) && forall i :: 0 <= i < k - 1 ==> !Recognised(plugins, rest[i]) {
          assert forall i :: 0 <= i < k ==> refs[i] == if i == 0 then refs[0] else rest[i - 1];
        }
      }
    }
  }

  predicate Recognised(plugins: Plugins, ref: PluginRef) {
    ref.ref in plugins && plugins[ref.ref].picker && !(plugins[ref.ref].scorer && ref.weight.None?)
  }

  /** The scorers of a profile in order, each with the weight that was written for it, or 1. */
  function ScorersAsWritten(plugins: Plugins, refs: seq<PluginRef>): seq<(Plugin, int)>
    requires forall i :: 0 <= i < |refs| ==> refs[i].ref in plugins
  {
    if refs == [] then [] else
      var last := refs[|refs| - 1];
      ScorersAsWritten(plugins, refs[..|refs| - 1])
      + if plugins[last.ref].scorer then [(plugins[last.ref], if last.weight.Some? then last.weight.value else 1)] else []
  }

  /** `more` are the same references, with the missing weights of scorers filled in. */
  predicate FilledIn(plugins: Plugins, refs: seq<PluginRef>, more: seq<PluginRef>) {
    && |more| == |refs|
    && forall i :: 0 <= i < |refs| ==>
         && more[i].ref == refs[i].ref && more[i].ref in plugins
         && (plugins[more[i].ref].scorer ==> more[i].weight == if refs[i].weight.Some? then refs[i].weight else Some(1))
  }

  lemma {:induction false} ScoredAsFilledIn(plugins: Plugins, refs: seq<PluginRef>, more: seq<PluginRef>)
    requires FilledIn(plugins, refs, more)
    ensures forall i :: 0 <= i < |refs| ==> refs[i].ref in plugins
    ensures forall i :: 0 <= i < |more| ==> more[i].ref in plugins && !Unweighted(plugins, more[i])
    ensures Scored(plugins, more) == ScorersAsWritten(plugins, refs)
    decreases |refs|
  {
    forall i | 0 <= i < |refs| ensures refs[i].ref in plugins && more[i].ref in plugins && !Unweighted(plugins, more[i]) {
      assert more[i].ref == refs[i].ref;
    }
    if refs != [] {
      var last := |refs| - 1;
      assert more[last].ref == refs[last].ref;
      ScoredAsFilledIn(plugins, refs[..last], more[..last]);
    }
  }

  /** A profile built from defaulted references scores as it was written: each scorer with its own weight, or 1. */
  lemma BuiltScorersAreAsWritten(plugins: Plugins, refs: seq<PluginRef>, pickerName: string, p: LoadedProfile)
    requires pickerName in plugins && Builds(plugins, DefaultedRefs(plugins, refs, pickerName), p)
    ensures forall i :: 0 <= i < |refs| ==> refs[i].ref in plugins
    ensures p.scorers == ScorersAsWritten(plugins, refs)
  {
    var out, n := DefaultedRefs(plugins, refs, pickerName), |refs|;
    var front := out[..n];
    forall i | 0 <= i < n
      ensures && front[i].ref == refs[i].ref && front[i].ref in plugins
              && (plugins[front[i].ref].scorer ==> front[i].weight == if refs[i].weight.Some? then refs[i].weight else Some(1))
    {
      DefaultingKeepsWhatIsWritten(plugins, refs, pickerName, i);
      assert front[i] == out[i] && !Unweighted(plugins, out[i]);
    }
    ScoredAsFilledIn(plugins, refs, front);
    if |out| == n {
      assert front == out;
    } else {
      assert out[|out| - 1] == PluginRef(pickerName, None) && !Unweighted(plugins, out[n]);
      assert out[..|out| - 1] == front;
      assert Scored(plugins, out) == Scored(plugins, front) + [];
    }
  }

  // ---------- What a built profile holds ----------

  /** A plugin is in a slot of the profile if and only if some reference names it and it implements that interface. */
  lemma {:induction false} ChosenIff(plugins: Plugins, refs: seq<PluginRef>, slot: Slot, p: Plugin)
    requires forall i :: 0 <= i < |refs| ==> refs[i].ref in plugins
    ensures p in Chosen(plugins, refs, slot) <==>
            && (slot == FilterSlot ==> p.filter) && (slot == PickerSlot ==> p.picker) && (slot == PostCycleSlot ==> p.postCycle)
            && exists i :: 0 <= i < |refs| && plugins[refs[i].ref] == p
    decreases |refs|
  {
    if refs != [] {
      var last := |refs| - 1;
      var front := refs[..last];
      ChosenIff(plugins, front, slot, p);
      if i :| 0 <= i < |front| && plugins[front[i].ref] == p {
        assert plugins[refs[i].ref] == p;
      }
      if i :| 0 <= i < |refs| && plugins[refs[i].ref] == p {
        assert i < last ==> plugins[front[i].ref] == p;
      }
    }
  }

  /** A slot lists the plugins in the order of the references. */
  lemma {:induction false} ChosenKeepsOrder(plugins: Plugins, a: seq<PluginRef>, b: seq<PluginRef>, slot: Slot)
    requires forall i :: 0 <= i < |a + b| ==> (a + b)[i].ref in plugins
    ensures forall i :: 0 <= i < |a| ==> a[i].ref in plugins
    ensures forall i :: 0 <= i < |b| ==> b[i].ref in plugins
    ensures Chosen(plugins, a + b, slot) == Chosen(plugins, a, slot) + Chosen(plugins, b, slot)
    decreases |b|
  {
    assert forall i :: 0 <= i < |a| ==> a[i] == (a + b)[i];
    assert forall i :: 0 <= i < |b| ==> b[i] == (a + b)[|a| + i];
    if b == [] {
      assert a + b == a;
    } else {
      var last := |b| - 1;
      assert (a + b)[..|a + b| - 1] == a + b[..last] && (a + b)[|a + b| - 1] == b[last];
      ChosenKeepsOrder(plugins, a, b[..last], slot);
      var p := plugins[b[last].ref];
      ConcatIsAssociative(Chosen(plugins, a, slot), Chosen(plugins, b[..last], slot), if Fits(p, slot) then [p] else []);
    }
  }
}
