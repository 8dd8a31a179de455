/**
 * `ScriptPersistedConfiguration`: the configuration a script reported,
 * compared item by item against what it desired, and the status recorded
 * for each item.
 */
module ScriptPersistedConfiguration {
  import opened Common
  import opened RuntimeValues
  import opened ScriptResults

  /** `Difference(name, expected, actual)`. */
  datatype Difference = Difference(name: Option<string>, expected: Option<string>, actual: Option<string>)

  /** `ComparisonResult`: identical, or the list of differences. */
  datatype ComparisonResult = Identical | Differs(differences: seq<Difference>)

  datatype ConfigurationStatus = Current | Drifted

  /** One `SetConfigurationStatusAsync(type, key, status)` call. */
  datatype StatusUpdate = StatusUpdate(configType: Option<string>, configKey: Option<string>, status: ConfigurationStatus)

  /** One `KeyValueConfiguration` persisted by `PersistAsync`. */
  datatype KeyValueConfiguration = KeyValueConfiguration(configType: Option<string>, key: Option<string>, value: string)

  /**
   * The slot `compare()` yields for one item: nothing when drift is
   * reported absent, nothing when drift is unreported and the actual value
   * equals the desired one ignoring case (null equals only null), and a
   * difference otherwise — also when drift is reported although the values
   * are equal.
   */
  function CompareOne(c: ConfigurationInfo): (r: Option<Difference>)
    ensures c.driftDetected == Some(false) ==> r.None?
    ensures c.driftDetected == Some(true) ==> r.Some?
    ensures c.driftDetected.None? ==> (r.None? <==> EqICOpt(AsString(c.current), AsString(c.desired)))
    ensures r.Some? ==> r.value == Difference(c.configKey, AsString(c.desired), AsString(c.current))
  {
    if c.driftDetected == Some(false) then None
    else
      var actual := AsString(c.current);
      var desired := AsString(c.desired);
      if c.driftDetected != Some(true) && EqICOpt(actual, desired) then None
      else Some(Difference(c.configKey, desired, actual))
  }

  /** `compare()`: one slot per configuration item, none when the list is null. */
  function Compare(configuration: Option<seq<ConfigurationInfo>>): (r: seq<Option<Difference>>)
    ensures configuration.None? ==> r == []
    ensures configuration.Some? ==> |r| == |configuration.value|
    ensures configuration.Some? ==> forall i :: 0 <= i < |r| ==> r[i] == CompareOne(configuration.value[i])
  {
    if configuration.None? then []
    else seq(|configuration.value|, i requires 0 <= i < |configuration.value| => CompareOne(configuration.value[i]))
  }

  /** The non-null slots, in order. */
  function NonNull(slots: seq<Option<Difference>>): (r: seq<Difference>)
    ensures |r| <= |slots|
    ensures forall d :: d in r ==> Some(d) in slots
    ensures forall i :: 0 <= i < |slots| && slots[i].Some? ==> slots[i].value in r
    decreases |slots|
  {
    if slots == [] then []
    else (if slots[0].Some? then [slots[0].value] else []) + NonNull(slots[1..])
  }

  /** `CompareAsync`: identical iff every slot is null; otherwise exactly the non-null slots. */
  function CompareResult(slots: seq<Option<Difference>>): (r: ComparisonResult)
    ensures r.Identical? <==> forall i :: 0 <= i < |slots| ==> slots[i].None?
    ensures r.Differs? ==> r.differences == NonNull(slots) && r.differences != []
  {
    var diffs := NonNull(slots);
    if diffs != [] then
      assert Some(diffs[0]) in slots;
      Differs(diffs)
    else
      Identical
  }

  /** A configuration object built from a script's results. */
  datatype PersistedConfiguration = PersistedConfiguration(
    scriptResults: ExecuteScriptResult,
    comparisonResults: seq<Option<Difference>>,
    configurationTypeName: string)

  /** The constructor: the slots are computed once, from the results' configuration list. */
  function Create(results: ExecuteScriptResult, typeName: string): (p: PersistedConfiguration)
    ensures p.scriptResults == results && p.configurationTypeName == typeName
    ensures p.comparisonResults == Compare(results.configuration)
  {
    PersistedConfiguration(results, Compare(results.configuration), typeName)
  }

  /** The status update for item `i`: its type (or the configuration's type name), its key, and Current iff slot `i` is null. */
  function StatusOf(p: PersistedConfiguration, i: nat): StatusUpdate
    requires p.scriptResults.configuration.Some? && i < |p.scriptResults.configuration.value|
    requires i < |p.comparisonResults|
  {
    var c := p.scriptResults.configuration.value[i];
    StatusUpdate(
      CoalesceString(c.configType, Some(p.configurationTypeName)),
      c.configKey,
      if p.comparisonResults[i].None? then Current else Drifted)
  }

  /** The updates `StoreConfigurationStatusAsync` issues, in order. */
  function Statuses(p: PersistedConfiguration): (r: seq<StatusUpdate>)
    requires p.comparisonResults == Compare(p.scriptResults.configuration)
  {
    if p.scriptResults.configuration.None? then []
    else
      var n := |p.scriptResults.configuration.value|;
      seq(n, i requires 0 <= i < n => StatusOf(p, i))
  }

  /** `StoreConfigurationStatusAsync`: one status update per item, in index order. */
  method StoreConfigurationStatus(p: PersistedConfiguration) returns (updates: seq<StatusUpdate>)
    requires p.comparisonResults == Compare(p.scriptResults.configuration)
    ensures updates == Statuses(p)
  {
    updates := [];
    if p.scriptResults.configuration.None? {
      return;
    }
    var configuration := p.scriptResults.configuration.value;
    for i := 0 to |configuration|
      invariant |updates| == i
      invariant forall k :: 0 <= k < i ==> updates[k] == StatusOf(p, k)
    {
      var status := if p.comparisonResults[i] == None then Current else Drifted;
      updates := updates + [StatusUpdate(CoalesceString(configuration[i].configType, Some(p.configurationTypeName)), configuration[i].configKey, status)];
    }
  }

  /** Item `i` is recorded Current iff its comparison yields no difference; a null or empty type is replaced by the type name. */
  lemma StatusCurrentIff(p: PersistedConfiguration, i: nat)
    requires p.comparisonResults == Compare(p.scriptResults.configuration)
    requires p.scriptResults.configuration.Some? && i < |p.scriptResults.configuration.value|
    ensures |Statuses(p)| == |p.scriptResults.configuration.value|
    ensures Statuses(p)[i].status == Current <==> CompareOne(p.scriptResults.configuration.value[i]).None?
    ensures Statuses(p)[i].configKey == p.scriptResults.configuration.value[i].configKey
    ensures IsNullOrEmpty(p.scriptResults.configuration.value[i].configType) ==> Statuses(p)[i].configType == Some(p.configurationTypeName)
  {
  }

  /** Everything is recorded Current exactly when the comparison is Identical. */
  lemma AllCurrentIffIdentical(p: PersistedConfiguration)
    requires p.comparisonResults == Compare(p.scriptResults.configuration)
    ensures (forall u :: u in Statuses(p) ==> u.status == Current) <==> CompareResult(p.comparisonResults).Identical?
  {
    var s := Statuses(p);
    if CompareResult(p.comparisonResults).Identical? {
      forall u | u in s ensures u.status == Current {
        var i :| 0 <= i < |s| && s[i] == u;
      }
    } else {
      var i :| 0 <= i < |p.comparisonResults| && p.comparisonResults[i].Some?;
      assert s[i].status == Drifted;
    }
  }

  /** With drift reported, equal values still differ; with drift unreported, values equal ignoring case do not. */
  lemma DriftFlagDecides(key: Option<string>, desired: string, actual: string)
    requires EqIC(desired, actual)
    ensures CompareOne(ConfigurationInfo(None, key, Str(desired), Str(actual), Some(true))) == Some(Difference(key, Some(desired), Some(actual)))
    ensures CompareOne(ConfigurationInfo(None, key, Str(desired), Str(actual), None)).None?
  {
    EqICIsEquivalence(desired, actual, desired);
  }

  /** The records `PersistAsync` writes, `render` standing for the host's `RuntimeValue.ToString`. */
  function Persisted(p: PersistedConfiguration, render: RuntimeValue -> string): (r: seq<KeyValueConfiguration>)
    ensures p.scriptResults.configuration.None? ==> r == []
    ensures p.scriptResults.configuration.Some? ==> |r| == |p.scriptResults.configuration.value|
    ensures p.scriptResults.configuration.Some? ==> forall i :: 0 <= i < |r| ==>
      r[i].key == p.scriptResults.configuration.value[i].configKey &&
      r[i].value == render(p.scriptResults.configuration.value[i].current) &&
      r[i].configType == CoalesceString(p.scriptResults.configuration.value[i].configType, Some(p.configurationTypeName))
  {
    if p.scriptResults.configuration.None? then []
    else
      var cs := p.scriptResults.configuration.value;
      seq(|cs|, i requires 0 <= i < |cs| =>
        KeyValueConfiguration(CoalesceString(cs[i].configType, Some(p.configurationTypeName)), cs[i].configKey, render(cs[i].current)))
  }
}
