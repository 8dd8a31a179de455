/**
 * What `PSUtil.ExecuteScriptDirectAsync` and `PSUtil2.ExecuteScript2Async`
 * share around configuration: the execution mode, the `$`-reference names a
 * script's configuration directives declare, and the reconciliation that
 * turns the directives and the job's out-variables into
 * `ExecuteScriptResultConfigurationInfo` items once the script has run.
 */
module ConfigReconciliation {
  import opened Common
  import opened RuntimeValues
  import opened ScriptResults
  import opened PSConfigParameterInfo

  /** `PsExecutionMode`. */
  datatype ExecutionMode = Normal | Collect | Configure

  /** `executionMode.ToString()`. */
  function ModeName(m: ExecutionMode): string
  {
    match m
    case Normal => "Normal"
    case Collect => "Collect"
    case Configure => "Configure"
  }

  predicate Collecting(m: ExecutionMode)
  {
    m == Collect || m == Configure
  }

  /** `$"{type},{key}"`: a null part interpolates as nothing. */
  function UniqueKey(t: Option<string>, k: Option<string>): string
  {
    t.GetOr("") + "," + k.GetOr("")
  }

  /** The raw type/key pair of a directive group. */
  function DirectiveKey(g: Group): string
  {
    UniqueKey(g.configType, g.configKey)
  }

  /** `s.TrimStart('$')`. */
  function TrimDollars(s: string): (r: string)
    ensures |r| <= |s| && r == s[|s| - |r|..]
    ensures r == [] || r[0] != '$'
    ensures forall j :: 0 <= j < |s| - |r| ==> s[j] == '$'
  {
    var k := Skip(s, 0, c => c == '$');
    s[k..]
  }

  /** The five directives of a group as its accessors read them: null when absent. */
  datatype Group = Group(
    configType: Option<string>, configKey: Option<string>,
    desiredValue: Option<string>, currentValue: Option<string>, valueDrifted: Option<string>)

  function GroupOf(cp: ConfigParameter): Group
  {
    Group(ConfigType(cp), ConfigKey(cp), DesiredValue(cp), CurrentValue(cp), ValueDrifted(cp))
  }

  /** The five directives in the order the source visits them. */
  function DirectiveList(g: Group): seq<Option<string>>
  {
    [g.configType, g.configKey, g.desiredValue, g.currentValue, g.valueDrifted]
  }

  /** `setOutputVariable(oe)`'s name: the `$`-stripped expression, when it starts with `$`. */
  function ReferenceName(oe: Option<string>): (r: Option<string>)
    ensures r.Some? <==> oe.Some? && StartsWith(oe.value, "$")
    ensures r.Some? ==> r.value == TrimDollars(oe.value) && |r.value| < |oe.value|
  {
    if oe.Some? && StartsWith(oe.value, "$") then
      assert oe.value[0] == '$';
      Some(TrimDollars(oe.value))
    else None
  }

  // ---------------------------------------------------------------------------
  // Resolving one directive after the run

  /** `TryGetValue` on the job's out-variables, as a scan from the front. */
  function Lookup(ic: bool, vars: seq<(string, RuntimeValue)>, k: string): Option<RuntimeValue>
  {
    if vars == [] then None
    else if KeyEq(ic, vars[0].0, k) then Some(vars[0].1)
    else Lookup(ic, vars[1..], k)
  }

  /** `Remove` on the job's out-variables, as a scan from the front. */
  function Drop(ic: bool, vars: seq<(string, RuntimeValue)>, k: string): seq<(string, RuntimeValue)>
  {
    if vars == [] then []
    else if KeyEq(ic, vars[0].0, k) then vars[1..]
    else [vars[0]] + Drop(ic, vars[1..], k)
  }

  /** The scans are the dictionary's own `Get` and `Remove`. */
  lemma {:induction false} ScansAreDictionary(ic: bool, vars: seq<(string, RuntimeValue)>, k: string)
    ensures Lookup(ic, vars, k) == Get(ic, vars, k)
    ensures Drop(ic, vars, k) == Remove(ic, vars, k)
  {
    if vars != [] && !KeyEq(ic, vars[0].0, k) {
      ScansAreDictionary(ic, vars[1..], k);
      var t := FindKey(ic, vars[1..], k);
      if t >= 0 {
        assert vars[..t + 1] == [vars[0]] + vars[1..][..t];
        assert vars[t + 2..] == vars[1..][t + 1..];
      }
    }
  }

  /**
   * `getOutputExpressionValue(oe, defaultValue)` over the job's
   * out-variables `vars`, which it may shrink: it yields the value and the
   * out-variables afterwards.
   */
  function Resolve(oe: Option<string>, default: RuntimeValue, vars: seq<(string, RuntimeValue)>, ic: bool): (r: (RuntimeValue, seq<(string, RuntimeValue)>))
    ensures IsNullOrEmpty(oe) ==> r == (default, vars)
    ensures !IsNullOrEmpty(oe) && !(StartsWith(oe.value, "$") && Lookup(ic, vars, oe.value[1..]).Some?) ==>
      r == (Str(oe.value), vars)
  {
    if IsNullOrEmpty(oe) then (default, vars)
    else if StartsWith(oe.value, "$") && Lookup(ic, vars, oe.value[1..]).Some? then
      (Lookup(ic, vars, oe.value[1..]).value, Drop(ic, vars, oe.value))
    else (Str(oe.value), vars)
  }

  /** An unresolved `$name` reads as the literal text `$name` and leaves the out-variables alone. */
  lemma UnresolvedStaysLiteral(name: string, default: RuntimeValue, vars: seq<(string, RuntimeValue)>, ic: bool)
    requires !HasKey(ic, vars, name)
    ensures Resolve(Some("$" + name), default, vars, ic) == (Str("$" + name), vars)
  {
    assert ("$" + name)[1..] == name;
    ScansAreDictionary(ic, vars, name);
  }

  /**
   * The removal looks the whole expression up, `$` included, so when no
   * out-variable's name starts with `$` a resolved reference leaves the
   * out-variables exactly as they were.
   */
  lemma ResolveRemovesNothing(oe: Option<string>, default: RuntimeValue, vars: seq<(string, RuntimeValue)>, ic: bool)
    requires forall j :: 0 <= j < |vars| ==> !StartsWith(vars[j].0, "$")
    ensures Resolve(oe, default, vars, ic).1 == vars
  {
    if oe.Some? && StartsWith(oe.value, "$") {
      ScansAreDictionary(ic, vars, oe.value);
      if HasKey(ic, vars, oe.value) {
        DollarKey(ic, vars[FindKey(ic, vars, oe.value)].0, oe.value);
      }
    }
  }

  /** A key equal to a `$` expression, ignoring case or not, starts with `$` too. */
  lemma DollarKey(ic: bool, key: string, e: string)
    requires KeyEq(ic, key, e) && StartsWith(e, "$")
    ensures StartsWith(key, "$")
  {
    assert e[0] == '$';
    if ic {
      assert |key| == |e| && UpperStr(key)[0] == UpperStr(e)[0];
    }
  }

  /** A resolved `$name` yields the out-variable `name`, and removes the entry named `$name`, if any. */
  lemma ResolvedReference(name: string, default: RuntimeValue, vars: seq<(string, RuntimeValue)>, ic: bool)
    requires HasKey(ic, vars, name)
    ensures Resolve(Some("$" + name), default, vars, ic) == (Get(ic, vars, name).value, Remove(ic, vars, "$" + name))
  {
    assert ("$" + name)[1..] == name;
    ScansAreDictionary(ic, vars, name);
    ScansAreDictionary(ic, vars, "$" + name);
  }

  // ---------------------------------------------------------------------------
  // Reconciling every group

  /** The state of the reconciliation loop: `origins[a]` is the group item `a` came from. */
  datatype Reconciliation = Reconciliation(
    infos: seq<ConfigurationInfo>,
    origins: seq<nat>,
    seen: seq<string>,
    usedOutput: bool,
    outVariables: seq<(string, RuntimeValue)>,
    log: seq<Notice>)

  /** What the reconciliation logs: a skipped duplicate pair, a skipped second output reader, or the default item. */
  datatype Notice = DuplicateItem(key: string) | SharedOutput | NoGroups

  /** The message logged for a notice. */
  function Message(n: Notice): LogMessage
  {
    match n
    case DuplicateItem(key) => LogMessage(Warning,
      "This script returned multiple configuration items, but each item does have a unique type/key (AHCONFIGKEY, AHCONFIGTYPE)."
      + "Only the first item with the type/key (" + key + ") will be recorded.")
    case SharedOutput => LogMessage(Warning,
      "Another configuration item is already using the script output for the current value; when multiple types are returned, "
      + "a AHCURRENTVALUE help should be used.")
    case NoGroups => LogMessage(Debug,
      "Script did not define any additional help configuration parameters, so the default values will be used.")
  }

  /** A group without `AHCURRENTVALUE` takes the script's first output as its current value. */
  predicate UsesOutput(cp: Group)
  {
    IsNullOrEmpty(cp.currentValue)
  }

  /** The type/key pair an item is recorded under. */
  function InfoKey(c: ConfigurationInfo): string
  {
    UniqueKey(c.configType, c.configKey)
  }

  /** The resolved type and key of a group, with the out-variables afterwards. */
  datatype Identity = Identity(configType: Option<string>, configKey: Option<string>, vars: seq<(string, RuntimeValue)>)

  /** `configType` and `configKey`: the type defaults to "PSConfig", the key to `defaultKey`. */
  function ResolveIdentity(cp: Group, vars: seq<(string, RuntimeValue)>, defaultKey: Option<string>, ic: bool): (r: Identity)
    ensures IsNullOrEmpty(cp.configType) ==> r.configType == Some("PSConfig")
    ensures IsNullOrEmpty(cp.configKey) ==> r.configKey == defaultKey
    ensures Literal(cp.configType) ==> r.configType == cp.configType
    ensures Literal(cp.configKey) ==> r.configKey == cp.configKey
  {
    var t := Resolve(cp.configType, Str("PSConfig"), vars, ic);
    var k := Resolve(cp.configKey, Scalar(defaultKey), t.1, ic);
    Identity(AsString(t.0), AsString(k.0), k.1)
  }

  /** The item recorded for a group whose identity is `id`, with the out-variables afterwards. */
  function ResolveItem(cp: Group, id: Identity, first: RuntimeValue, ic: bool): (r: (ConfigurationInfo, seq<(string, RuntimeValue)>))
    ensures r.0.configType == id.configType && r.0.configKey == id.configKey
    ensures IsNullOrEmpty(cp.desiredValue) ==> r.0.desired == FromBool(true)
    ensures IsNullOrEmpty(cp.currentValue) ==> r.0.current == first
    ensures IsNullOrEmpty(cp.valueDrifted) ==> r.0.driftDetected.None?
    ensures Literal(cp.desiredValue) ==> r.0.desired == Str(cp.desiredValue.value)
    ensures Literal(cp.currentValue) ==> r.0.current == Str(cp.currentValue.value)
    ensures Literal(cp.valueDrifted) ==> r.0.driftDetected == TryParseBool(cp.valueDrifted)
  {
    var d := Resolve(cp.desiredValue, FromBool(true), id.vars, ic);
    var c := Resolve(cp.currentValue, first, d.1, ic);
    var f := Resolve(cp.valueDrifted, Default, c.1, ic);
    (ConfigurationInfo(id.configType, id.configKey, d.0, c.0, AsBoolean(f.0)), f.1)
  }

  /** One pass of the loop over group `cp`, number `idx`. */
  function Step(st: Reconciliation, cp: Group, idx: nat, defaultKey: Option<string>, first: RuntimeValue, ic: bool): Reconciliation
  {
    var id := ResolveIdentity(cp, st.outVariables, defaultKey, ic);
    var key := UniqueKey(id.configType, id.configKey);
    if ContainsIC(st.seen, key) then
      st.(outVariables := id.vars, log := st.log + [DuplicateItem(key)])
    else if UsesOutput(cp) && st.usedOutput then
      st.(outVariables := id.vars, seen := st.seen + [key], log := st.log + [SharedOutput])
    else
      var item := ResolveItem(cp, id, first, ic);
      Reconciliation(st.infos + [item.0], st.origins + [idx], st.seen + [key], st.usedOutput || UsesOutput(cp), item.1, st.log)
  }

  /** The state after the first `n` groups. */
  function Reconciled(cps: seq<Group>, n: nat, defaultKey: Option<string>, first: RuntimeValue,
                      vars: seq<(string, RuntimeValue)>, ic: bool): Reconciliation
    requires n <= |cps|
    decreases n, 0
  {
    if n == 0 then Reconciliation([], [], [], false, vars, [])
    else Advance(cps, n - 1, defaultKey, first, vars, ic)
  }

  /** The pass over group `i`, after the groups before it. */
  function Advance(cps: seq<Group>, i: nat, defaultKey: Option<string>, first: RuntimeValue,
                   vars: seq<(string, RuntimeValue)>, ic: bool): Reconciliation
    requires i < |cps|
    decreases i, 1
  {
    Step(Reconciled(cps, i, defaultKey, first, vars, ic), cps[i], i, defaultKey, first, ic)
  }

  /**
   * The foreach over the groups: one item per group whose resolved type/key
   * pair is new and which is not a second group reading the output; a
   * warning for each other group.
   */
  method ReconcileGroups(cps: seq<Group>, defaultKey: Option<string>, output: seq<RuntimeValue>,
                         vars: seq<(string, RuntimeValue)>, ic: bool)
    returns (configInfos: seq<ConfigurationInfo>, outVariables: seq<(string, RuntimeValue)>, log: seq<Notice>)
    ensures var st := Reconciled(cps, |cps|, defaultKey, FirstOutput(output), vars, ic);
      configInfos == st.infos && outVariables == st.outVariables && log == st.log
  {
    configInfos, outVariables, log := [], vars, [];
    var uniqueConfigKeys: seq<string> := [];
    var usedOutput := false;
    ghost var origins: seq<nat> := [];
    for i := 0 to |cps|
      invariant Reconciled(cps, i, defaultKey, FirstOutput(output), vars, ic)
        == Reconciliation(configInfos, origins, uniqueConfigKeys, usedOutput, outVariables, log)
    {
      var param := cps[i];
      var id := ResolveIdentity(param, outVariables, defaultKey, ic);
      outVariables := id.vars;
      var uniqueKey := UniqueKey(id.configType, id.configKey);
      if ContainsIC(uniqueConfigKeys, uniqueKey) {
        log := log + [DuplicateItem(uniqueKey)];
        continue;
      }
      uniqueConfigKeys := uniqueConfigKeys + [uniqueKey];
      if IsNullOrEmpty(param.currentValue) {
        if usedOutput {
          log := log + [SharedOutput];
          continue;
        }
        usedOutput := true;
      }
      var item := ResolveItem(param, id, FirstOutput(output), ic);
      outVariables := item.1;
      configInfos := configInfos + [item.0];
      origins := origins + [i];
    }
  }

  /**
   * What an item says about the group it came from: an absent directive
   * gives the default (type "PSConfig", the script's name as key, desired
   * "true", the first output, no drift flag), a literal directive is taken
   * as written.
   */
  ghost predicate InfoFrom(cp: Group, c: ConfigurationInfo, defaultKey: Option<string>, first: RuntimeValue)
  {
    (IsNullOrEmpty(cp.configType) ==> c.configType == Some("PSConfig")) &&
    (IsNullOrEmpty(cp.configKey) ==> c.configKey == defaultKey) &&
    (IsNullOrEmpty(cp.desiredValue) ==> c.desired == FromBool(true)) &&
    (IsNullOrEmpty(cp.currentValue) ==> c.current == first) &&
    (IsNullOrEmpty(cp.valueDrifted) ==> c.driftDetected.None?) &&
    (Literal(cp.configType) ==> c.configType == cp.configType) &&
    (Literal(cp.configKey) ==> c.configKey == cp.configKey) &&
    (Literal(cp.desiredValue) ==> c.desired == Str(cp.desiredValue.value)) &&
    (Literal(cp.currentValue) ==> c.current == Str(cp.currentValue.value)) &&
    (Literal(cp.valueDrifted) ==> c.driftDetected == TryParseBool(cp.valueDrifted))
  }

  /** A directive that is present and is not a `$` reference. */
  predicate Literal(oe: Option<string>)
  {
    !IsNullOrEmpty(oe) && !StartsWith(oe.value, "$")
  }

  /**
   * What one pass over group `cp`, number `idx`, does to the state: it adds
   * one notice and nothing else, or records one item from the group, and
   * only one group may read the output.
   */
  ghost predicate Passes(st: Reconciliation, s: Reconciliation, cp: Group, idx: nat)
  {
    (s.infos == st.infos && s.origins == st.origins && s.usedOutput == st.usedOutput &&
     |s.log| == |st.log| + 1 && s.log[..|st.log|] == st.log && !s.log[|st.log|].NoGroups?) ||
    (|s.infos| == |st.infos| + 1 && s.infos[..|st.infos|] == st.infos && s.origins == st.origins + [idx] &&
     s.log == st.log && (UsesOutput(cp) ==> !st.usedOutput) && s.usedOutput == (st.usedOutput || UsesOutput(cp)))
  }

  /** Each pass either adds a notice and nothing else, or records one item from its group. */
  lemma StepShape(st: Reconciliation, cp: Group, idx: nat, defaultKey: Option<string>, first: RuntimeValue, ic: bool)
    ensures Passes(st, Step(st, cp, idx, defaultKey, first, ic), cp, idx)
    ensures st.seen == [] && !st.usedOutput ==> |Step(st, cp, idx, defaultKey, first, ic).infos| == |st.infos| + 1
  {
    var s := Step(st, cp, idx, defaultKey, first, ic);
    var id := ResolveIdentity(cp, st.outVariables, defaultKey, ic);
    var key := UniqueKey(id.configType, id.configKey);
    if !ContainsIC(st.seen, key) && !(UsesOutput(cp) && st.usedOutput) {
      assert s.infos[..|st.infos|] == st.infos;
    } else {
      assert s.log[..|st.log|] == st.log;
    }
  }

  /** The seen set only grows, and a recorded item's pair is new to it. */
  lemma StepSeen(st: Reconciliation, cp: Group, idx: nat, defaultKey: Option<string>, first: RuntimeValue, ic: bool)
    ensures var s := Step(st, cp, idx, defaultKey, first, ic);
      |s.seen| >= |st.seen| && s.seen[..|st.seen|] == st.seen &&
      (|s.infos| == |st.infos| + 1 ==> InfoKey(s.infos[|st.infos|]) in s.seen && !ContainsIC(st.seen, InfoKey(s.infos[|st.infos|])))
  {
    var s := Step(st, cp, idx, defaultKey, first, ic);
    assert s.seen[..|st.seen|] == st.seen;
  }

  /** A recorded item takes its group's defaults and literal directives. */
  lemma StepInfo(st: Reconciliation, cp: Group, idx: nat, defaultKey: Option<string>, first: RuntimeValue, ic: bool)
    ensures var s := Step(st, cp, idx, defaultKey, first, ic);
      |s.infos| == |st.infos| + 1 ==> InfoFrom(cp, s.infos[|st.infos|], defaultKey, first)
  {
  }

  /**
   * What one pass does, together with what it does to the seen set: the set
   * only grows, and an item the pass records has a pair the set did not hold,
   * now holds, and is built from the pass's group.
   */
  ghost predicate Advances(prev: Reconciliation, s: Reconciliation, cp: Group, idx: nat,
                           defaultKey: Option<string>, first: RuntimeValue)
  {
    Passes(prev, s, cp, idx) &&
    |s.seen| >= |prev.seen| && s.seen[..|prev.seen|] == prev.seen &&
    (|s.infos| == |prev.infos| + 1 ==>
      InfoKey(s.infos[|prev.infos|]) in s.seen && !ContainsIC(prev.seen, InfoKey(s.infos[|prev.infos|])) &&
      InfoFrom(cp, s.infos[|prev.infos|], defaultKey, first))
  }

  /** The pass over group `n - 1` takes the state after `n - 1` groups to the state after `n`. */
  lemma ReconciledPasses(cps: seq<Group>, n: nat, defaultKey: Option<string>, first: RuntimeValue,
                         vars: seq<(string, RuntimeValue)>, ic: bool)
    requires 0 < n <= |cps|
    ensures Advances(Reconciled(cps, n - 1, defaultKey, first, vars, ic), Reconciled(cps, n, defaultKey, first, vars, ic),
                     cps[n - 1], n - 1, defaultKey, first)
  {
    var prev := Reconciled(cps, n - 1, defaultKey, first, vars, ic);
    StepShape(prev, cps[n - 1], n - 1, defaultKey, first, ic);
    StepSeen(prev, cps[n - 1], n - 1, defaultKey, first, ic);
    StepInfo(prev, cps[n - 1], n - 1, defaultKey, first, ic);
  }

  /** A run of states from the empty one, each the pass over the next group from the one before. */
  ghost predicate Chain(cps: seq<Group>, states: seq<Reconciliation>, defaultKey: Option<string>, first: RuntimeValue)
  {
    0 < |states| <= |cps| + 1 &&
    states[0].infos == [] && states[0].origins == [] && states[0].seen == [] && states[0].log == [] &&
    (forall k :: 0 <= k < |states| - 1 ==> Advances(states[k], states[k + 1], cps[k], k, defaultKey, first))
  }

  /** The states after 0, 1, ..., `n` groups. */
  ghost function Trace(cps: seq<Group>, n: nat, defaultKey: Option<string>, first: RuntimeValue,
                       vars: seq<(string, RuntimeValue)>, ic: bool): (tr: seq<Reconciliation>)
    requires n <= |cps|
    ensures |tr| == n + 1 && tr[n] == Reconciled(cps, n, defaultKey, first, vars, ic)
  {
    seq(n + 1, k requires 0 <= k <= n => Reconciled(cps, k, defaultKey, first, vars, ic))
  }

  lemma TraceChains(cps: seq<Group>, n: nat, defaultKey: Option<string>, first: RuntimeValue,
                    vars: seq<(string, RuntimeValue)>, ic: bool)
    requires n <= |cps|
    ensures Chain(cps, Trace(cps, n, defaultKey, first, vars, ic), defaultKey, first)
  {
    var tr := Trace(cps, n, defaultKey, first, vars, ic);
    forall k | 0 <= k < n
      ensures Advances(tr[k], tr[k + 1], cps[k], k, defaultKey, first)
    {
      ReconciledPasses(cps, k + 1, defaultKey, first, vars, ic);
    }
  }

  /** Where the items come from, and that every pass leaves either an item or a notice. */
  ghost predicate Shaped(n: nat, st: Reconciliation)
  {
    |st.origins| == |st.infos| &&
    (forall a :: 0 <= a < |st.origins| ==> st.origins[a] < n) &&
    (forall a, b :: 0 <= a < b < |st.origins| ==> st.origins[a] < st.origins[b]) &&
    |st.infos| + |st.log| == n && (forall m :: m in st.log ==> !m.NoGroups?)
  }

  lemma ShapedStep(n: nat, prev: Reconciliation, s: Reconciliation, cp: Group)
    requires 0 < n && Shaped(n - 1, prev) && Passes(prev, s, cp, n - 1)
    ensures Shaped(n, s)
  {
    if s.log != prev.log {
      assert s.log == prev.log + [s.log[|prev.log|]];
    }
  }

  lemma {:induction false} ChainShaped(cps: seq<Group>, states: seq<Reconciliation>, n: nat, defaultKey: Option<string>, first: RuntimeValue)
    requires Chain(cps, states, defaultKey, first) && n < |states|
    ensures Shaped(n, states[n])
  {
    if n > 0 {
      ChainShaped(cps, states, n - 1, defaultKey, first);
      assert Advances(states[n - 1], states[n], cps[n - 1], n - 1, defaultKey, first);
      ShapedStep(n, states[n - 1], states[n], cps[n - 1]);
    }
  }

  lemma ReconciledShaped(cps: seq<Group>, n: nat, defaultKey: Option<string>, first: RuntimeValue,
                         vars: seq<(string, RuntimeValue)>, ic: bool)
    requires n <= |cps|
    ensures Shaped(n, Reconciled(cps, n, defaultKey, first, vars, ic))
  {
    TraceChains(cps, n, defaultKey, first, vars, ic);
    ChainShaped(cps, Trace(cps, n, defaultKey, first, vars, ic), n, defaultKey, first);
  }

  /** Every recorded item's pair is in the seen set. */
  ghost predicate SeenCovers(st: Reconciliation)
  {
    forall a :: 0 <= a < |st.infos| ==> InfoKey(st.infos[a]) in st.seen
  }

  /** No two recorded items share a pair, ignoring case. */
  ghost predicate KeysDistinct(infos: seq<ConfigurationInfo>)
  {
    forall a, b :: 0 <= a < b < |infos| ==> !EqIC(InfoKey(infos[a]), InfoKey(infos[b]))
  }

  lemma SeenStep(prev: Reconciliation, s: Reconciliation, cp: Group, idx: nat, defaultKey: Option<string>, first: RuntimeValue)
    requires SeenCovers(prev) && Advances(prev, s, cp, idx, defaultKey, first)
    ensures SeenCovers(s)
  {
    var m := |prev.infos|;
    forall a | 0 <= a < |s.infos|
      ensures InfoKey(s.infos[a]) in s.seen
    {
      if a < m {
        assert s.infos[a] == prev.infos[a];
        var j :| 0 <= j < |prev.seen| && prev.seen[j] == InfoKey(prev.infos[a]);
        assert s.seen[j] == prev.seen[j];
      }
    }
  }

  lemma {:induction false} ChainSeen(cps: seq<Group>, states: seq<Reconciliation>, n: nat, defaultKey: Option<string>, first: RuntimeValue)
    requires Chain(cps, states, defaultKey, first) && n < |states|
    ensures SeenCovers(states[n])
  {
    if n > 0 {
      ChainSeen(cps, states, n - 1, defaultKey, first);
      SeenStep(states[n - 1], states[n], cps[n - 1], n - 1, defaultKey, first);
    }
  }

  lemma ReconciledSeen(cps: seq<Group>, n: nat, defaultKey: Option<string>, first: RuntimeValue,
                       vars: seq<(string, RuntimeValue)>, ic: bool)
    requires n <= |cps|
    ensures SeenCovers(Reconciled(cps, n, defaultKey, first, vars, ic))
  {
    TraceChains(cps, n, defaultKey, first, vars, ic);
    ChainSeen(cps, Trace(cps, n, defaultKey, first, vars, ic), n, defaultKey, first);
  }

  /** A member of a set differs, ignoring case, from anything the set does not contain. */
  lemma NotContainedDiffers(xs: seq<string>, x: string, y: string)
    requires x in xs && !ContainsIC(xs, y)
    ensures !EqIC(x, y)
  {
    var j :| 0 <= j < |xs| && xs[j] == x;
  }

  lemma DistinctStep(prev: Reconciliation, s: Reconciliation, cp: Group, idx: nat, defaultKey: Option<string>, first: RuntimeValue)
    requires KeysDistinct(prev.infos) && SeenCovers(prev) && Advances(prev, s, cp, idx, defaultKey, first)
    ensures KeysDistinct(s.infos)
  {
    var m := |prev.infos|;
    forall a, b | 0 <= a < b < |s.infos|
      ensures !EqIC(InfoKey(s.infos[a]), InfoKey(s.infos[b]))
    {
      assert s.infos[a] == prev.infos[a];
      if b < m {
        assert s.infos[b] == prev.infos[b];
      } else {
        NotContainedDiffers(prev.seen, InfoKey(prev.infos[a]), InfoKey(s.infos[m]));
      }
    }
  }

  lemma {:induction false} ChainDistinct(cps: seq<Group>, states: seq<Reconciliation>, n: nat, defaultKey: Option<string>, first: RuntimeValue)
    requires Chain(cps, states, defaultKey, first) && n < |states|
    ensures KeysDistinct(states[n].infos)
  {
    if n > 0 {
      ChainDistinct(cps, states, n - 1, defaultKey, first);
      ChainSeen(cps, states, n - 1, defaultKey, first);
      DistinctStep(states[n - 1], states[n], cps[n - 1], n - 1, defaultKey, first);
    }
  }

  lemma ReconciledDistinct(cps: seq<Group>, n: nat, defaultKey: Option<string>, first: RuntimeValue,
                           vars: seq<(string, RuntimeValue)>, ic: bool)
    requires n <= |cps|
    ensures KeysDistinct(Reconciled(cps, n, defaultKey, first, vars, ic).infos)
  {
    TraceChains(cps, n, defaultKey, first, vars, ic);
    ChainDistinct(cps, Trace(cps, n, defaultKey, first, vars, ic), n, defaultKey, first);
  }

  /** Each recorded item is built from the group it came from. */
  ghost predicate InfosFrom(cps: seq<Group>, n: nat, st: Reconciliation, defaultKey: Option<string>, first: RuntimeValue)
    requires n <= |cps|
  {
    Shaped(n, st) && forall a :: 0 <= a < |st.infos| ==> InfoFrom(cps[st.origins[a]], st.infos[a], defaultKey, first)
  }

  lemma InfosStep(cps: seq<Group>, n: nat, prev: Reconciliation, s: Reconciliation, defaultKey: Option<string>, first: RuntimeValue)
    requires 0 < n <= |cps| && InfosFrom(cps, n - 1, prev, defaultKey, first) && Shaped(n, s)
    requires Advances(prev, s, cps[n - 1], n - 1, defaultKey, first)
    ensures InfosFrom(cps, n, s, defaultKey, first)
  {
    forall a | 0 <= a < |s.infos|
      ensures InfoFrom(cps[s.origins[a]], s.infos[a], defaultKey, first)
    {
      if a < |prev.infos| {
        assert s.infos[a] == prev.infos[a] && s.origins[a] == prev.origins[a];
      }
    }
  }

  lemma {:induction false} ChainInfos(cps: seq<Group>, states: seq<Reconciliation>, n: nat, defaultKey: Option<string>, first: RuntimeValue)
    requires Chain(cps, states, defaultKey, first) && n < |states|
    ensures InfosFrom(cps, n, states[n], defaultKey, first)
  {
    ChainShaped(cps, states, n, defaultKey, first);
    if n > 0 {
      ChainInfos(cps, states, n - 1, defaultKey, first);
      InfosStep(cps, n, states[n - 1], states[n], defaultKey, first);
    }
  }

  lemma ReconciledInfos(cps: seq<Group>, n: nat, defaultKey: Option<string>, first: RuntimeValue,
                        vars: seq<(string, RuntimeValue)>, ic: bool)
    requires n <= |cps|
    ensures var st := Reconciled(cps, n, defaultKey, first, vars, ic);
      Shaped(n, st) && forall a :: 0 <= a < |st.infos| ==> InfoFrom(cps[st.origins[a]], st.infos[a], defaultKey, first)
  {
    TraceChains(cps, n, defaultKey, first, vars, ic);
    ChainInfos(cps, Trace(cps, n, defaultKey, first, vars, ic), n, defaultKey, first);
  }

  /** The output flag is set exactly when a recorded item reads the output. */
  ghost predicate UsedExactly(cps: seq<Group>, n: nat, st: Reconciliation)
    requires n <= |cps|
  {
    Shaped(n, st) && (st.usedOutput <==> exists a :: 0 <= a < |st.origins| && UsesOutput(cps[st.origins[a]]))
  }

  lemma UsedStep(cps: seq<Group>, n: nat, prev: Reconciliation, s: Reconciliation)
    requires 0 < n <= |cps| && UsedExactly(cps, n - 1, prev) && Shaped(n, s) && Passes(prev, s, cps[n - 1], n - 1)
    ensures UsedExactly(cps, n, s)
  {
    var m := |prev.origins|;
    if |s.origins| == m + 1 {
      if prev.usedOutput {
        var a :| 0 <= a < m && UsesOutput(cps[prev.origins[a]]);
        assert s.origins[a] == prev.origins[a];
      } else if UsesOutput(cps[n - 1]) {
        assert s.origins[m] == n - 1;
      }
      if !s.usedOutput {
        forall a | 0 <= a < m + 1
          ensures !UsesOutput(cps[s.origins[a]])
        {
          if a < m {
            assert s.origins[a] == prev.origins[a];
          }
        }
      }
    }
  }

  lemma {:induction false} ChainUsed(cps: seq<Group>, states: seq<Reconciliation>, n: nat, defaultKey: Option<string>, first: RuntimeValue)
    requires Chain(cps, states, defaultKey, first) && n < |states|
    requires !states[0].usedOutput
    ensures UsedExactly(cps, n, states[n])
  {
    ChainShaped(cps, states, n, defaultKey, first);
    if n > 0 {
      ChainUsed(cps, states, n - 1, defaultKey, first);
      assert Advances(states[n - 1], states[n], cps[n - 1], n - 1, defaultKey, first);
      UsedStep(cps, n, states[n - 1], states[n]);
    }
  }

  lemma ReconciledUsedOutput(cps: seq<Group>, n: nat, defaultKey: Option<string>, first: RuntimeValue,
                             vars: seq<(string, RuntimeValue)>, ic: bool)
    requires n <= |cps|
    ensures var st := Reconciled(cps, n, defaultKey, first, vars, ic);
      Shaped(n, st) && (st.usedOutput <==> exists a :: 0 <= a < |st.origins| && UsesOutput(cps[st.origins[a]]))
  {
    TraceChains(cps, n, defaultKey, first, vars, ic);
    ChainUsed(cps, Trace(cps, n, defaultKey, first, vars, ic), n, defaultKey, first);
  }

  /** At most one recorded item reads the output. */
  ghost predicate OutputOnce(cps: seq<Group>, n: nat, st: Reconciliation)
    requires n <= |cps|
  {
    Shaped(n, st) &&
    forall a, b :: 0 <= a < b < |st.origins| ==> !(UsesOutput(cps[st.origins[a]]) && UsesOutput(cps[st.origins[b]]))
  }

  lemma OnceStep(cps: seq<Group>, n: nat, prev: Reconciliation, s: Reconciliation)
    requires 0 < n <= |cps| && UsedExactly(cps, n - 1, prev) && OutputOnce(cps, n - 1, prev)
    requires Shaped(n, s) && Passes(prev, s, cps[n - 1], n - 1)
    ensures OutputOnce(cps, n, s)
  {
    var m := |prev.origins|;
    forall a, b | 0 <= a < b < |s.origins|
      ensures !(UsesOutput(cps[s.origins[a]]) && UsesOutput(cps[s.origins[b]]))
    {
      assert s.origins[a] == prev.origins[a];
      if b < m {
        assert s.origins[b] == prev.origins[b];
      } else {
        assert s.origins[b] == n - 1;
      }
    }
  }

  lemma {:induction false} ChainOnce(cps: seq<Group>, states: seq<Reconciliation>, n: nat, defaultKey: Option<string>, first: RuntimeValue)
    requires Chain(cps, states, defaultKey, first) && n < |states|
    requires !states[0].usedOutput
    ensures OutputOnce(cps, n, states[n])
  {
    ChainShaped(cps, states, n, defaultKey, first);
    if n > 0 {
      ChainOnce(cps, states, n - 1, defaultKey, first);
      ChainUsed(cps, states, n - 1, defaultKey, first);
      assert Advances(states[n - 1], states[n], cps[n - 1], n - 1, defaultKey, first);
      OnceStep(cps, n, states[n - 1], states[n]);
    }
  }

  lemma ReconciledOutputOnce(cps: seq<Group>, n: nat, defaultKey: Option<string>, first: RuntimeValue,
                             vars: seq<(string, RuntimeValue)>, ic: bool)
    requires n <= |cps|
    ensures var st := Reconciled(cps, n, defaultKey, first, vars, ic);
      Shaped(n, st) &&
      (forall a, b :: 0 <= a < b < |st.origins| ==> !(UsesOutput(cps[st.origins[a]]) && UsesOutput(cps[st.origins[b]])))
  {
    TraceChains(cps, n, defaultKey, first, vars, ic);
    ChainOnce(cps, Trace(cps, n, defaultKey, first, vars, ic), n, defaultKey, first);
  }

  /** No two recorded items share a type/key pair, ignoring case: the first group with a pair wins. */
  lemma ReconciledKeysDistinct(cps: seq<Group>, defaultKey: Option<string>, output: seq<RuntimeValue>,
                               vars: seq<(string, RuntimeValue)>, ic: bool)
    ensures var infos := Reconciled(cps, |cps|, defaultKey, FirstOutput(output), vars, ic).infos;
      forall a, b :: 0 <= a < b < |infos| ==> !EqIC(InfoKey(infos[a]), InfoKey(infos[b]))
  {
    ReconciledDistinct(cps, |cps|, defaultKey, FirstOutput(output), vars, ic);
  }

  /**
   * At most one recorded item comes from a group without `AHCURRENTVALUE`;
   * the items keep the groups' order, and each takes the defaults and the
   * literal directives of its group.
   */
  lemma ReconciledFromGroups(cps: seq<Group>, defaultKey: Option<string>, output: seq<RuntimeValue>,
                             vars: seq<(string, RuntimeValue)>, ic: bool)
    ensures var st := Reconciled(cps, |cps|, defaultKey, FirstOutput(output), vars, ic);
      |st.origins| == |st.infos| &&
      (forall a :: 0 <= a < |st.origins| ==> st.origins[a] < |cps|) &&
      (forall a, b :: 0 <= a < b < |st.origins| ==> st.origins[a] < st.origins[b]) &&
      (forall a, b :: 0 <= a < b < |st.origins| ==> !(UsesOutput(cps[st.origins[a]]) && UsesOutput(cps[st.origins[b]]))) &&
      (forall a :: 0 <= a < |st.infos| ==> InfoFrom(cps[st.origins[a]], st.infos[a], defaultKey, FirstOutput(output)))
  {
    ReconciledInfos(cps, |cps|, defaultKey, FirstOutput(output), vars, ic);
    ReconciledOutputOnce(cps, |cps|, defaultKey, FirstOutput(output), vars, ic);
  }

  /** Every group is accounted for: it is recorded, or it is skipped with one warning. */
  lemma ReconciledAccounted(cps: seq<Group>, defaultKey: Option<string>, output: seq<RuntimeValue>,
                            vars: seq<(string, RuntimeValue)>, ic: bool)
    ensures var st := Reconciled(cps, |cps|, defaultKey, FirstOutput(output), vars, ic);
      |st.infos| + |st.log| == |cps| && forall m :: m in st.log ==> !m.NoGroups?
  {
    ReconciledShaped(cps, |cps|, defaultKey, FirstOutput(output), vars, ic);
  }

  /** The first group is always recorded. */
  lemma FirstGroupRecorded(cps: seq<Group>, defaultKey: Option<string>, output: seq<RuntimeValue>,
                           vars: seq<(string, RuntimeValue)>, ic: bool)
    requires |cps| > 0
    ensures var st := Reconciled(cps, |cps|, defaultKey, FirstOutput(output), vars, ic);
      |st.infos| > 0 && |st.origins| > 0 && st.origins[0] == 0
  {
    var first := FirstOutput(output);
    FirstPass(cps, defaultKey, first, vars, ic);
    TraceChains(cps, |cps|, defaultKey, first, vars, ic);
    var tr := Trace(cps, |cps|, defaultKey, first, vars, ic);
    assert tr[1] == Reconciled(cps, 1, defaultKey, first, vars, ic);
    ChainOriginsGrow(cps, tr, 1, |cps|, defaultKey, first);
    ChainShaped(cps, tr, |cps|, defaultKey, first);
    assert tr[|cps|].origins[..1] == [0];
  }

  /** The pass over the first group, from the empty state, records it. */
  lemma FirstPass(cps: seq<Group>, defaultKey: Option<string>, first: RuntimeValue,
                  vars: seq<(string, RuntimeValue)>, ic: bool)
    requires |cps| > 0
    ensures Reconciled(cps, 1, defaultKey, first, vars, ic).origins == [0]
  {
    StepShape(Reconciled(cps, 0, defaultKey, first, vars, ic), cps[0], 0, defaultKey, first, ic);
  }

  lemma {:induction false} ChainOriginsGrow(cps: seq<Group>, states: seq<Reconciliation>, m: nat, n: nat,
                                            defaultKey: Option<string>, first: RuntimeValue)
    requires Chain(cps, states, defaultKey, first) && m <= n < |states|
    ensures |states[m].origins| <= |states[n].origins| && states[n].origins[..|states[m].origins|] == states[m].origins
  {
    if m < n {
      ChainOriginsGrow(cps, states, m, n - 1, defaultKey, first);
      assert Advances(states[n - 1], states[n], cps[n - 1], n - 1, defaultKey, first);
      var prev := states[n - 1].origins;
      var a := states[m].origins;
      var s := states[n].origins;
      assert s[..|prev|] == prev;
      assert s[..|a|] == prev[..|a|];
    }
  }

  /** Later passes only append items. */
  lemma OriginsGrow(cps: seq<Group>, m: nat, n: nat, defaultKey: Option<string>, first: RuntimeValue,
                    vars: seq<(string, RuntimeValue)>, ic: bool)
    requires m <= n <= |cps|
    ensures var a := Reconciled(cps, m, defaultKey, first, vars, ic).origins;
      var b := Reconciled(cps, n, defaultKey, first, vars, ic).origins;
      |a| <= |b| && b[..|a|] == a
  {
    TraceChains(cps, n, defaultKey, first, vars, ic);
    var tr := Trace(cps, n, defaultKey, first, vars, ic);
    assert tr[m] == Reconciled(cps, m, defaultKey, first, vars, ic);
    ChainOriginsGrow(cps, tr, m, n, defaultKey, first);
  }

  // ---------------------------------------------------------------------------
  // The configuration list

  /** The single item recorded when the script declares no groups. */
  function DefaultInfo(defaultKey: Option<string>, output: seq<RuntimeValue>): ConfigurationInfo
  {
    ConfigurationInfo(Some("PSConfig"), defaultKey, FromBool(true), FirstOutput(output), None)
  }

  /**
   * The `Configuration` list of a collecting run, with the out-variables
   * afterwards and the messages logged: the reconciled groups, or the one
   * default item when there are none (no parsed script, no list or an
   * empty one).
   */
  method ConfigurationList(groups: seq<Group>, defaultKey: Option<string>,
                           output: seq<RuntimeValue>, vars: seq<(string, RuntimeValue)>, ic: bool)
    returns (configInfos: seq<ConfigurationInfo>, outVariables: seq<(string, RuntimeValue)>, log: seq<Notice>)
    ensures groups == [] ==>
      configInfos == [DefaultInfo(defaultKey, output)] && outVariables == vars && log == [NoGroups]
    ensures groups != [] ==>
      var st := Reconciled(groups, |groups|, defaultKey, FirstOutput(output), vars, ic);
      configInfos == st.infos && outVariables == st.outVariables && log == st.log
  {
    if |groups| > 0 {
      configInfos, outVariables, log := ReconcileGroups(groups, defaultKey, output, vars, ic);
    } else {
      configInfos := [DefaultInfo(defaultKey, output)];
      outVariables, log := vars, [NoGroups];
    }
  }
}
