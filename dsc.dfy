/**
 * The DSC helper behind the PowerShell DSC operations: it asks the
 * resource for its property types, runs `Invoke-DscResource` with the
 * `Get`, `Test` or `Set` method, keeps the non-empty collected values and
 * reads whether the server is in its desired state.
 *
 * The job runner, the host's variable and function lookup, the flag
 * reading of `GetFlagOrDefault` and the template's conversion of its
 * properties to a PowerShell dictionary are inputs: their results are
 * parameters, and the jobs are returned rather than run.
 */
module Dsc {
  import opened Common
  import opened RuntimeValues

  /** `RuntimeValueType`. */
  datatype ValueType = ScalarType | VectorType | MapType

  /** The fields of the DSC configuration template the helper reads and, for the preference, writes. */
  class DscTemplate {
    var resourceName: Option<string>
    var moduleName: Option<string>
    var configurationKeyName: Option<string>
    var preferWindowsPowerShell: Option<string>

    constructor(resourceName: Option<string>, moduleName: Option<string>, configurationKeyName: Option<string>, preferWindowsPowerShell: Option<string>)
      ensures this.resourceName == resourceName && this.moduleName == moduleName
      ensures this.configurationKeyName == configurationKeyName && this.preferWindowsPowerShell == preferWindowsPowerShell
    {
      this.resourceName := resourceName;
      this.moduleName := moduleName;
      this.configurationKeyName := configurationKeyName;
      this.preferWindowsPowerShell := preferWindowsPowerShell;
    }
  }

  /** A PowerShell job the helper hands to the job runner. */
  datatype DscJob = DscJob(
    scriptText: string, variables: seq<(string, RuntimeValue)>, collectOutput: bool,
    preferWindowsPowerShell: bool, terminateHostProcess: bool)

  // ---------------------------------------------------------------------------
  // The Windows PowerShell preference

  /**
   * The template's preference after resolution: kept when set, else the
   * `PreferWindowsPowerShell` variable's text, else the function's, else
   * `True`.
   */
  function Preference(current: Option<string>, variable: Option<RuntimeValue>, func: Option<RuntimeValue>): Option<string>
  {
    if !IsNullOrEmpty(current) then current
    else if variable.Some? then AsString(variable.value)
    else if func.Some? then AsString(func.value)
    else Some("True")
  }

  /**
   * A preference already set is never overridden, so resolving again
   * changes nothing once the first resolution produced text; with neither
   * a variable nor a function, an unset preference becomes `True`.
   */
  lemma PreferenceResolvedOnce(current: Option<string>, variable: Option<RuntimeValue>, func: Option<RuntimeValue>,
                               variable2: Option<RuntimeValue>, func2: Option<RuntimeValue>)
    ensures !IsNullOrEmpty(Preference(current, variable, func)) ==>
      Preference(Preference(current, variable, func), variable2, func2) == Preference(current, variable, func)
    ensures !IsNullOrEmpty(current) ==> Preference(current, variable, func) == current
    ensures variable.None? && func.None? ==> !IsNullOrEmpty(Preference(current, variable, func))
  {
  }

  /** Resolution writes the template's preference and nothing else. */
  method ResolvePreference(template: DscTemplate, variable: Option<RuntimeValue>, func: Option<RuntimeValue>)
    modifies template
    ensures template.preferWindowsPowerShell == Preference(old(template.preferWindowsPowerShell), variable, func)
    ensures template.resourceName == old(template.resourceName) && template.moduleName == old(template.moduleName)
    ensures template.configurationKeyName == old(template.configurationKeyName)
  {
    if IsNullOrEmpty(template.preferWindowsPowerShell) {
      if variable.None? {
        if func.None? {
          template.preferWindowsPowerShell := Some("True");
        } else {
          template.preferWindowsPowerShell := AsString(func.value);
        }
      } else {
        template.preferWindowsPowerShell := AsString(variable.value);
      }
    }
  }

  // ---------------------------------------------------------------------------
  // Property types

  const DefaultModuleName: string := "PSDesiredStateConfiguration"

  /** The module passed to the jobs: the template's, or `PSDesiredStateConfiguration` when it is null or empty. */
  function ModuleNameOf(moduleName: Option<string>): (r: string)
    ensures r != ""
    ensures !IsNullOrEmpty(moduleName) ==> r == moduleName.value
  {
    CoalesceString(moduleName, Some(DefaultModuleName)).value
  }

  const PropertyTypesScript: string :=
    "$h = @{}\nforeach($p in (Get-DscResource -Name $Name -Module $ModuleName).Properties) {\n    $h[$p.Name] = $p.PropertyType\n}\nWrite-Output $h"

  /** The job that lists the resource's properties with their types. */
  function PropertyTypesJob(resourceName: Option<string>, moduleName: Option<string>, preferWindowsPowerShell: bool, terminate: bool): DscJob
  {
    DscJob(PropertyTypesScript, [("Name", Scalar(resourceName)), ("ModuleName", Str(ModuleNameOf(moduleName)))],
      true, preferWindowsPowerShell, terminate)
  }

  /** A text of the form `[T[]]`, `T` non-empty and free of square brackets. */
  predicate ArrayTypeText(c: string)
  {
    |c| >= 5 && c[0] == '[' && c[|c| - 3..] == "[]]" && forall i :: 1 <= i < |c| - 3 ==> c[i] != '[' && c[i] != ']'
  }

  /** The anchored pattern `^\[[^\[\]]+\[\]\]$`, whose `$` also matches before a final line feed. */
  predicate IsArrayType(s: string)
  {
    ArrayTypeText(s) || (|s| > 0 && s[|s| - 1] == '\n' && ArrayTypeText(s[..|s| - 1]))
  }

  /** The type recorded for a property: a vector when its type name, read as text, is an array type. */
  function TypeOf(v: RuntimeValue): ValueType
  {
    var value := AsString(v);
    if !IsNullOrWhiteSpace(value) && IsArrayType(value.value) then VectorType else ScalarType
  }

  /** A property is a vector exactly when its type name is a scalar text of the form `[T[]]` (a final line feed allowed). */
  lemma TypeOfIff(v: RuntimeValue)
    ensures TypeOf(v) == VectorType <==> v.Scalar? && v.text.Some? && IsArrayType(v.text.value)
  {
    if v.Scalar? && v.text.Some? && IsArrayType(v.text.value) {
      var s := v.text.value;
      assert !IsWhite(s[0]);
    }
  }

  /** `[T[]]` is an array type and `[T]` is not, for any element type name `T` without square brackets. */
  lemma ArrayTypeNames(t: string)
    requires t != [] && '[' !in t && ']' !in t
    ensures IsArrayType("[" + t + "[]]")
    ensures !IsArrayType("[" + t + "]")
    ensures TypeOf(Str("[" + t + "[]]")) == VectorType && TypeOf(Str("[" + t + "]")) == ScalarType
  {
    var a := "[" + t + "[]]";
    assert a[|a| - 3..] == "[]]";
    assert forall i :: 1 <= i < |a| - 3 ==> a[i] == t[i - 1];
    TypeOfIff(Str(a));
    var s := "[" + t + "]";
    assert s[|s| - 1] == ']';
    if |s| >= 5 {
      assert s[|s| - 3..][0] == s[|s| - 3] == t[|t| - 2];
    }
  }

  /** An array type text is `[`, its element type, then `[]]`. */
  lemma ArrayTypeShape(c: string)
    requires ArrayTypeText(c)
    ensures c == "[" + c[1..|c| - 3] + "[]]"
    ensures c[1..|c| - 3] != [] && '[' !in c[1..|c| - 3] && ']' !in c[1..|c| - 3]
  {
    var e := c[1..|c| - 3];
    assert c[..1] == "[";
    assert c == c[..1] + e + c[|c| - 3..];
    forall i | 0 <= i < |e|
      ensures e[i] != '[' && e[i] != ']'
    {
      assert e[i] == c[i + 1];
    }
  }

  /** The properties the type job returned: the first output value's entries when it is a map. */
  function PropertiesOf(output: seq<RuntimeValue>): seq<(string, RuntimeValue)>
  {
    if output != [] && output[0].Map? then output[0].entries else []
  }

  /** Each property with its type. */
  function Typed(props: seq<(string, RuntimeValue)>): (r: seq<(string, ValueType)>)
    ensures |r| == |props|
    ensures forall i :: 0 <= i < |props| ==> r[i] == (props[i].0, TypeOf(props[i].1))
  {
    seq(|props|, i requires 0 <= i < |props| => (props[i].0, TypeOf(props[i].1)))
  }

  /** The loop over the properties, writing each type under its name (keys ignoring case). */
  method PropertyTypes(output: seq<RuntimeValue>) returns (types: seq<(string, ValueType)>)
    ensures types == SetAll(true, [], Typed(PropertiesOf(output)))
  {
    types := [];
    var properties := PropertiesOf(output);
    for i := 0 to |properties|
      invariant types == SetAll(true, [], Typed(properties[..i]))
    {
      var p := properties[i];
      var value := AsString(p.1);
      var t := if !IsNullOrWhiteSpace(value) && IsArrayType(value.value) then VectorType else ScalarType;
      assert Typed(properties[..i + 1]) == Typed(properties[..i]) + [(p.0, t)];
      SetAllSnoc(true, [], Typed(properties[..i]), (p.0, t));
      types := Set(true, types, p.0, t);
    }
    assert properties[..|properties|] == properties;
  }

  /** Typing keeps which entry a name reads as last. */
  lemma {:induction false} TypedLastMatch(props: seq<(string, RuntimeValue)>, k: string)
    ensures LastMatch(true, Typed(props), k) == match LastMatch(true, props, k) case None => None case Some(v) => Some(TypeOf(v))
  {
    if props != [] {
      var init := props[..|props| - 1];
      var e := props[|props| - 1];
      TypedLastMatch(init, k);
      assert props == init + [e];
      assert Typed(props) == Typed(init) + [(e.0, TypeOf(e.1))];
      LastMatchSnoc(true, Typed(init), (e.0, TypeOf(e.1)), k);
      LastMatchSnoc(true, init, e, k);
    }
  }

  /** A name's type is that of the last property listed under it (ignoring case); unlisted names have none. */
  lemma PropertyTypeReads(props: seq<(string, RuntimeValue)>, k: string)
    ensures Get(true, SetAll(true, [], Typed(props)), k) ==
      match LastMatch(true, props, k) case None => None case Some(v) => Some(TypeOf(v))
  {
    SetAllReads(true, [], Typed(props), k);
    TypedLastMatch(props, k);
  }

  // ---------------------------------------------------------------------------
  // Jobs

  const InvokePrefix: string := "Invoke-DscResource -Name $Name -Method "
  const InvokeSuffix: string := " -Property $Property -ModuleName $ModuleName"

  /** `CreateJob`: `Invoke-DscResource` with the given method, the resource's name, its properties and its module. */
  function CreateJob(methodName: string, property: RuntimeValue, resourceName: Option<string>, moduleName: Option<string>,
                     preferWindowsPowerShell: bool, terminate: bool): DscJob
  {
    DscJob(InvokePrefix + methodName + InvokeSuffix,
      [("Name", Scalar(resourceName)), ("Property", property), ("ModuleName", Str(ModuleNameOf(moduleName)))],
      true, preferWindowsPowerShell, terminate)
  }

  /**
   * The method is read back from the job's script at a fixed place, so
   * jobs for different methods differ; the job passes the template's
   * module, or `PSDesiredStateConfiguration` when it has none.
   */
  lemma JobNamesMethod(methodName: string, property: RuntimeValue, resourceName: Option<string>, moduleName: Option<string>, w: bool, terminate: bool)
    ensures var s := CreateJob(methodName, property, resourceName, moduleName, w, terminate).scriptText;
      StartsWith(s, InvokePrefix) && s[|InvokePrefix|..|s| - |InvokeSuffix|] == methodName && EndsWith(s, InvokeSuffix)
    ensures var job := CreateJob(methodName, property, resourceName, moduleName, w, terminate);
      Get(true, job.variables, "ModuleName") == Some(Str(if IsNullOrEmpty(moduleName) then DefaultModuleName else moduleName.value))
  {
    var s := InvokePrefix + methodName + InvokeSuffix;
    assert s[..|InvokePrefix|] == InvokePrefix;
    assert s[|InvokePrefix|..|s| - |InvokeSuffix|] == methodName;
    assert s[|s| - |InvokeSuffix|..] == InvokeSuffix;
    var job := CreateJob(methodName, property, resourceName, moduleName, w, terminate);
    assert !EqIC("Name", "ModuleName") by { assert UpperStr("Name")[1] != UpperStr("ModuleName")[1]; }
    assert !EqIC("Property", "ModuleName") by { assert UpperStr("Property")[0] != UpperStr("ModuleName")[0]; }
    EqICIsEquivalence("ModuleName", "ModuleName", "ModuleName");
    var vs := job.variables;
    assert FindKey(true, vs[2..], "ModuleName") == 0;
    assert vs[1..][1..] == vs[2..];
    assert FindKey(true, vs[1..], "ModuleName") == 1;
    assert FindKey(true, vs, "ModuleName") == 2;
  }

  /** Jobs for different methods have different scripts. */
  lemma JobsDifferByMethod(m1: string, m2: string, property: RuntimeValue, resourceName: Option<string>, moduleName: Option<string>, w: bool, terminate: bool)
    requires m1 != m2
    ensures CreateJob(m1, property, resourceName, moduleName, w, terminate).scriptText != CreateJob(m2, property, resourceName, moduleName, w, terminate).scriptText
  {
    JobNamesMethod(m1, property, resourceName, moduleName, w, terminate);
    JobNamesMethod(m2, property, resourceName, moduleName, w, terminate);
  }

  // ---------------------------------------------------------------------------
  // Collected values

  /** The collected values: the first `Get` output value's entries when it is a map, none otherwise. */
  function CollectedValues(output: Option<seq<RuntimeValue>>): seq<(string, RuntimeValue)>
  {
    if output.Some? && output.value != [] && output.value[0].Map? then output.value[0].entries else []
  }

  /** A scalar whose text is null or empty. */
  predicate EmptyScalar(v: RuntimeValue)
  {
    v.Scalar? && IsNullOrEmpty(v.text)
  }

  /** `removeKeys`: the keys of the empty scalars, in order. */
  function EmptyScalarKeys(d: seq<(string, RuntimeValue)>): seq<string>
  {
    if d == [] then [] else (if EmptyScalar(d[0].1) then [d[0].0] else []) + EmptyScalarKeys(d[1..])
  }

  /** The dictionary after `Remove` of each key in turn. */
  function WithoutKeys(d: seq<(string, RuntimeValue)>, keys: seq<string>): seq<(string, RuntimeValue)>
  {
    if keys == [] then d else Remove(false, WithoutKeys(d, keys[..|keys| - 1]), keys[|keys| - 1])
  }

  /** The loop over `removeKeys`. */
  method RemoveEmptyScalars(d: seq<(string, RuntimeValue)>) returns (r: seq<(string, RuntimeValue)>)
    ensures r == WithoutKeys(d, EmptyScalarKeys(d))
  {
    var removeKeys := EmptyScalarKeys(d);
    r := d;
    for i := 0 to |removeKeys|
      invariant r == WithoutKeys(d, removeKeys[..i])
    {
      assert removeKeys[..i + 1][..i] == removeKeys[..i];
      r := Remove(false, r, removeKeys[i]);
    }
    assert removeKeys[..|removeKeys|] == removeKeys;
  }

  /** Removing keys one by one leaves every other key reading as before, and the keys unique. */
  lemma {:induction false} WithoutKeysReads(d: seq<(string, RuntimeValue)>, keys: seq<string>, k: string)
    requires UniqueKeys(false, d)
    ensures UniqueKeys(false, WithoutKeys(d, keys))
    ensures Get(false, WithoutKeys(d, keys), k) == if k in keys then None else Get(false, d, k)
  {
    if keys != [] {
      var init := keys[..|keys| - 1];
      var last := keys[|keys| - 1];
      WithoutKeysReads(d, init, k);
      var prev := WithoutKeys(d, init);
      RemoveKeepsUnique(prev, last);
      assert keys == init + [last];
      if k == last {
        RemoveDrops(prev, last);
      } else {
        RemoveKeepsOthers(prev, last, k);
      }
    }
  }

  /** With unique keys, the keys of the empty scalars are exactly the keys that read as an empty scalar. */
  lemma {:induction false} EmptyScalarKeysIff(d: seq<(string, RuntimeValue)>, k: string)
    requires UniqueKeys(false, d)
    ensures k in EmptyScalarKeys(d) <==> Get(false, d, k).Some? && EmptyScalar(Get(false, d, k).value)
  {
    if d != [] {
      var rest := d[1..];
      assert UniqueKeys(false, rest) by {
        forall a, b | 0 <= a < b < |rest| ensures !KeyEq(false, rest[a].0, rest[b].0) {
          assert rest[a] == d[a + 1] && rest[b] == d[b + 1];
        }
      }
      EmptyScalarKeysIff(rest, k);
      if d[0].0 == k {
        EmptyKeysAreKeys(rest, k);
      } else {
        assert FindKey(false, d, k) == (if FindKey(false, rest, k) < 0 then -1 else FindKey(false, rest, k) + 1);
      }
    }
  }

  /** The keys of the empty scalars are keys of the dictionary. */
  lemma {:induction false} EmptyKeysAreKeys(d: seq<(string, RuntimeValue)>, k: string)
    ensures k in EmptyScalarKeys(d) ==> HasKey(false, d, k)
  {
    if d != [] {
      EmptyKeysAreKeys(d[1..], k);
      if k != d[0].0 && k in EmptyScalarKeys(d) {
        assert k in EmptyScalarKeys(d[1..]);
      }
    }
  }

  /**
   * Collected values: a key whose value is a null or empty scalar is gone,
   * every other key reads as collected, and the keys stay unique.
   */
  lemma CollectedValuesKept(d: seq<(string, RuntimeValue)>, k: string)
    requires UniqueKeys(false, d)
    ensures UniqueKeys(false, WithoutKeys(d, EmptyScalarKeys(d)))
    ensures Get(false, WithoutKeys(d, EmptyScalarKeys(d)), k) ==
      if Get(false, d, k).Some? && EmptyScalar(Get(false, d, k).value) then None else Get(false, d, k)
  {
    WithoutKeysReads(d, EmptyScalarKeys(d), k);
    EmptyScalarKeysIff(d, k);
  }

  // ---------------------------------------------------------------------------
  // The desired state

  const NoValues: string := "Invoke-DscResource did not return any values."
  const NoBoolean: string := "Invoke-DscResource did not return a boolean value or an object with an InDesiredState property."
  const InDesiredStateKey: string := "InDesiredState"

  /**
   * `inDesiredState` from the `Test` output: nothing returned is an error;
   * a map with an `InDesiredState` key (under the map's comparer, `mic`
   * ignoring case) gives that value parsed as a boolean; anything else is
   * read as a boolean itself; what does not read as a boolean is an error.
   */
  function InDesiredState(output: seq<RuntimeValue>, mic: bool): (r: Result<bool>)
    ensures output == [] ==> r == Err(NoValues)
    ensures output != [] && r.Err? ==> r.error == NoBoolean
  {
    if output == [] then Err(NoValues)
    else
      var t := output[0];
      var d := if t.Map? && HasKey(mic, t.entries, InDesiredStateKey) then TryParseBool(AsString(Get(mic, t.entries, InDesiredStateKey).value)) else AsBoolean(t);
      if d.None? then Err(NoBoolean) else Ok(d.value)
  }

  lemma BoolTextParses(b: bool)
    ensures TryParseBool(AsString(FromBool(b))) == Some(b)
  {
    var s := if b then "true" else "false";
    assert !IsWhite(s[0]) && !IsWhite(s[|s| - 1]);
    assert Trim(s) == s;
    EqICIsEquivalence(s, s, s);
  }

  /**
   * A boolean reads back: as the first value itself, or as the
   * `InDesiredState` entry of a map; the values after the first are never
   * read.
   */
  lemma DesiredStateReadsBack(b: bool, rest: seq<RuntimeValue>, mic: bool)
    ensures InDesiredState([FromBool(b)] + rest, mic) == Ok(b)
    ensures InDesiredState([Map([(InDesiredStateKey, FromBool(b))])] + rest, mic) == Ok(b)
  {
    BoolTextParses(b);
    assert ([FromBool(b)] + rest)[0] == FromBool(b);
    MapStateReadsBack(b, rest, mic);
  }

  lemma MapStateReadsBack(b: bool, rest: seq<RuntimeValue>, mic: bool)
    ensures InDesiredState([Map([(InDesiredStateKey, FromBool(b))])] + rest, mic) == Ok(b)
  {
    BoolTextParses(b);
    var entries := [(InDesiredStateKey, FromBool(b))];
    EqICIsEquivalence(InDesiredStateKey, InDesiredStateKey, InDesiredStateKey);
    assert KeyEq(mic, entries[0].0, InDesiredStateKey);
    assert FindKey(mic, entries, InDesiredStateKey) == 0;
    assert Get(mic, entries, InDesiredStateKey) == Some(FromBool(b));
    assert ([Map(entries)] + rest)[0] == Map(entries);
  }

  /** A map without an `InDesiredState` entry is read as a boolean itself, which a map never is. */
  lemma MapWithoutStateIsError(entries: seq<(string, RuntimeValue)>, rest: seq<RuntimeValue>, mic: bool)
    requires !HasKey(mic, entries, InDesiredStateKey)
    ensures InDesiredState([Map(entries)] + rest, mic) == Err(NoBoolean)
  {
  }

  // ---------------------------------------------------------------------------
  // Collect and configure

  /** The configuration `CollectAsync` returns. */
  datatype DscCollected = DscCollected(
    values: seq<(string, RuntimeValue)>, moduleName: Option<string>, resourceName: Option<string>,
    configurationKeyName: Option<string>, inDesiredState: bool)

  const BadResourceName: string := "Bad or missing DSC Resource name."

  /**
   * `CollectAsync`. `variable` and `func` are the host's
   * `PreferWindowsPowerShell` variable and function values, `flag` reads
   * the resolved preference as `GetFlagOrDefault` does, `terminate` is the
   * auto-terminate flag, `toPs` the template's conversion of its
   * properties for the given types, and `typesOutput`, `getOutput` and
   * `testOutput` the outputs of the three jobs, in the order returned.
   */
  method CollectAsync(template: DscTemplate, variable: Option<RuntimeValue>, func: Option<RuntimeValue>, flag: Option<string> -> bool,
                      terminate: bool, toPs: seq<(string, ValueType)> -> RuntimeValue,
                      typesOutput: seq<RuntimeValue>, getOutput: Option<seq<RuntimeValue>>, testOutput: seq<RuntimeValue>, mic: bool)
    returns (result: Option<DscCollected>, jobs: seq<DscJob>, log: seq<LogMessage>)
    modifies template
    ensures IsNullOrEmpty(old(template.resourceName)) ==>
      result.None? && jobs == [] && log == [LogMessage(Error, BadResourceName)] &&
      template.preferWindowsPowerShell == old(template.preferWindowsPowerShell)
    ensures !IsNullOrEmpty(old(template.resourceName)) ==>
      template.preferWindowsPowerShell == Preference(old(template.preferWindowsPowerShell), variable, func)
    ensures template.resourceName == old(template.resourceName) && template.moduleName == old(template.moduleName)
    ensures template.configurationKeyName == old(template.configurationKeyName)
    ensures !IsNullOrEmpty(old(template.resourceName)) ==>
      var w := flag(template.preferWindowsPowerShell);
      var property := toPs(SetAll(true, [], Typed(PropertiesOf(typesOutput))));
      var get := CreateJob("Get", property, template.resourceName, template.moduleName, w, terminate);
      var test := CreateJob("Test", property, template.resourceName, template.moduleName, w, terminate);
      var state := InDesiredState(testOutput, mic);
      jobs == [PropertyTypesJob(template.resourceName, template.moduleName, w, terminate), get, test] &&
      log == [LogMessage(Debug, get.scriptText), LogMessage(Debug, test.scriptText)] + (if state.Err? then [LogMessage(Error, state.error)] else []) &&
      result == if state.Err? then None else
        Some(DscCollected(WithoutKeys(CollectedValues(getOutput), EmptyScalarKeys(CollectedValues(getOutput))),
          template.moduleName, template.resourceName, template.configurationKeyName, state.value))
  {
    if IsNullOrEmpty(template.resourceName) {
      return None, [], [LogMessage(Error, BadResourceName)];
    }
    ResolvePreference(template, variable, func);
    var useWindowsPowerShell := flag(template.preferWindowsPowerShell);
    var propertyTypes := PropertyTypes(typesOutput);
    var property := toPs(propertyTypes);
    var typesJob := PropertyTypesJob(template.resourceName, template.moduleName, useWindowsPowerShell, terminate);

    var collectJob := CreateJob("Get", property, template.resourceName, template.moduleName, useWindowsPowerShell, terminate);
    log := [LogMessage(Debug, collectJob.scriptText)];
    var collectValues := RemoveEmptyScalars(CollectedValues(getOutput));

    var testJob := CreateJob("Test", property, template.resourceName, template.moduleName, useWindowsPowerShell, terminate);
    log := log + [LogMessage(Debug, testJob.scriptText)];
    jobs := [typesJob, collectJob, testJob];

    if testOutput == [] {
      log := log + [LogMessage(Error, NoValues)];
      return None, jobs, log;
    }
    var inDesiredState := InDesiredState(testOutput, mic);
    if inDesiredState.Err? {
      log := log + [LogMessage(Error, NoBoolean)];
      return None, jobs, log;
    }
    result := Some(DscCollected(collectValues, template.moduleName, template.resourceName, template.configurationKeyName, inDesiredState.value));
  }

  const InvokingMessage: string := "Invoking DscResource..."

  /**
   * `ConfigureAsync`: a simulation only logs; otherwise the preference is
   * resolved, the property types are asked for and the `Set` job runs.
   */
  method ConfigureAsync(template: DscTemplate, simulation: bool, variable: Option<RuntimeValue>, func: Option<RuntimeValue>, flag: Option<string> -> bool,
                        terminate: bool, toPs: seq<(string, ValueType)> -> RuntimeValue, typesOutput: seq<RuntimeValue>)
    returns (jobs: seq<DscJob>, log: seq<LogMessage>)
    modifies template
    ensures simulation ==>
      jobs == [] && log == [LogMessage(Information, InvokingMessage)] &&
      template.preferWindowsPowerShell == old(template.preferWindowsPowerShell)
    ensures !simulation ==> template.preferWindowsPowerShell == Preference(old(template.preferWindowsPowerShell), variable, func)
    ensures template.resourceName == old(template.resourceName) && template.moduleName == old(template.moduleName)
    ensures template.configurationKeyName == old(template.configurationKeyName)
    ensures !simulation ==>
      var w := flag(template.preferWindowsPowerShell);
      log == [] && jobs == [PropertyTypesJob(template.resourceName, template.moduleName, w, terminate),
        CreateJob("Set", toPs(SetAll(true, [], Typed(PropertiesOf(typesOutput)))), template.resourceName, template.moduleName, w, terminate)]
  {
    if simulation {
      return [], [LogMessage(Information, InvokingMessage)];
    }
    ResolvePreference(template, variable, func);
    var useWindowsPowerShell := flag(template.preferWindowsPowerShell);
    var propertyTypes := PropertyTypes(typesOutput);
    var typesJob := PropertyTypesJob(template.resourceName, template.moduleName, useWindowsPowerShell, terminate);
    var job := CreateJob("Set", toPs(propertyTypes), template.resourceName, template.moduleName, useWindowsPowerShell, terminate);
    return [typesJob, job], [];
  }
}
