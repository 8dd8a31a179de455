/**
 * `SHUtil.ExecuteShellScriptAhAsync`: the run behind the newer shell
 * operations. The script's declared parameters decide where each of the
 * operation's `Parameters` goes (an injected variable, a command-line
 * argument or an out-variable); configuration directives that name a
 * variable add it to the out-variables. After the run the configuration
 * items are read from the out-values, out-parameters are copied to the
 * variables that receive them, and out-values nobody asked for are
 * dropped.
 */
module SHUtil {
  import opened Common
  import opened RuntimeValues
  import opened ScriptParser
  import opened ScriptResults
  import opened ShellRun
  import ShellScriptParser
  import ConfigReconciliation

  /**
   * The properties of a scripting operation (shell or Python) that the run
   * reads; a null dictionary or list is `None`.
   */
  datatype ScriptingOperation = ScriptingOperation(
    scriptName: string,
    parameters: Option<seq<(string, RuntimeValue)>>,
    inputVariables: Option<seq<(string, RuntimeValue)>>,
    outputVariables: Option<seq<string>>)

  // ---------------------------------------------------------------------------
  // Binding `Parameters`

  /** The first parameter the script declares under `key`, ignoring case. */
  function DeclaredAs(ps: seq<ParamInfo>, key: string): (r: Option<ParamInfo>)
    ensures r.Some? ==> r.value in ps && EqIC(r.value.name, key)
    ensures r.None? ==> forall p :: p in ps ==> !EqIC(p.name, key)
  {
    if ps == [] then None
    else if EqIC(ps[0].name, key) then Some(ps[0])
    else DeclaredAs(ps[1..], key)
  }

  /** Where a parameter goes. */
  datatype Destination = ToInput | ToArguments | ToOutput | Unsupported

  /**
   * Undeclared names and declared input-variable or default usage go to
   * the injected variables, argument usage to the arguments, output usage
   * to the out-variables; any other usage is not supported.
   */
  function DestinationOf(ps: seq<ParamInfo>, key: string): Destination
  {
    match DeclaredAs(ps, key)
    case None => ToInput
    case Some(p) =>
      if p.usage == InputVariable || p.usage == Usage.Default then ToInput
      else if p.usage == Arguments then ToArguments
      else if p.usage == OutputVariable then ToOutput
      else Unsupported
  }

  /** `inputVars` and `argVars` (indexer writes, keys ignoring case) and the out-variable set. */
  datatype Binding = Binding(inputVars: seq<(string, RuntimeValue)>, argVars: seq<(string, RuntimeValue)>, outVars: seq<string>)

  /** One parameter; an unsupported usage throws `InvalidOperationException`. */
  function BindOne(b: Binding, ps: seq<ParamInfo>, e: (string, RuntimeValue)): Result<Binding>
  {
    match DestinationOf(ps, e.0)
    case ToInput => Ok(b.(inputVars := Set(true, b.inputVars, e.0, e.1)))
    case ToArguments => Ok(b.(argVars := Set(true, b.argVars, e.0, e.1)))
    case ToOutput => Ok(b.(outVars := AddIC(b.outVars, e.0)))
    case Unsupported => Err("InvalidOperationException")
  }

  /** After the first `n` parameters; the first exception ends the run. */
  function Bound(ps: seq<ParamInfo>, parameters: seq<(string, RuntimeValue)>, n: nat): Result<Binding>
    requires n <= |parameters|
  {
    if n == 0 then Ok(Binding([], [], []))
    else
      var b := Bound(ps, parameters, n - 1);
      if b.Err? then b else BindOne(b.value, ps, parameters[n - 1])
  }

  lemma {:induction false} BoundStaysErr(ps: seq<ParamInfo>, parameters: seq<(string, RuntimeValue)>, m: nat, n: nat)
    requires m <= n <= |parameters| && Bound(ps, parameters, m).Err?
    ensures Bound(ps, parameters, n) == Bound(ps, parameters, m)
    decreases n
  {
    if n > m {
      BoundStaysErr(ps, parameters, m, n - 1);
    }
  }

  lemma BoundNext(ps: seq<ParamInfo>, parameters: seq<(string, RuntimeValue)>, i: nat)
    requires i < |parameters| && Bound(ps, parameters, i).Ok?
    ensures Bound(ps, parameters, i + 1) == BindOne(Bound(ps, parameters, i).value, ps, parameters[i])
  {
  }

  /** The loop over `operation.Parameters` (nothing when the property is null). */
  method BindParameters(ps: seq<ParamInfo>, parameters: Option<seq<(string, RuntimeValue)>>) returns (r: Result<Binding>)
    ensures parameters.None? ==> r == Ok(Binding([], [], []))
    ensures parameters.Some? ==> r == Bound(ps, parameters.value, |parameters.value|)
  {
    var inputVars: seq<(string, RuntimeValue)> := [];
    var argVars: seq<(string, RuntimeValue)> := [];
    var ahOutVars: seq<string> := [];
    if parameters.None? {
      return Ok(Binding([], [], []));
    }
    var pv := parameters.value;
    for i := 0 to |pv|
      invariant Bound(ps, pv, i) == Ok(Binding(inputVars, argVars, ahOutVars))
    {
      var paramValue := pv[i];
      var paramInfo := DeclaredAs(ps, paramValue.0);
      ghost var dest := DestinationOf(ps, paramValue.0);
      BoundNext(ps, pv, i);
      if paramInfo.None? || paramInfo.value.usage == InputVariable || paramInfo.value.usage == Usage.Default {
        assert dest == ToInput;
        inputVars := Set(true, inputVars, paramValue.0, paramValue.1);
      } else if paramInfo.value.usage == Arguments {
        assert dest == ToArguments;
        argVars := Set(true, argVars, paramValue.0, paramValue.1);
      } else if paramInfo.value.usage == OutputVariable {
        assert dest == ToOutput;
        ahOutVars := AddIC(ahOutVars, paramValue.0);
      } else {
        assert dest == Unsupported;
        BoundStaysErr(ps, pv, i + 1, |pv|);
        return Err("InvalidOperationException");
      }
    }
    return Ok(Binding(inputVars, argVars, ahOutVars));
  }

  /** The parameters among the first `n` that go to `d`, in order. */
  function EntriesTo(ps: seq<ParamInfo>, parameters: seq<(string, RuntimeValue)>, n: nat, d: Destination): seq<(string, RuntimeValue)>
    requires n <= |parameters|
  {
    if n == 0 then []
    else EntriesTo(ps, parameters, n - 1, d) + (if DestinationOf(ps, parameters[n - 1].0) == d then [parameters[n - 1]] else [])
  }

  /** The names of the parameters among the first `n` that go to the out-variables, in order. */
  function OutputNames(ps: seq<ParamInfo>, parameters: seq<(string, RuntimeValue)>, n: nat): seq<string>
    requires n <= |parameters|
  {
    if n == 0 then []
    else OutputNames(ps, parameters, n - 1) + (if DestinationOf(ps, parameters[n - 1].0) == ToOutput then [parameters[n - 1].0] else [])
  }

  predicate AllSupported(ps: seq<ParamInfo>, parameters: seq<(string, RuntimeValue)>, n: nat)
    requires n <= |parameters|
  {
    forall i :: 0 <= i < n ==> DestinationOf(ps, parameters[i].0) != Unsupported
  }

  /**
   * Binding fails exactly when some parameter is declared with an
   * unsupported usage; otherwise the injected variables and the arguments
   * are the parameters routed to each, written in order, and the
   * out-variables are the names routed there, each kept once ignoring case.
   */
  lemma {:induction false} BoundEntries(ps: seq<ParamInfo>, parameters: seq<(string, RuntimeValue)>, n: nat)
    requires n <= |parameters|
    ensures Bound(ps, parameters, n).Ok? <==> AllSupported(ps, parameters, n)
    ensures Bound(ps, parameters, n).Ok? ==> Bound(ps, parameters, n).value == Binding(
      SetAll(true, [], EntriesTo(ps, parameters, n, ToInput)),
      SetAll(true, [], EntriesTo(ps, parameters, n, ToArguments)),
      AddAllIC([], OutputNames(ps, parameters, n)))
  {
    if n > 0 {
      BoundEntries(ps, parameters, n - 1);
      BoundEntriesStep(ps, parameters, n);
    }
  }

  /** The induction step of `BoundEntries`. */
  lemma BoundEntriesStep(ps: seq<ParamInfo>, parameters: seq<(string, RuntimeValue)>, n: nat)
    requires 0 < n <= |parameters|
    requires Bound(ps, parameters, n - 1).Ok? <==> AllSupported(ps, parameters, n - 1)
    requires Bound(ps, parameters, n - 1).Ok? ==> Bound(ps, parameters, n - 1).value == Binding(
      SetAll(true, [], EntriesTo(ps, parameters, n - 1, ToInput)),
      SetAll(true, [], EntriesTo(ps, parameters, n - 1, ToArguments)),
      AddAllIC([], OutputNames(ps, parameters, n - 1)))
    ensures Bound(ps, parameters, n).Ok? <==> AllSupported(ps, parameters, n)
    ensures Bound(ps, parameters, n).Ok? ==> Bound(ps, parameters, n).value == Binding(
      SetAll(true, [], EntriesTo(ps, parameters, n, ToInput)),
      SetAll(true, [], EntriesTo(ps, parameters, n, ToArguments)),
      AddAllIC([], OutputNames(ps, parameters, n)))
  {
    var e := parameters[n - 1];
    var prev := Bound(ps, parameters, n - 1);
    if prev.Ok? {
      assert Bound(ps, parameters, n) == BindOne(prev.value, ps, e);
    } else {
      assert Bound(ps, parameters, n) == prev;
    }
    assert AllSupported(ps, parameters, n) <==> AllSupported(ps, parameters, n - 1) && DestinationOf(ps, e.0) != Unsupported;
    var ins, args, outs := EntriesTo(ps, parameters, n - 1, ToInput), EntriesTo(ps, parameters, n - 1, ToArguments), OutputNames(ps, parameters, n - 1);
    match DestinationOf(ps, e.0)
    case ToInput =>
      SetAllSnoc(true, [], ins, e);
      assert EntriesTo(ps, parameters, n, ToArguments) == args + [] == args;
      assert OutputNames(ps, parameters, n) == outs + [] == outs;
    case ToArguments =>
      SetAllSnoc(true, [], args, e);
      assert EntriesTo(ps, parameters, n, ToInput) == ins + [] == ins;
      assert OutputNames(ps, parameters, n) == outs + [] == outs;
    case ToOutput =>
      AddAllICSnoc([], outs, e.0);
      assert EntriesTo(ps, parameters, n, ToInput) == ins + [] == ins;
      assert EntriesTo(ps, parameters, n, ToArguments) == args + [] == args;
    case Unsupported =>
  }

  // ---------------------------------------------------------------------------
  // Argument defaults and the command line

  /** A declared argument with a non-empty default. */
  predicate HasDefault(p: ParamInfo)
  {
    p.usage == Arguments && !IsNullOrEmpty(p.defaultValue)
  }

  /** The arguments after the defaults of the first `n` declared parameters: a default is written only under a name not yet present. */
  function WithDefaults(argVars: seq<(string, RuntimeValue)>, ps: seq<ParamInfo>, n: nat): seq<(string, RuntimeValue)>
    requires n <= |ps|
  {
    if n == 0 then argVars
    else
      var d := WithDefaults(argVars, ps, n - 1);
      var p := ps[n - 1];
      if HasDefault(p) && !HasKey(true, d, p.name) then Set(true, d, p.name, Str(p.defaultValue.value)) else d
  }

  /** The loop over the declared arguments with defaults. */
  method FillDefaults(argVars: seq<(string, RuntimeValue)>, ps: seq<ParamInfo>) returns (r: seq<(string, RuntimeValue)>)
    ensures r == WithDefaults(argVars, ps, |ps|)
  {
    r := argVars;
    for i := 0 to |ps|
      invariant r == WithDefaults(argVars, ps, i)
    {
      var p := ps[i];
      if p.usage == Arguments && !IsNullOrEmpty(p.defaultValue) {
        if !HasKey(true, r, p.name) {
          r := Set(true, r, p.name, Str(p.defaultValue.value));
        }
      }
    }
  }

  /** The default of the first of the first `n` declared parameters named `k` (ignoring case) that has one. */
  function FirstDefault(ps: seq<ParamInfo>, n: nat, k: string): Option<RuntimeValue>
    requires n <= |ps|
  {
    if n == 0 then None
    else
      var f := FirstDefault(ps, n - 1, k);
      if f.Some? then f
      else if HasDefault(ps[n - 1]) && EqIC(ps[n - 1].name, k) then Some(Str(ps[n - 1].defaultValue.value))
      else None
  }

  /**
   * Defaults fill only the names that were not supplied: a supplied
   * argument keeps its value, and a missing one takes the first declared
   * default under its name, if any.
   */
  lemma {:induction false} DefaultsFillOnlyMissing(argVars: seq<(string, RuntimeValue)>, ps: seq<ParamInfo>, n: nat, k: string)
    requires n <= |ps|
    ensures HasKey(true, argVars, k) ==> Get(true, WithDefaults(argVars, ps, n), k) == Get(true, argVars, k)
    ensures !HasKey(true, argVars, k) ==> Get(true, WithDefaults(argVars, ps, n), k) == FirstDefault(ps, n, k)
  {
    if n > 0 {
      DefaultsFillOnlyMissing(argVars, ps, n - 1, k);
      var d := WithDefaults(argVars, ps, n - 1);
      var p := ps[n - 1];
      if HasDefault(p) && !HasKey(true, d, p.name) {
        var v := Str(p.defaultValue.value);
        GetSet(true, d, p.name, v, k);
        if EqIC(p.name, k) {
          FindKeyEq(true, d, p.name, k);
          FindKeyEq(true, Set(true, d, p.name, v), p.name, k);
        }
      } else if HasDefault(p) && EqIC(p.name, k) {
        FindKeyEq(true, d, p.name, k);
      }
    }
  }

  /**
   * The command line: the arguments format expanded over the arguments
   * (`expand` standing for `ExpandVariablesAsync`), empty without a format;
   * arguments without a format draw a warning.
   */
  function CommandLine(argVars: seq<(string, RuntimeValue)>, format: string, expand: (string, seq<(string, RuntimeValue)>) -> string): (r: (string, seq<LogMessage>))
    ensures IsNullOrWhiteSpace(Some(format)) ==> r.0 == ""
    ensures !IsNullOrWhiteSpace(Some(format)) ==> r.0 == expand(format, argVars)
    ensures r.1 != [] <==> |argVars| > 0 && IsNullOrWhiteSpace(Some(format))
  {
    if |argVars| > 0 && IsNullOrWhiteSpace(Some(format)) then
      ("", [LogMessage(Warning, "Command line arguments have been specified in AhParameters, but no AhArgumentsFormat string was specified.")])
    else if !IsNullOrWhiteSpace(Some(format)) then (expand(format, argVars), [])
    else ("", [])
  }

  // ---------------------------------------------------------------------------
  // Input variables, the execution mode and the out-variables

  /** The execution-mode variable is added (`Add`, so an existing name throws) under its name without leading '$'. */
  function WithExecModeVariable(inputVars: seq<(string, RuntimeValue)>, execModeVariable: string, execMode: string): (r: Result<seq<(string, RuntimeValue)>>)
    ensures IsNullOrWhiteSpace(Some(execModeVariable)) ==> r == Ok(inputVars)
    ensures !IsNullOrWhiteSpace(Some(execModeVariable)) ==>
      (r.Err? <==> HasKey(true, inputVars, ConfigReconciliation.TrimDollars(execModeVariable))) &&
      (r.Ok? ==> Get(true, r.value, ConfigReconciliation.TrimDollars(execModeVariable)) == Some(Str(execMode)))
  {
    if IsNullOrWhiteSpace(Some(execModeVariable)) then Ok(inputVars)
    else
      var name := ConfigReconciliation.TrimDollars(execModeVariable);
      var r := Add(true, inputVars, name, Str(execMode));
      if r.Ok? then
        FindKeyAppend(true, inputVars, name, (name, Str(execMode)));
        assert KeyEq(true, name, name);
        r
      else r
  }

  /** `addOutVar`: a non-blank directive value starting with '$' names an out-variable, the rest of the value. */
  function ConfigRef(value: Option<string>): (r: seq<string>)
    ensures |r| <= 1
    ensures r != [] ==> value.Some? && value.value == "$" + r[0]
  {
    if !IsNullOrWhiteSpace(value) && StartsWith(value.value, "$") then
      assert value.value == "$" + value.value[1..];
      [value.value[1..]]
    else []
  }

  /** The out-variables one configuration group names: key, type, current, desired, drift. */
  function GroupRefs(c: ConfigValues): seq<string>
  {
    ConfigRef(c.configKey) + ConfigRef(c.configType) + ConfigRef(c.currentValue) + ConfigRef(c.desiredValue) + ConfigRef(c.valueDrifted)
  }

  function ConfigRefs(cs: seq<ConfigValues>): seq<string>
    decreases |cs|
  {
    if cs == [] then [] else ConfigRefs(cs[..|cs| - 1]) + GroupRefs(cs[|cs| - 1])
  }

  lemma {:induction false} AddAllICAppend(xs: seq<string>, a: seq<string>, b: seq<string>)
    ensures AddAllIC(xs, a + b) == AddAllIC(AddAllIC(xs, a), b)
    decreases |b|
  {
    if b == [] {
      assert a + b == a;
    } else {
      var init := b[..|b| - 1];
      AddAllICAppend(xs, a, init);
      assert (a + b)[..|a + b| - 1] == a + init;
    }
  }

  /** `addOutVar` on one value. */
  method AddOutVar(ahOutVars: seq<string>, value: Option<string>) returns (r: seq<string>)
    ensures r == AddAllIC(ahOutVars, ConfigRef(value))
  {
    r := ahOutVars;
    if !IsNullOrWhiteSpace(value) && StartsWith(value.value, "$") {
      r := AddIC(r, value.value[1..]);
      assert AddAllIC(ahOutVars, ConfigRef(value)) == AddIC(AddAllIC(ahOutVars, []), value.value[1..]);
    }
  }

  /** The loop over the configuration groups. */
  method AddConfigRefs(ahOutVars: seq<string>, cs: seq<ConfigValues>) returns (r: seq<string>)
    ensures r == AddAllIC(ahOutVars, ConfigRefs(cs))
  {
    r := ahOutVars;
    for i := 0 to |cs|
      invariant r == AddAllIC(ahOutVars, ConfigRefs(cs[..i]))
    {
      var c := cs[i];
      ghost var before := r;
      r := AddOutVar(r, c.configKey);
      r := AddOutVar(r, c.configType);
      r := AddOutVar(r, c.currentValue);
      r := AddOutVar(r, c.desiredValue);
      r := AddOutVar(r, c.valueDrifted);
      var k, t, cu, de, dr := ConfigRef(c.configKey), ConfigRef(c.configType), ConfigRef(c.currentValue), ConfigRef(c.desiredValue), ConfigRef(c.valueDrifted);
      AddAllICAppend(before, k, t);
      AddAllICAppend(before, k + t, cu);
      AddAllICAppend(before, k + t + cu, de);
      AddAllICAppend(before, k + t + cu + de, dr);
      assert r == AddAllIC(before, GroupRefs(c));
      assert cs[..i + 1][..i] == cs[..i];
      assert ConfigRefs(cs[..i + 1]) == ConfigRefs(cs[..i]) + GroupRefs(c);
      AddAllICAppend(ahOutVars, ConfigRefs(cs[..i]), GroupRefs(c));
    }
    assert cs[..|cs|] == cs;
  }

  // ---------------------------------------------------------------------------
  // Preparing the run

  /** What the run is started with, and what the resolution afterwards needs. */
  datatype Prepared = Prepared(startInfo: ShellStartInfo, ahOutVars: seq<string>, originalOutVars: seq<string>, log: seq<LogMessage>)

  /** The injected variables before the execution mode: the input-routed parameters, then `InputVariables` written over them. */
  function InputVariablesOf(b: Binding, op: ScriptingOperation): seq<(string, RuntimeValue)>
  {
    SetAll(true, b.inputVars, op.inputVariables.GetOr([]))
  }

  /** The out-variables: those bound, the requested ones, then the configuration references. */
  function OutVariablesOf(b: Binding, op: ScriptingOperation, info: ScriptInfo): seq<string>
  {
    AddAllIC(AddAllIC(b.outVars, op.outputVariables.GetOr([])), ConfigRefs(info.configValues))
  }

  function Prepare(scriptText: string, info: ScriptInfo, op: ScriptingOperation, execMode: string,
                   expand: (string, seq<(string, RuntimeValue)>) -> string): Result<Prepared>
  {
    var bound := if op.parameters.None? then Ok(Binding([], [], [])) else Bound(info.parameters, op.parameters.value, |op.parameters.value|);
    if bound.Err? then Err(bound.error)
    else
      var b := bound.value;
      var commandLine := CommandLine(WithDefaults(b.argVars, info.parameters, |info.parameters|), info.argsFormat, expand);
      var inputVars := WithExecModeVariable(InputVariablesOf(b, op), info.execMode, execMode);
      if inputVars.Err? then Err(inputVars.error)
      else
        var outVars := OutVariablesOf(b, op, info);
        Ok(Prepared(ShellStartInfo(scriptText, Some(inputVars.value), Some(outVars), commandLine.0),
                    outVars, op.outputVariables.GetOr([]), commandLine.1))
  }

  /** `InputVariables` written over the injected variables, in order. */
  method SetInputVariables(inputVars: seq<(string, RuntimeValue)>, vars: Option<seq<(string, RuntimeValue)>>) returns (r: seq<(string, RuntimeValue)>)
    ensures r == SetAll(true, inputVars, vars.GetOr([]))
  {
    r := inputVars;
    if vars.Some? {
      var vs := vars.value;
      for i := 0 to |vs|
        invariant r == SetAll(true, inputVars, vs[..i])
      {
        SetAllSnoc(true, inputVars, vs[..i], vs[i]);
        assert vs[..i + 1] == vs[..i] + [vs[i]];
        r := Set(true, r, vs[i].0, vs[i].1);
      }
      assert vs[..|vs|] == vs;
    }
  }

  /** `ahOutVars.UnionWith(OutputVariables)`. */
  method UnionWith(ahOutVars: seq<string>, names: Option<seq<string>>) returns (r: seq<string>)
    ensures r == AddAllIC(ahOutVars, names.GetOr([]))
  {
    r := ahOutVars;
    if names.Some? {
      var ns := names.value;
      for i := 0 to |ns|
        invariant r == AddAllIC(ahOutVars, ns[..i])
      {
        AddAllICSnoc(ahOutVars, ns[..i], ns[i]);
        assert ns[..i + 1] == ns[..i] + [ns[i]];
        r := AddIC(r, ns[i]);
      }
      assert ns[..|ns|] == ns;
    }
  }

  /** Everything between parsing the script and starting it. */
  /**
   * What preparing logs before it returns or throws: nothing when a
   * parameter's usage is unsupported, otherwise the arguments-format
   * warning, which comes before the execution-mode `Add` that may throw.
   */
  function PrepareLog(info: ScriptInfo, op: ScriptingOperation, expand: (string, seq<(string, RuntimeValue)>) -> string): seq<LogMessage>
  {
    var bound := if op.parameters.None? then Ok(Binding([], [], [])) else Bound(info.parameters, op.parameters.value, |op.parameters.value|);
    if bound.Err? then [] else CommandLine(WithDefaults(bound.value.argVars, info.parameters, |info.parameters|), info.argsFormat, expand).1
  }

  method PrepareRun(scriptText: string, info: ScriptInfo, op: ScriptingOperation, execMode: string,
                    expand: (string, seq<(string, RuntimeValue)>) -> string) returns (r: Result<Prepared>, log: seq<LogMessage>)
    ensures r == Prepare(scriptText, info, op, execMode, expand)
    ensures log == PrepareLog(info, op, expand)
    ensures r.Ok? ==> r.value.log == log
  {
    var bound := BindParameters(info.parameters, op.parameters);
    if bound.Err? {
      return Err(bound.error), [];
    }
    var b := bound.value;
    var argVars := FillDefaults(b.argVars, info.parameters);
    var commandLine := CommandLine(argVars, info.argsFormat, expand);
    var inputVars := SetInputVariables(b.inputVars, op.inputVariables);
    var withMode := WithExecModeVariable(inputVars, info.execMode, execMode);
    if withMode.Err? {
      return Err(withMode.error), commandLine.1;
    }
    var originalOutVars := op.outputVariables.GetOr([]);
    var ahOutVars := UnionWith(b.outVars, op.outputVariables);
    ahOutVars := AddConfigRefs(ahOutVars, info.configValues);
    return Ok(Prepared(ShellStartInfo(scriptText, Some(withMode.value), Some(ahOutVars), commandLine.0),
                       ahOutVars, originalOutVars, commandLine.1)), commandLine.1;
  }

  /**
   * The injected variables: a variable other than the execution-mode
   * variable holds the last `InputVariables` entry under its name, or else
   * the last input-routed parameter under it; the execution-mode variable
   * holds the mode.
   */
  lemma InjectedReads(ins: seq<(string, RuntimeValue)>, inputs: seq<(string, RuntimeValue)>, execModeVariable: string, execMode: string, k: string)
    requires WithExecModeVariable(SetAll(true, SetAll(true, [], ins), inputs), execModeVariable, execMode).Ok?
    ensures var injected := WithExecModeVariable(SetAll(true, SetAll(true, [], ins), inputs), execModeVariable, execMode).value;
      (!IsNullOrWhiteSpace(Some(execModeVariable)) ==> Get(true, injected, ConfigReconciliation.TrimDollars(execModeVariable)) == Some(Str(execMode))) &&
      (IsNullOrWhiteSpace(Some(execModeVariable)) || !EqIC(ConfigReconciliation.TrimDollars(execModeVariable), k) ==>
        Get(true, injected, k) == if LastMatch(true, inputs, k).Some? then LastMatch(true, inputs, k) else LastMatch(true, ins, k))
  {
    var before := SetAll(true, SetAll(true, [], ins), inputs);
    SetAllReads(true, SetAll(true, [], ins), inputs, k);
    SetAllReads(true, [], ins, k);
    var name := ConfigReconciliation.TrimDollars(execModeVariable);
    if !IsNullOrWhiteSpace(Some(execModeVariable)) && !EqIC(name, k) {
      FindKeyAppend(true, before, k, (name, Str(execMode)));
    }
  }

  /** The out-variables hold no name twice, ignoring case, and cover every name added. */
  lemma OutVariablesCover(names: seq<string>, requested: seq<string>, refs: seq<string>)
    ensures var outs := AddAllIC(AddAllIC(AddAllIC([], names), requested), refs);
      DistinctIC(outs) && forall x :: x in names + requested + refs ==> ContainsIC(outs, x)
  {
    AddAllICAppend([], names, requested);
    AddAllICAppend([], names + requested, refs);
    AddAllICFacts([], names + requested + refs);
  }

  /** The injected variables are the input-routed parameters, then `InputVariables`, then the execution mode (see `InjectedReads`). */
  lemma PreparedInjected(scriptText: string, info: ScriptInfo, op: ScriptingOperation, execMode: string,
                         expand: (string, seq<(string, RuntimeValue)>) -> string)
    requires op.parameters.Some?
    requires Prepare(scriptText, info, op, execMode, expand).Ok?
    ensures var pv := op.parameters.value;
      var injected := Prepare(scriptText, info, op, execMode, expand).value.startInfo.injectedVariables;
      injected.Some? &&
      WithExecModeVariable(SetAll(true, SetAll(true, [], EntriesTo(info.parameters, pv, |pv|, ToInput)), op.inputVariables.GetOr([])),
        info.execMode, execMode) == Ok(injected.value)
  {
    var pv := op.parameters.value;
    var b := Bound(info.parameters, pv, |pv|).value;
    var inputs := op.inputVariables.GetOr([]);
    BoundEntries(info.parameters, pv, |pv|);
    assert InputVariablesOf(b, op) == SetAll(true, SetAll(true, [], EntriesTo(info.parameters, pv, |pv|, ToInput)), inputs);
  }

  /**
   * The out-variables hold no name twice (ignoring case) and cover every
   * output-routed parameter, every requested variable and every
   * configuration reference.
   */
  lemma PreparedOutVariables(scriptText: string, info: ScriptInfo, op: ScriptingOperation, execMode: string,
                             expand: (string, seq<(string, RuntimeValue)>) -> string)
    requires op.parameters.Some?
    requires Prepare(scriptText, info, op, execMode, expand).Ok?
    ensures var outs := Prepare(scriptText, info, op, execMode, expand).value.ahOutVars;
      var pv := op.parameters.value;
      DistinctIC(outs) &&
      forall x :: x in OutputNames(info.parameters, pv, |pv|) + op.outputVariables.GetOr([]) + ConfigRefs(info.configValues) ==> ContainsIC(outs, x)
  {
    var pv := op.parameters.value;
    BoundEntries(info.parameters, pv, |pv|);
    OutVariablesCover(OutputNames(info.parameters, pv, |pv|), op.outputVariables.GetOr([]), ConfigRefs(info.configValues));
  }

  /**
   * Preparing fails exactly when a parameter has an unsupported usage or
   * the execution-mode variable's name is already taken, ignoring case, by
   * an injected variable.
   */
  lemma PrepareFails(scriptText: string, info: ScriptInfo, op: ScriptingOperation, execMode: string,
                     expand: (string, seq<(string, RuntimeValue)>) -> string)
    requires op.parameters.Some?
    ensures var pv := op.parameters.value;
      Prepare(scriptText, info, op, execMode, expand).Err? <==>
        !AllSupported(info.parameters, pv, |pv|) ||
        (!IsNullOrWhiteSpace(Some(info.execMode)) &&
         HasKey(true, SetAll(true, SetAll(true, [], EntriesTo(info.parameters, pv, |pv|, ToInput)), op.inputVariables.GetOr([])),
                ConfigReconciliation.TrimDollars(info.execMode)))
  {
    BoundEntries(info.parameters, op.parameters.value, |op.parameters.value|);
  }

  // ---------------------------------------------------------------------------
  // Resolving the results

  /** `tryGetOutVar`: "$x" reads out-value x as text (null when absent); "" is null; anything else is a literal. */
  function TryGetOutVar(outValues: seq<(string, RuntimeValue)>, varName: Option<string>): (r: Option<string>)
    ensures varName.Some? && StartsWith(varName.value, "$") ==>
      (r.Some? ==> Get(false, outValues, varName.value[1..]).Some? && r == AsString(Get(false, outValues, varName.value[1..]).value))
    ensures varName.Some? && StartsWith(varName.value, "$") && !HasKey(false, outValues, varName.value[1..]) ==> r.None?
    ensures !(varName.Some? && StartsWith(varName.value, "$")) ==> r == (if varName == Some("") then None else varName)
  {
    if varName.Some? && StartsWith(varName.value, "$") then
      match Get(false, outValues, varName.value[1..])
      case Some(value) => AsString(value)
      case None => None
    else if varName == Some("") then None
    else varName
  }

  /** A reference to an out-variable the script reported reads as the reported text. */
  lemma ReferenceReadsReport(outValues: seq<(string, RuntimeValue)>, name: string, value: string)
    requires Get(false, outValues, name) == Some(Str(value))
    ensures TryGetOutVar(outValues, Some("$" + name)) == Some(value)
  {
    assert ("$" + name)[1..] == name;
  }

  /** The configuration item of one group, each directive resolved by `tryGetOutVar`. */
  function ConfigurationOf(outValues: seq<(string, RuntimeValue)>, c: ConfigValues): ConfigurationInfo
  {
    ConfigurationInfo(
      TryGetOutVar(outValues, c.configType),
      TryGetOutVar(outValues, c.configKey),
      Scalar(TryGetOutVar(outValues, c.desiredValue)),
      Scalar(TryGetOutVar(outValues, c.currentValue)),
      TryParseBool(TryGetOutVar(outValues, c.valueDrifted)))
  }

  /** One configuration item per group, in order. */
  function Configurations(outValues: seq<(string, RuntimeValue)>, cs: seq<ConfigValues>): (r: seq<ConfigurationInfo>)
    ensures |r| == |cs| && forall i :: 0 <= i < |cs| ==> r[i] == ConfigurationOf(outValues, cs[i])
  {
    seq(|cs|, i requires 0 <= i < |cs| => ConfigurationOf(outValues, cs[i]))
  }

  /** The declared output parameters that were among the out-variables (ignoring case), in declaration order. */
  function OutParams(ps: seq<ParamInfo>, ahOutVars: seq<string>): (r: seq<ParamInfo>)
    ensures forall p :: p in r <==> p in ps && p.usage == OutputVariable && ContainsIC(ahOutVars, p.name)
    decreases |ps|
  {
    if ps == [] then []
    else
      var rest := OutParams(ps[..|ps| - 1], ahOutVars);
      var p := ps[|ps| - 1];
      assert forall q :: q in ps <==> q in ps[..|ps| - 1] || q == p;
      rest + (if p.usage == OutputVariable && ContainsIC(ahOutVars, p.name) then [p] else [])
  }

  /** The out-values and the list of variables to keep, as the out-parameters are copied. */
  datatype Remap = Remap(outValues: seq<(string, RuntimeValue)>, original: seq<string>)

  /**
   * One out-parameter: the variable that receives it is the text of its
   * value in `Parameters` (`pic` telling whether that dictionary ignores
   * case); the out-value is copied there (ordinal keys) and the variable
   * is kept. A null `Parameters`, a missing entry, a missing out-value or
   * a null variable name throws.
   */
  function RemapOne(st: Remap, p: ParamInfo, parameters: Option<seq<(string, RuntimeValue)>>, pic: bool): Result<Remap>
  {
    if parameters.None? then Err("NullReferenceException")
    else
      match Get(pic, parameters.value, p.name)
      case None => Err("KeyNotFoundException")
      case Some(v) =>
        match Get(false, st.outValues, p.name)
        case None => Err("KeyNotFoundException")
        case Some(value) =>
          match AsString(v)
          case None => Err("ArgumentNullException")
          case Some(param) =>
            Ok(Remap(Set(false, st.outValues, param, value), if param in st.original then st.original else st.original + [param]))
  }

  /** The out-parameters copied in order, from `st`; the first that throws ends the copying. */
  function Remapped(st: Remap, outParams: seq<ParamInfo>, parameters: Option<seq<(string, RuntimeValue)>>, pic: bool): Result<Remap>
    decreases |outParams|
  {
    if outParams == [] then Ok(st)
    else
      match RemapOne(st, outParams[0], parameters, pic)
      case Err(m) => Err(m)
      case Ok(next) => Remapped(next, outParams[1..], parameters, pic)
  }

  /** The loop over the out-parameters. */
  method RemapOutParams(st: Remap, outParams: seq<ParamInfo>, parameters: Option<seq<(string, RuntimeValue)>>, pic: bool) returns (r: Result<Remap>)
    ensures r == Remapped(st, outParams, parameters, pic)
  {
    var cur := st;
    for i := 0 to |outParams|
      invariant Remapped(st, outParams, parameters, pic) == Remapped(cur, outParams[i..], parameters, pic)
    {
      assert outParams[i..][0] == outParams[i] && outParams[i..][1..] == outParams[i + 1..];
      var step := RemapOne(cur, outParams[i], parameters, pic);
      if step.Err? {
        return step;
      }
      cur := step.value;
    }
    assert outParams[|outParams|..] == [];
    return Ok(cur);
  }

  /** Copying out-parameters keeps the out-value keys unique and only adds variables to keep. */
  lemma {:induction false} RemappedKeeps(st: Remap, outParams: seq<ParamInfo>, parameters: Option<seq<(string, RuntimeValue)>>, pic: bool)
    requires UniqueKeys(false, st.outValues)
    requires Remapped(st, outParams, parameters, pic).Ok?
    ensures UniqueKeys(false, Remapped(st, outParams, parameters, pic).value.outValues)
    ensures forall x :: x in st.original ==> x in Remapped(st, outParams, parameters, pic).value.original
    decreases |outParams|
  {
    if outParams != [] {
      var p := outParams[0];
      var step := RemapOne(st, p, parameters, pic);
      var v := Get(pic, parameters.value, p.name).value;
      var value := Get(false, st.outValues, p.name).value;
      SetKeepsUnique(false, st.outValues, AsString(v).value, value);
      RemappedKeeps(step.value, outParams[1..], parameters, pic);
    }
  }

  /** `ahOutVars.Except(originalOutVars, OrdinalIgnoreCase)`: each out-variable not kept, once. */
  function ExceptIC(xs: seq<string>, keep: seq<string>): (r: seq<string>)
    ensures forall x :: x in r ==> x in xs && !ContainsIC(keep, x)
    ensures forall x :: x in xs && !ContainsIC(keep, x) ==> ContainsIC(r, x)
    decreases |xs|
  {
    if xs == [] then []
    else
      var rest := ExceptIC(xs[..|xs| - 1], keep);
      var x := xs[|xs| - 1];
      assert forall y :: y in xs <==> y in xs[..|xs| - 1] || y == x;
      if ContainsIC(keep, x) || ContainsIC(rest, x) then rest
      else
        ContainsICAppend(rest, [x]);
        assert EqIC(x, x) && (rest + [x])[|rest|] == x;
        rest + [x]
  }

  /** `Remove` of each name in turn (ordinal keys). */
  function RemoveAll(d: seq<(string, RuntimeValue)>, names: seq<string>): seq<(string, RuntimeValue)>
    decreases |names|
  {
    if names == [] then d else Remove(false, RemoveAll(d, names[..|names| - 1]), names[|names| - 1])
  }

  /** Removing a list of names: none of them is left, and every other key reads as before. */
  lemma {:induction false} RemoveAllReads(d: seq<(string, RuntimeValue)>, names: seq<string>, k: string)
    requires UniqueKeys(false, d)
    ensures UniqueKeys(false, RemoveAll(d, names))
    ensures k in names ==> !HasKey(false, RemoveAll(d, names), k)
    ensures k !in names ==> Get(false, RemoveAll(d, names), k) == Get(false, d, k)
    decreases |names|
  {
    if names != [] {
      var init := names[..|names| - 1];
      var last := names[|names| - 1];
      RemoveAllReads(d, init, k);
      var prev := RemoveAll(d, init);
      RemoveKeepsUnique(prev, last);
      assert forall y :: y in names <==> y in init || y == last;
      if k == last {
        RemoveDrops(prev, last);
      } else {
        RemoveKeepsOthers(prev, last, k);
        if k in init {
          assert Get(false, prev, k).None?;
        }
      }
    }
  }

  /** The method's own loop over the names to drop. */
  method RemoveUnrequested(outValues: seq<(string, RuntimeValue)>, names: seq<string>) returns (r: seq<(string, RuntimeValue)>)
    ensures r == RemoveAll(outValues, names)
  {
    r := outValues;
    for i := 0 to |names|
      invariant r == RemoveAll(outValues, names[..i])
    {
      assert names[..i + 1][..i] == names[..i];
      r := Remove(false, r, names[i]);
    }
    assert names[..|names|] == names;
  }

  /**
   * The result after the run: one configuration item per group, read from
   * the out-values as the run reported them; then the out-parameters are
   * copied, and every out-variable not kept (ignoring case) is removed.
   */
  function Resolve(run: ExecuteScriptResult, ahOutVars: seq<string>, originalOutVars: seq<string>, info: ScriptInfo, op: ScriptingOperation, pic: bool): Result<ExecuteScriptResult>
  {
    var configuration := Configurations(run.outVariables, info.configValues);
    var remapped := Remapped(Remap(run.outVariables, originalOutVars), OutParams(info.parameters, ahOutVars), op.parameters, pic);
    if remapped.Err? then Err(remapped.error)
    else
      var outValues := RemoveAll(remapped.value.outValues, ExceptIC(ahOutVars, remapped.value.original));
      Ok(run.(outVariables := outValues, configuration := Some(configuration)))
  }

  /**
   * Dropping the out-variables not kept: keys stay unique, an out-variable
   * not kept (ignoring case) is gone, and a kept name reads as before.
   */
  lemma DropUnkept(d: seq<(string, RuntimeValue)>, ahOutVars: seq<string>, kept: seq<string>, k: string)
    requires UniqueKeys(false, d) && DistinctIC(ahOutVars)
    ensures UniqueKeys(false, RemoveAll(d, ExceptIC(ahOutVars, kept)))
    ensures k in ahOutVars && !ContainsIC(kept, k) ==> !HasKey(false, RemoveAll(d, ExceptIC(ahOutVars, kept)), k)
    ensures ContainsIC(kept, k) ==> Get(false, RemoveAll(d, ExceptIC(ahOutVars, kept)), k) == Get(false, d, k)
  {
    var names := ExceptIC(ahOutVars, kept);
    RemoveAllReads(d, names, k);
    if k in ahOutVars && !ContainsIC(kept, k) {
      var j :| 0 <= j < |names| && EqIC(names[j], k);
      assert names[j] in names;
      var a :| 0 <= a < |ahOutVars| && ahOutVars[a] == names[j];
      var b :| 0 <= b < |ahOutVars| && ahOutVars[b] == k;
      EqICIsEquivalence(names[j], k, k);
      assert a == b;
    }
  }

  /**
   * After resolution no out-variable that was neither requested nor the
   * target of an out-parameter is left, every other out-value reads as
   * after the copying of out-parameters, and every requested variable is
   * kept.
   */
  lemma ResolveDropsUnrequested(run: ExecuteScriptResult, ahOutVars: seq<string>, originalOutVars: seq<string>, info: ScriptInfo, op: ScriptingOperation, pic: bool, k: string)
    requires UniqueKeys(false, run.outVariables) && DistinctIC(ahOutVars)
    requires Resolve(run, ahOutVars, originalOutVars, info, op, pic).Ok?
    ensures var outParams := OutParams(info.parameters, ahOutVars);
      var remapped := Remapped(Remap(run.outVariables, originalOutVars), outParams, op.parameters, pic).value;
      var result := Resolve(run, ahOutVars, originalOutVars, info, op, pic).value;
      UniqueKeys(false, result.outVariables) &&
      (k in ahOutVars && !ContainsIC(remapped.original, k) ==> !HasKey(false, result.outVariables, k)) &&
      (ContainsIC(remapped.original, k) ==> Get(false, result.outVariables, k) == Get(false, remapped.outValues, k)) &&
      (forall x :: x in originalOutVars ==> x in remapped.original)
  {
    var outParams := OutParams(info.parameters, ahOutVars);
    var st := Remap(run.outVariables, originalOutVars);
    RemappedKeeps(st, outParams, op.parameters, pic);
    var remapped := Remapped(st, outParams, op.parameters, pic).value;
    DropUnkept(remapped.outValues, ahOutVars, remapped.original, k);
  }

  // ---------------------------------------------------------------------------
  // The whole run

  /**
   * The step after `ExecuteShellScriptAsync` as written: its null result
   * (an agent that is not an SSH agent) is dereferenced, so the run throws
   * `NullReferenceException` instead of returning null.
   */
  function ResolvedAsWritten(run: Option<Result<ExecuteScriptResult>>, p: Prepared, info: ScriptInfo, op: ScriptingOperation, pic: bool): (r: Result<ExecuteScriptResult>)
    ensures run.None? ==> r == Err("NullReferenceException")
  {
    if run.None? then Err("NullReferenceException")
    else if run.value.Err? then Err(run.value.error)
    else Resolve(run.value.value, p.ahOutVars, p.originalOutVars, info, op, pic)
  }

  /** The same step with the null result passed on, as the other failures of the run are. */
  function Resolved(run: Option<Result<ExecuteScriptResult>>, p: Prepared, info: ScriptInfo, op: ScriptingOperation, pic: bool): (r: Option<Result<ExecuteScriptResult>>)
    ensures run.None? <==> r.None?
    ensures run.Some? ==> r == Some(ResolvedAsWritten(run, p, info, op, pic))
  {
    if run.None? then None else Some(ResolvedAsWritten(run, p, info, op, pic))
  }

  /** On an agent that is not an SSH agent the code as written throws where the corrected step returns null. */
  lemma NotSshAgentThrows(p: Prepared, info: ScriptInfo, op: ScriptingOperation, pic: bool)
    ensures ResolvedAsWritten(None, p, info, op, pic).Err?
    ensures Resolved(None, p, info, op, pic).None?
  {
  }

  /** The script's header as the shell script parser reads it from the raft item's text. */
  function ParsedScript(text: string, parse: string -> Result<ParamInfo>, validate: string -> Option<string>): ScriptInfo
  {
    ShellScriptParser.ParseSections(ShellScriptParser.HeaderSections(ReadLines(text)), parse, validate)
  }

  /**
   * `ExecuteShellScriptAhAsync`. The header is read with the shell script
   * parser (`parse` and `validate` stand for its parameter parser and its
   * format check); `raft` stands for the raft lookup, `expand` for
   * `ExpandVariablesAsync`, `render` for `RuntimeValue.ToString` and
   * `process` for the agent's process. A missing script gives null; every
   * failure after it, including the dereferenced null of an agent that is
   * not an SSH agent, is an error.
   */
  method ExecuteShellScriptAh(op: ScriptingOperation, raft: string -> Option<string>,
                              parse: string -> Result<ParamInfo>, validate: string -> Option<string>,
                              expand: (string, seq<(string, RuntimeValue)>) -> string, render: RuntimeValue -> string,
                              sshAgent: bool, process: (string, string) -> ProcessRun, execMode: string, pic: bool,
                              outputLevel: MessageLevel, errorLevel: MessageLevel)
    returns (r: Option<Result<ExecuteScriptResult>>, log: seq<LogMessage>)
    ensures r.None? <==> FindScript(op.scriptName, raft).0.None?
    ensures FindScript(op.scriptName, raft).0.None? ==>
      log == FindScript(op.scriptName, raft).1 + [LogMessage(Error, "Script " + op.scriptName + " was not found.")]
    ensures FindScript(op.scriptName, raft).0.Some? ==>
      var text := FindScript(op.scriptName, raft).0.value;
      var p := Prepare(text, ParsedScript(text, parse, validate), op, execMode, expand);
      (p.Err? ==> r == Some(Err(p.error)) && log == PrepareLog(ParsedScript(text, parse, validate), op, expand)) &&
      (p.Ok? && !sshAgent ==> r == Some(Err("NullReferenceException")) && log == p.value.log + [NotSshMessage])
    ensures FindScript(op.scriptName, raft).0.Some? && sshAgent ==>
      var text := FindScript(op.scriptName, raft).0.value;
      var info := ParsedScript(text, parse, validate);
      var p := Prepare(text, info, op, execMode, expand);
      p.Ok? ==>
      var run := process(LinesText(ScriptLines(p.value.startInfo, render)), p.value.startInfo.commandLineArguments);
      var c := Received(run.stdout, |run.stdout|, outputLevel);
      (c.Err? ==> r == Some(Err(c.error)) &&
                  log == p.value.log + (PlainLog(run.stdout, HandledLines(run.stdout, |run.stdout|, outputLevel), outputLevel) + ErrorLog(run.stderr, errorLevel))) &&
      (c.Ok? ==>
        r == Some(Resolve(ExecuteScriptResult(Some(run.exitCode.GetOr(0)), [], c.value.outValues, None), p.value.ahOutVars, p.value.originalOutVars, info, op, pic)) &&
        log == p.value.log + (c.value.log + ErrorLog(run.stderr, errorLevel)))
  {
    var found := FindScript(op.scriptName, raft);
    if found.0.None? {
      return None, found.1 + [LogMessage(Error, "Script " + op.scriptName + " was not found.")];
    }
    var scriptText := found.0.value;
    var info := ShellScriptParser.Parse(ReadLines(scriptText), parse, validate);
    var prepared, prepareLog := PrepareRun(scriptText, info, op, execMode, expand);
    if prepared.Err? {
      return Some(Err(prepared.error)), prepareLog;
    }
    var p := prepared.value;
    var run, runLog := ExecuteShellScript(p.startInfo, sshAgent, process, render, outputLevel, errorLevel);
    log := p.log + runLog;
    r := Some(ResolvedAsWritten(run, p, info, op, pic));
  }
}
