/**
 * `PSUtil2.ExecuteScript2Async`: the PowerShell run behind the newer
 * operations. Unlike `PSUtil` it reads everything from the operation
 * (script name or text, `Parameters`, `OutputVariables`), fills three
 * case-insensitive dictionaries with `Add` (so a repeated key throws),
 * maps each PowerShell out-variable to the OtterScript variable that
 * receives it, and keys default configuration on the script name.
 */
module PSUtil2 {
  import opened Common
  import opened RuntimeValues
  import opened ScriptResults
  import opened PowerShellScriptInfo
  import opened ConfigReconciliation
  import opened PSUtil

  /** The operation's properties the run reads; a null one is `None`. */
  datatype Operation = Operation(
    scriptName: Option<string>,
    scriptText: Option<string>,
    parameters: Option<seq<(string, RuntimeValue)>>,
    outputVariables: Option<seq<string>>)

  // ---------------------------------------------------------------------------
  // Finding the script

  /** The script to run, or the error that ends the run with null. */
  datatype Loaded =
    | NotLoaded(error: LogMessage)
    | Loaded(content: string, info: Option<ScriptInfo>, log: seq<LogMessage>)

  /** The debug note for a script that does not parse; the run goes on without its help. */
  function ParseNote(info: Option<ScriptInfo>, note: string): seq<LogMessage>
  {
    if info.None? then [LogMessage(Debug, note)] else []
  }

  /**
   * Inline text is used as is; otherwise the name must end in ".ps1",
   * ignoring case, and name a script asset (`raft` standing for the
   * lookup). `parse` stands for `PowerShellScriptInfo.TryParse`.
   */
  function LoadScript(op: Operation, raft: string -> Option<string>, parse: string -> Option<ScriptInfo>): (r: Loaded)
    ensures r.NotLoaded? <==>
      IsNullOrEmpty(op.scriptText) &&
      !(op.scriptName.Some? && EndsWithIC(op.scriptName.value, ".ps1") && raft(op.scriptName.value).Some?)
    ensures !IsNullOrEmpty(op.scriptText) ==> r.Loaded? && r.content == op.scriptText.value
    ensures IsNullOrEmpty(op.scriptText) && r.Loaded? ==> op.scriptName.Some? && r.content == raft(op.scriptName.value).value
    ensures r.Loaded? ==> r.info == parse(r.content) && (r.log == [] <==> r.info.Some?)
  {
    var name := op.scriptName.GetOr("");
    if IsNullOrEmpty(op.scriptText) then
      if !(op.scriptName.Some? && EndsWithIC(name, ".ps1")) then
        NotLoaded(LogMessage(Error, "PowerShell Script name \"" + name + "\" is invalid."))
      else if raft(name).None? then
        NotLoaded(LogMessage(Error, "PowerShell Script \"" + name + "\" not found."))
      else
        var content := raft(name).value;
        Loaded(content, parse(content),
          ParseNote(parse(content), "PowerShell Script \"" + name + "\" could not be parsed, and may error upon executing."))
    else
      var content := op.scriptText.value;
      Loaded(content, parse(content), ParseNote(parse(content), "PowerShell Script could not be parsed, and may error upon executing."))
  }

  // ---------------------------------------------------------------------------
  // Binding `Parameters`

  /**
   * Where one parameter goes: undeclared names (and every name of an
   * unparsed script) are variables, as given; declared ones are parameters
   * or, when marked as output, out-variables mapped to the text of their
   * value. A declared bool or switch takes `AsBoolean() ?? false`.
   */
  datatype Routing =
    | AsVariable(key: string, value: RuntimeValue)
    | AsParameter(key: string, value: RuntimeValue)
    | AsOutVariable(key: string, target: string)

  /** The routing of one parameter, `render` standing for `RuntimeValue.ToString`. */
  function RouteOf(info: Option<ScriptInfo>, e: (string, RuntimeValue), render: RuntimeValue -> string): Routing
  {
    if info.None? then AsVariable(e.0, e.1)
    else
      match DeclaredParam(info.value.parameters, e.0)
      case None => AsVariable(e.0, e.1)
      case Some(p) =>
        var v := BoundValue(p, e.1);
        if p.isOutput then AsOutVariable(e.0, render(v)) else AsParameter(e.0, v)
  }

  /** The routing of every parameter, in order. */
  function Routes(info: Option<ScriptInfo>, ps: seq<(string, RuntimeValue)>, render: RuntimeValue -> string): (rs: seq<Routing>)
    ensures |rs| == |ps|
    ensures forall i :: 0 <= i < |ps| ==> rs[i] == RouteOf(info, ps[i], render)
  {
    seq(|ps|, i requires 0 <= i < |ps| => RouteOf(info, ps[i], render))
  }

  /**
   * The three dictionaries. An out-variable maps the PowerShell name to the
   * name of the variable that receives its value, or to null.
   */
  datatype Bindings = Bindings(
    variables: seq<(string, RuntimeValue)>,
    parameters: seq<(string, RuntimeValue)>,
    outVariables: seq<(string, Option<string>)>)

  /** One parameter's `Add` into its dictionary. */
  function BindOne(b: Bindings, r: Routing): Result<Bindings>
  {
    match r
    case AsVariable(k, v) =>
      (match Add(true, b.variables, k, v)
       case Ok(d) => Ok(b.(variables := d))
       case Err(m) => Err(m))
    case AsParameter(k, v) =>
      (match Add(true, b.parameters, k, v)
       case Ok(d) => Ok(b.(parameters := d))
       case Err(m) => Err(m))
    case AsOutVariable(k, name) =>
      (match Add(true, b.outVariables, k, Some(name))
       case Ok(d) => Ok(b.(outVariables := d))
       case Err(m) => Err(m))
  }

  /** The dictionaries after the first `n` parameters; the first failing `Add` ends the run. */
  function Bound(rs: seq<Routing>, n: nat): Result<Bindings>
    requires n <= |rs|
  {
    if n == 0 then Ok(Bindings([], [], []))
    else
      var b := Bound(rs, n - 1);
      if b.Err? then b else BindOne(b.value, rs[n - 1])
  }

  lemma BoundStep(rs: seq<Routing>, i: nat, b: Bindings)
    requires i < |rs| && Bound(rs, i) == Ok(b)
    ensures Bound(rs, i + 1) == BindOne(b, rs[i])
  {
  }

  /** Once an `Add` has thrown, nothing after it runs. */
  lemma {:induction false} BoundStaysErr(rs: seq<Routing>, m: nat, n: nat)
    requires m <= n <= |rs| && Bound(rs, m).Err?
    ensures Bound(rs, n) == Bound(rs, m)
    decreases n - m
  {
    if n > m {
      BoundErrStep(rs, m + 1, Bound(rs, m).error);
      BoundStaysErr(rs, m + 1, n);
    }
  }

  lemma BoundErrStep(rs: seq<Routing>, n: nat, e: string)
    requires 0 < n <= |rs| && Bound(rs, n - 1) == Err(e)
    ensures Bound(rs, n) == Err(e)
  {
  }

  /** The body of the loop over `operation.Parameters`: one parameter's `Add` into the dictionary it is routed to. */
  method BindParameter(info: Option<ScriptInfo>, param: (string, RuntimeValue), render: RuntimeValue -> string, b: Bindings)
    returns (r: Result<Bindings>)
    ensures r == BindOne(b, RouteOf(info, param, render))
  {
    var psVariables, psParameters, psOutVariables := b.variables, b.parameters, b.outVariables;
    var added;
    if info.None? {
      added := Add(true, psVariables, param.0, param.1);
      if added.Err? {
        return Err(added.error);
      }
      return Ok(b.(variables := added.value));
    }
    var psParamInfo := DeclaredParam(info.value.parameters, param.0);
    if psParamInfo.None? {
      added := Add(true, psVariables, param.0, param.1);
      if added.Err? {
        return Err(added.error);
      }
      return Ok(b.(variables := added.value));
    }
    var paramValue := BoundValue(psParamInfo.value, param.1);
    if psParamInfo.value.isOutput {
      var addedOut := Add(true, psOutVariables, param.0, Some(render(paramValue)));
      if addedOut.Err? {
        return Err(addedOut.error);
      }
      return Ok(b.(outVariables := addedOut.value));
    }
    added := Add(true, psParameters, param.0, paramValue);
    if added.Err? {
      return Err(added.error);
    }
    return Ok(b.(parameters := added.value));
  }

  /** The loop over `operation.Parameters` (none when the property is null). */
  method BindParameters(info: Option<ScriptInfo>, parameters: Option<seq<(string, RuntimeValue)>>, render: RuntimeValue -> string)
    returns (r: Result<Bindings>)
    ensures parameters.None? ==> r == Ok(Bindings([], [], []))
    ensures parameters.Some? ==> r == Bound(Routes(info, parameters.value, render), |parameters.value|)
  {
    var bindings := Bindings([], [], []);
    if parameters.None? {
      return Ok(bindings);
    }
    var ps := parameters.value;
    ghost var rs := Routes(info, ps, render);
    for i := 0 to |ps|
      invariant Bound(rs, i) == Ok(bindings)
    {
      assert rs[i] == RouteOf(info, ps[i], render);
      BoundStep(rs, i, bindings);
      var step := BindParameter(info, ps[i], render, bindings);
      if step.Err? {
        BoundStaysErr(rs, i + 1, |ps|);
        return step;
      }
      bindings := step.value;
    }
    return Ok(bindings);
  }

  /** The variables among the first `n` routings, in order. */
  function VariablesOf(rs: seq<Routing>, n: nat): seq<(string, RuntimeValue)>
    requires n <= |rs|
  {
    if n == 0 then []
    else VariablesOf(rs, n - 1) + (if rs[n - 1].AsVariable? then [(rs[n - 1].key, rs[n - 1].value)] else [])
  }

  /** The parameters among the first `n` routings, in order. */
  function ParametersOf(rs: seq<Routing>, n: nat): seq<(string, RuntimeValue)>
    requires n <= |rs|
  {
    if n == 0 then []
    else ParametersOf(rs, n - 1) + (if rs[n - 1].AsParameter? then [(rs[n - 1].key, rs[n - 1].value)] else [])
  }

  /** The out-variables among the first `n` routings, in order. */
  function OutVariablesOf(rs: seq<Routing>, n: nat): seq<(string, Option<string>)>
    requires n <= |rs|
  {
    if n == 0 then []
    else OutVariablesOf(rs, n - 1) + (if rs[n - 1].AsOutVariable? then [(rs[n - 1].key, Some(rs[n - 1].target))] else [])
  }

  /**
   * Binding succeeds exactly when no two parameters routed to the same
   * dictionary have names equal ignoring case, and then each dictionary
   * holds exactly the parameters routed to it, in order.
   */
  lemma {:induction false} BoundRoutes(rs: seq<Routing>, n: nat)
    requires n <= |rs|
    ensures Bound(rs, n).Ok? <==>
      UniqueKeys(true, VariablesOf(rs, n)) && UniqueKeys(true, ParametersOf(rs, n)) && UniqueKeys(true, OutVariablesOf(rs, n))
    ensures Bound(rs, n).Ok? ==> Bound(rs, n).value == Bindings(VariablesOf(rs, n), ParametersOf(rs, n), OutVariablesOf(rs, n))
  {
    if n > 0 {
      BoundRoutes(rs, n - 1);
      BoundRoutesStep(rs, n);
    }
  }

  /** The induction step of `BoundRoutes`. */
  lemma BoundRoutesStep(rs: seq<Routing>, n: nat)
    requires 0 < n <= |rs|
    requires Bound(rs, n - 1).Ok? <==>
      UniqueKeys(true, VariablesOf(rs, n - 1)) && UniqueKeys(true, ParametersOf(rs, n - 1)) && UniqueKeys(true, OutVariablesOf(rs, n - 1))
    requires Bound(rs, n - 1).Ok? ==> Bound(rs, n - 1).value == Bindings(VariablesOf(rs, n - 1), ParametersOf(rs, n - 1), OutVariablesOf(rs, n - 1))
    ensures Bound(rs, n).Ok? <==>
      UniqueKeys(true, VariablesOf(rs, n)) && UniqueKeys(true, ParametersOf(rs, n)) && UniqueKeys(true, OutVariablesOf(rs, n))
    ensures Bound(rs, n).Ok? ==> Bound(rs, n).value == Bindings(VariablesOf(rs, n), ParametersOf(rs, n), OutVariablesOf(rs, n))
  {
    var vs, pa, os := VariablesOf(rs, n - 1), ParametersOf(rs, n - 1), OutVariablesOf(rs, n - 1);
    if Bound(rs, n - 1).Ok? {
      BoundStep(rs, n - 1, Bindings(vs, pa, os));
    } else {
      BoundErrStep(rs, n, Bound(rs, n - 1).error);
    }
    match rs[n - 1]
    case AsVariable(k, v) =>
      UniqueKeysSnoc(true, vs, (k, v));
      assert VariablesOf(rs, n) == vs + [(k, v)];
      assert ParametersOf(rs, n) == pa + [] == pa;
      assert OutVariablesOf(rs, n) == os + [] == os;
    case AsParameter(k, v) =>
      UniqueKeysSnoc(true, pa, (k, v));
      assert ParametersOf(rs, n) == pa + [(k, v)];
      assert VariablesOf(rs, n) == vs + [] == vs;
      assert OutVariablesOf(rs, n) == os + [] == os;
    case AsOutVariable(k, name) =>
      UniqueKeysSnoc(true, os, (k, Some(name)));
      assert OutVariablesOf(rs, n) == os + [(k, Some(name))];
      assert VariablesOf(rs, n) == vs + [] == vs;
      assert ParametersOf(rs, n) == pa + [] == pa;
  }

  /** An unparsed script takes every parameter as a variable, in order, and no parameters or out-variables. */
  lemma {:induction false} UnparsedParametersAreVariables(ps: seq<(string, RuntimeValue)>, n: nat, render: RuntimeValue -> string)
    requires n <= |ps|
    ensures VariablesOf(Routes(None, ps, render), n) == ps[..n]
    ensures ParametersOf(Routes(None, ps, render), n) == [] && OutVariablesOf(Routes(None, ps, render), n) == []
  {
    if n > 0 {
      UnparsedParametersAreVariables(ps, n - 1, render);
      assert ps[..n] == ps[..n - 1] + [ps[n - 1]];
    }
  }

  /** Every routing among the first `n` lands in its dictionary. */
  lemma {:induction false} RoutedMember(rs: seq<Routing>, n: nat, i: nat)
    requires i < n <= |rs|
    ensures rs[i].AsVariable? ==> (rs[i].key, rs[i].value) in VariablesOf(rs, n)
    ensures rs[i].AsParameter? ==> (rs[i].key, rs[i].value) in ParametersOf(rs, n)
    ensures rs[i].AsOutVariable? ==> (rs[i].key, Some(rs[i].target)) in OutVariablesOf(rs, n)
  {
    if i < n - 1 {
      RoutedMember(rs, n - 1, i);
    }
  }

  /**
   * A parameter the script declares as output becomes an out-variable
   * mapped to its value's text; another declared one is passed as a
   * parameter; an undeclared one as a variable, as given.
   */
  lemma DeclaredParameterRouted(info: ScriptInfo, ps: seq<(string, RuntimeValue)>, i: nat, render: RuntimeValue -> string)
    requires i < |ps|
    ensures var rs := Routes(Some(info), ps, render);
      var p := DeclaredParam(info.parameters, ps[i].0);
      (p.None? ==> ps[i] in VariablesOf(rs, |ps|)) &&
      (p.Some? && p.value.isOutput ==> (ps[i].0, Some(render(BoundValue(p.value, ps[i].1)))) in OutVariablesOf(rs, |ps|)) &&
      (p.Some? && !p.value.isOutput ==> (ps[i].0, BoundValue(p.value, ps[i].1)) in ParametersOf(rs, |ps|))
  {
    RoutedMember(Routes(Some(info), ps, render), |ps|, i);
  }

  // ---------------------------------------------------------------------------
  // `OutputVariables`

  /** The first `n` requested names added with a null mapping, each unless already present ignoring case. */
  function WithRequested(outs: seq<(string, Option<string>)>, names: seq<string>, n: nat): seq<(string, Option<string>)>
    requires n <= |names|
  {
    if n == 0 then outs
    else
      var d := WithRequested(outs, names, n - 1);
      if HasKey(true, d, names[n - 1]) then d else d + [(names[n - 1], None)]
  }

  /** The loop over `operation.OutputVariables` (nothing when the property is null). */
  method AddRequested(outs: seq<(string, Option<string>)>, names: Option<seq<string>>) returns (r: seq<(string, Option<string>)>)
    ensures names.None? ==> r == outs
    ensures names.Some? ==> r == WithRequested(outs, names.value, |names.value|)
  {
    r := outs;
    if names.None? {
      return;
    }
    for i := 0 to |names.value|
      invariant r == WithRequested(outs, names.value, i)
    {
      var param := names.value[i];
      if !HasKey(true, r, param) {
        r := r + [(param, None)];
      }
    }
  }

  /** Adding the requested names keeps every existing entry and appends only null mappings. */
  lemma {:induction false} RequestedExtends(outs: seq<(string, Option<string>)>, names: seq<string>, n: nat)
    requires n <= |names|
    ensures |outs| <= |WithRequested(outs, names, n)|
    ensures forall j :: 0 <= j < |outs| ==> WithRequested(outs, names, n)[j] == outs[j]
    ensures forall j :: |outs| <= j < |WithRequested(outs, names, n)| ==> WithRequested(outs, names, n)[j].1.None?
  {
    if n > 0 {
      RequestedExtends(outs, names, n - 1);
    }
  }

  /** Unique keys stay unique: a name is added only when absent. */
  lemma {:induction false} RequestedUnique(outs: seq<(string, Option<string>)>, names: seq<string>, n: nat)
    requires n <= |names| && UniqueKeys(true, outs)
    ensures UniqueKeys(true, WithRequested(outs, names, n))
  {
    if n > 0 {
      RequestedUnique(outs, names, n - 1);
      UniqueKeysSnoc(true, WithRequested(outs, names, n - 1), (names[n - 1], None));
    }
  }

  /** Afterwards every requested name is present, ignoring case. */
  lemma {:induction false} RequestedPresent(outs: seq<(string, Option<string>)>, names: seq<string>, n: nat, i: nat)
    requires i < n <= |names|
    ensures HasKey(true, WithRequested(outs, names, n), names[i])
  {
    var d := WithRequested(outs, names, n - 1);
    var e: (string, Option<string>) := (names[n - 1], None);
    if i < n - 1 {
      RequestedPresent(outs, names, n - 1, i);
      HasKeyExtend(true, d, e, names[i]);
    } else if !HasKey(true, d, names[i]) {
      EqICIsEquivalence(names[i], names[i], names[i]);
      HasKeyExtend(true, d, e, names[i]);
    }
  }

  // ---------------------------------------------------------------------------
  // Configuration references

  /** `setOutputVariable(oe)`: a `$name` directive maps `name` to itself, with `Add`. */
  function AddReference(d: seq<(string, Option<string>)>, oe: Option<string>): Result<seq<(string, Option<string>)>>
  {
    match ReferenceName(oe)
    case None => Ok(d)
    case Some(name) => Add(true, d, name, Some(name))
  }

  /** The entry a directive adds: one for a `$name` reference, none otherwise. */
  function ReferenceEntry(oe: Option<string>): seq<(string, Option<string>)>
  {
    match ReferenceName(oe)
    case None => []
    case Some(name) => [(name, Some(name))]
  }

  /** The five directives of a group, in the order the source declares their references. */
  function Directives(g: Group): seq<Option<string>>
  {
    [g.configType, g.configKey, g.desiredValue, g.currentValue, g.valueDrifted]
  }

  /** The `setOutputVariable` calls for `refs`, in order; the first throw ends them. */
  function AddReferences(d: seq<(string, Option<string>)>, refs: seq<Option<string>>): Result<seq<(string, Option<string>)>>
    decreases |refs|
  {
    if refs == [] then Ok(d)
    else
      var r := AddReferences(d, refs[..|refs| - 1]);
      if r.Err? then r else AddReference(r.value, refs[|refs| - 1])
  }

  /** The entries the references among `refs` add, in order. */
  function Entries(refs: seq<Option<string>>): seq<(string, Option<string>)>
    decreases |refs|
  {
    if refs == [] then [] else Entries(refs[..|refs| - 1]) + ReferenceEntry(refs[|refs| - 1])
  }

  /** The five `setOutputVariable` calls for one group. */
  function AddGroupReferences(d: seq<(string, Option<string>)>, g: Group): Result<seq<(string, Option<string>)>>
  {
    AddReferences(d, Directives(g))
  }

  /** The entries one group's references add. */
  function GroupEntries(g: Group): seq<(string, Option<string>)>
  {
    Entries(Directives(g))
  }

  /** Group `i`'s declarations: none when its raw type/key pair repeats an earlier one. */
  function GroupStep(d: seq<(string, Option<string>)>, groups: seq<Group>, i: nat): Result<seq<(string, Option<string>)>>
    requires i < |groups|
  {
    if PSUtil.Kept(groups, i) then AddGroupReferences(d, groups[i]) else Ok(d)
  }

  /** The entries group `i` adds. */
  function GroupMore(groups: seq<Group>, i: nat): seq<(string, Option<string>)>
    requires i < |groups|
  {
    if PSUtil.Kept(groups, i) then GroupEntries(groups[i]) else []
  }

  lemma GroupStepOk(d: seq<(string, Option<string>)>, groups: seq<Group>, i: nat)
    requires i < |groups| && UniqueKeys(true, d)
    ensures GroupStep(d, groups, i) == Expected(d + GroupMore(groups, i))
  {
    if PSUtil.Kept(groups, i) {
      AddGroupReferencesOk(d, groups[i]);
    } else {
      assert d + GroupMore(groups, i) == d;
    }
  }

  /** The out-variables after the first `n` groups; a group whose raw type/key pair repeats is skipped. */
  function References(groups: seq<Group>, n: nat, outs: seq<(string, Option<string>)>): Result<seq<(string, Option<string>)>>
    requires n <= |groups|
  {
    if n == 0 then Ok(outs)
    else
      var d := References(groups, n - 1, outs);
      if d.Err? then d else GroupStep(d.value, groups, n - 1)
  }

  /** The entries the first `n` kept groups add, in order. */
  function ReferenceEntries(groups: seq<Group>, n: nat): seq<(string, Option<string>)>
    requires n <= |groups|
  {
    if n == 0 then []
    else ReferenceEntries(groups, n - 1) + GroupMore(groups, n - 1)
  }

  /** Once an `Add` has thrown, no later group is declared. */
  lemma {:induction false} ReferencesStayErr(groups: seq<Group>, m: nat, n: nat, outs: seq<(string, Option<string>)>)
    requires m <= n <= |groups| && References(groups, m, outs).Err?
    ensures References(groups, n, outs) == References(groups, m, outs)
    decreases n
  {
    if n > m {
      ReferencesStayErr(groups, m, n - 1, outs);
      ReferencesErrStep(groups, n, outs, References(groups, m, outs).error);
    }
  }

  lemma ReferencesErrStep(groups: seq<Group>, n: nat, outs: seq<(string, Option<string>)>, e: string)
    requires 0 < n <= |groups| && References(groups, n - 1, outs) == Err(e)
    ensures References(groups, n, outs) == Err(e)
  {
  }

  /**
   * The pairs warned about among the first `n` groups: once an `Add` has
   * thrown, no later group is reached. Where nothing throws, they are the
   * pairs of every skipped group; otherwise they are a prefix of those.
   */
  function LoggedDuplicates(groups: seq<Group>, n: nat, outs: seq<(string, Option<string>)>): seq<string>
    requires n <= |groups|
  {
    if n == 0 then []
    else
      var prev := LoggedDuplicates(groups, n - 1, outs);
      if References(groups, n - 1, outs).Err? then prev
      else prev + (if PSUtil.Kept(groups, n - 1) then [] else [DirectiveKey(groups[n - 1])])
  }

  lemma {:induction false} LoggedDuplicatesPrefix(groups: seq<Group>, n: nat, outs: seq<(string, Option<string>)>)
    requires n <= |groups|
    ensures References(groups, n, outs).Ok? ==> LoggedDuplicates(groups, n, outs) == DuplicateDeclarations(groups, n)
    ensures LoggedDuplicates(groups, n, outs) <= DuplicateDeclarations(groups, n)
  {
    if n > 0 {
      LoggedDuplicatesPrefix(groups, n - 1, outs);
    }
  }

  /** Once an `Add` has thrown, no later group adds a warning. */
  lemma {:induction false} LoggedDuplicatesStayErr(groups: seq<Group>, m: nat, n: nat, outs: seq<(string, Option<string>)>)
    requires m <= n <= |groups| && References(groups, m, outs).Err?
    ensures LoggedDuplicates(groups, n, outs) == LoggedDuplicates(groups, m, outs)
    decreases n
  {
    if n > m {
      LoggedDuplicatesStayErr(groups, m, n - 1, outs);
      ReferencesStayErr(groups, m, n - 1, outs);
      LoggedDuplicatesErrStep(groups, n, outs);
    }
  }

  lemma LoggedDuplicatesErrStep(groups: seq<Group>, n: nat, outs: seq<(string, Option<string>)>)
    requires 0 < n <= |groups| && References(groups, n - 1, outs).Err?
    ensures LoggedDuplicates(groups, n, outs) == LoggedDuplicates(groups, n - 1, outs)
  {
  }

  /** The declaration loop of a collecting run. */
  method DeclareReferences(groups: seq<Group>, outs: seq<(string, Option<string>)>)
    returns (r: Result<seq<(string, Option<string>)>>, duplicates: seq<string>)
    ensures r == References(groups, |groups|, outs)
    ensures duplicates == LoggedDuplicates(groups, |groups|, outs)
    ensures r.Ok? ==> duplicates == DuplicateDeclarations(groups, |groups|)
  {
    var psOutVariables := outs;
    duplicates := [];
    var uniqueConfigKeys: seq<string> := [];
    for i := 0 to |groups|
      invariant References(groups, i, outs) == Ok(psOutVariables)
      invariant duplicates == LoggedDuplicates(groups, i, outs)
      invariant uniqueConfigKeys == AddAllIC([], PairKeys(groups)[..i])
    {
      var configParam := groups[i];
      var uniqueKey := DirectiveKey(configParam);
      SeenKept(groups, i);
      var added := !ContainsIC(uniqueConfigKeys, uniqueKey);
      uniqueConfigKeys := AddIC(uniqueConfigKeys, uniqueKey);
      if !added {
        assert !PSUtil.Kept(groups, i);
        duplicates := duplicates + [uniqueKey];
        continue;
      }
      assert PSUtil.Kept(groups, i);
      assert LoggedDuplicates(groups, i, outs) + [] == LoggedDuplicates(groups, i, outs);
      var d := AddGroupReferences(psOutVariables, configParam);
      assert d == GroupStep(psOutVariables, groups, i);
      if d.Err? {
        ReferencesStayErr(groups, i + 1, |groups|, outs);
        LoggedDuplicatesStayErr(groups, i + 1, |groups|, outs);
        return d, duplicates;
      }
      psOutVariables := d.value;
    }
    LoggedDuplicatesPrefix(groups, |groups|, outs);
    r := Ok(psOutVariables);
  }

  /**
   * What a run of `Add` calls into out-variables with unique keys yields:
   * the entries when their keys stay unique ignoring case, otherwise the
   * exception of the first repeated name.
   */
  function Expected(d: seq<(string, Option<string>)>): Result<seq<(string, Option<string>)>>
  {
    if UniqueKeys(true, d) then Ok(d) else Err("ArgumentException")
  }

  /** One reference's `Add` into out-variables with unique keys succeeds exactly when its name is new, and appends its entry. */
  lemma AddReferenceOk(d: seq<(string, Option<string>)>, oe: Option<string>)
    requires UniqueKeys(true, d)
    ensures AddReference(d, oe) == Expected(d + ReferenceEntry(oe))
  {
    match ReferenceName(oe)
    case None =>
      assert d + ReferenceEntry(oe) == d;
    case Some(name) =>
      UniqueKeysSnoc(true, d, (name, Some(name)));
  }

  /** A run of references succeeds exactly when together with `d` they keep the keys unique. */
  lemma {:induction false} AddReferencesOk(d: seq<(string, Option<string>)>, refs: seq<Option<string>>)
    requires UniqueKeys(true, d)
    ensures AddReferences(d, refs) == Expected(d + Entries(refs))
    decreases |refs|
  {
    if refs == [] {
      assert d + Entries(refs) == d;
    } else {
      var init, last := refs[..|refs| - 1], refs[|refs| - 1];
      AddReferencesOk(d, init);
      var prev := d + Entries(init);
      AppendAssoc(d, Entries(init), ReferenceEntry(last));
      if UniqueKeys(true, prev) {
        AddReferenceOk(prev, last);
      } else {
        UniqueKeysPrefix(true, prev, ReferenceEntry(last));
      }
    }
  }

  /** One group's five references succeed exactly when together with `d` they keep the keys unique. */
  lemma AddGroupReferencesOk(d: seq<(string, Option<string>)>, g: Group)
    requires UniqueKeys(true, d)
    ensures AddGroupReferences(d, g) == Expected(d + GroupEntries(g))
  {
    AddReferencesOk(d, Directives(g));
  }

  /**
   * The declaration loop succeeds exactly when the references of the kept
   * groups, after the existing out-variables, keep the keys unique ignoring
   * case; then it appends exactly those references, each mapped to itself.
   */
  lemma {:induction false} ReferencesOk(groups: seq<Group>, n: nat, outs: seq<(string, Option<string>)>)
    requires n <= |groups| && UniqueKeys(true, outs)
    ensures References(groups, n, outs) == Expected(outs + ReferenceEntries(groups, n))
  {
    if n > 0 {
      var prev := ReferenceEntries(groups, n - 1);
      ReferencesOk(groups, n - 1, outs);
      ReferencesStep(groups, n, outs, outs + prev);
      AppendAssoc(outs, prev, GroupMore(groups, n - 1));
      assert ReferenceEntries(groups, n) == prev + GroupMore(groups, n - 1);
    } else {
      assert outs + ReferenceEntries(groups, n) == outs;
    }
  }

  /** The induction step of `ReferencesOk`: group `n - 1` is declared after the first `n - 1`. */
  lemma ReferencesStep(groups: seq<Group>, n: nat, outs: seq<(string, Option<string>)>, prev: seq<(string, Option<string>)>)
    requires 0 < n <= |groups| && References(groups, n - 1, outs) == Expected(prev)
    ensures References(groups, n, outs) == Expected(prev + GroupMore(groups, n - 1))
  {
    var more := GroupMore(groups, n - 1);
    if UniqueKeys(true, prev) {
      GroupStepOk(prev, groups, n - 1);
    } else {
      UniqueKeysPrefix(true, prev, more);
    }
  }

  /** A group's entries, one directive after the other. */
  lemma GroupEntriesSpelled(g: Group)
    ensures GroupEntries(g) == ReferenceEntry(g.configType) + ReferenceEntry(g.configKey) + ReferenceEntry(g.desiredValue) +
      ReferenceEntry(g.currentValue) + ReferenceEntry(g.valueDrifted)
  {
    var r := Directives(g);
    assert r[..4][..3] == r[..3] && r[..3][..2] == r[..2] && r[..2][..1] == r[..1] && r[..1][..0] == [];
    assert Entries(r[..1]) == ReferenceEntry(r[0]);
    assert Entries(r[..2]) == Entries(r[..1]) + ReferenceEntry(r[1]);
    assert Entries(r[..3]) == Entries(r[..2]) + ReferenceEntry(r[2]);
    assert Entries(r[..4]) == Entries(r[..3]) + ReferenceEntry(r[3]);
  }

  /** A group that names the same `$variable` for two directives makes the declaration throw. */
  lemma SameReferenceTwiceThrows(d: seq<(string, Option<string>)>, g: Group)
    requires UniqueKeys(true, d)
    requires ReferenceName(g.desiredValue).Some? && g.currentValue == g.desiredValue
    ensures AddGroupReferences(d, g).Err?
  {
    AddGroupReferencesOk(d, g);
    GroupEntriesSpelled(g);
    var name := ReferenceName(g.desiredValue).value;
    var all := d + GroupEntries(g);
    var a := |d| + |ReferenceEntry(g.configType)| + |ReferenceEntry(g.configKey)|;
    assert all[a] == (name, Some(name)) && all[a + 1] == (name, Some(name));
    EqICIsEquivalence(name, name, name);
  }

  // ---------------------------------------------------------------------------
  // The execution-mode variable

  /**
   * The `.AHEXECMODE` step as written: a collecting run reads the variable
   * name through `scriptInfo` without a null check, so a script that did
   * not parse throws instead of running.
   */
  function ExecModeAsWritten(info: Option<ScriptInfo>, mode: ExecutionMode, variables: seq<(string, RuntimeValue)>): Result<seq<(string, RuntimeValue)>>
    requires Collecting(mode)
  {
    if info.None? then Err("NullReferenceException")
    else Ok(WithExecMode(true, variables, info.value.executionModeVariableName, mode))
  }

  /** An unparsed script in Collect or Configure mode throws at the `.AHEXECMODE` step, although the Configure guard after it allows for a null script. */
  lemma UnparsedCollectThrows(mode: ExecutionMode, variables: seq<(string, RuntimeValue)>)
    requires Collecting(mode)
    ensures ExecModeAsWritten(None, mode, variables).Err?
    ensures mode == Configure ==> MissingExecMode(None, mode)
  {
  }

  /**
   * The `.AHEXECMODE` step with the null check the guard after it uses:
   * the same variables for a parsed script, unchanged ones for an unparsed
   * script.
   */
  function ExecModeVariables(info: Option<ScriptInfo>, mode: ExecutionMode, variables: seq<(string, RuntimeValue)>): (r: seq<(string, RuntimeValue)>)
    requires Collecting(mode)
    ensures info.None? ==> r == variables
    ensures info.Some? ==> ExecModeAsWritten(info, mode, variables) == Ok(r)
  {
    WithExecMode(true, variables, ExecModeName(info), mode)
  }

  // ---------------------------------------------------------------------------
  // Preparing the job

  /** The job's dictionaries. */
  datatype Prepared = Prepared(
    variables: seq<(string, RuntimeValue)>,
    parameters: seq<(string, RuntimeValue)>,
    outVariables: seq<(string, Option<string>)>)

  /** The out-variables after the requested names are added. */
  function RequestedOf(outs: seq<(string, Option<string>)>, names: Option<seq<string>>): seq<(string, Option<string>)>
  {
    if names.None? then outs else WithRequested(outs, names.value, |names.value|)
  }

  /** The binding result for the operation's `Parameters`. */
  function BindingOf(info: Option<ScriptInfo>, op: Operation, render: RuntimeValue -> string): Result<Bindings>
  {
    if op.parameters.None? then Ok(Bindings([], [], [])) else Bound(Routes(info, op.parameters.value, render), |op.parameters.value|)
  }

  /**
   * Binding, the requested names and, when collecting, the configuration
   * references and `.AHEXECMODE` as written, which throws for a script
   * that did not parse.
   */
  function Prepare(info: Option<ScriptInfo>, op: Operation, render: RuntimeValue -> string, mode: ExecutionMode): Result<Prepared>
  {
    var b := BindingOf(info, op, render);
    if b.Err? then Err(b.error)
    else
      var outs := RequestedOf(b.value.outVariables, op.outputVariables);
      if !Collecting(mode) then Ok(Prepared(b.value.variables, b.value.parameters, outs))
      else
        var groups := ConfigGroups(info);
        var refs := References(groups, |groups|, outs);
        if refs.Err? then Err(refs.error)
        else
          var vars := ExecModeAsWritten(info, mode, b.value.variables);
          if vars.Err? then Err(vars.error)
          else Ok(Prepared(vars.value, b.value.parameters, refs.value))
  }

  /**
   * The pairs a preparation warns about before it returns or throws: none
   * unless the parameters bind and a parsed script is collecting, then
   * those of the declaration loop up to the `Add` that throws.
   */
  function PrepareDuplicates(info: Option<ScriptInfo>, op: Operation, render: RuntimeValue -> string, mode: ExecutionMode): seq<string>
  {
    var b := BindingOf(info, op, render);
    if b.Err? || !Collecting(mode) || info.None? then []
    else
      var groups := ConfigGroups(info);
      LoggedDuplicates(groups, |groups|, RequestedOf(b.value.outVariables, op.outputVariables))
  }

  /** Lines 55-129: the three dictionaries, and the skipped groups' pairs. */
  method PrepareJob(info: Option<ScriptInfo>, op: Operation, render: RuntimeValue -> string, mode: ExecutionMode)
    returns (r: Result<Prepared>, duplicates: seq<string>)
    ensures r == Prepare(info, op, render, mode)
    ensures duplicates == PrepareDuplicates(info, op, render, mode)
    ensures r.Ok? ==> duplicates == (if info.Some? && Collecting(mode) then DuplicateDeclarations(ConfigGroups(info), |ConfigGroups(info)|) else [])
  {
    duplicates := [];
    var b := BindParameters(info, op.parameters, render);
    if b.Err? {
      return Err(b.error), duplicates;
    }
    var psVariables := b.value.variables;
    var psOutVariables := AddRequested(b.value.outVariables, op.outputVariables);
    if Collecting(mode) {
      var groups := ConfigGroups(info);
      if info.Some? && groups != [] {
        var refs;
        refs, duplicates := DeclareReferences(groups, psOutVariables);
        if refs.Err? {
          return Err(refs.error), duplicates;
        }
        psOutVariables := refs.value;
      } else if info.Some? {
        assert DuplicateDeclarations(groups, |groups|) == [];
      }
      var vars := ExecModeAsWritten(info, mode, psVariables);
      if vars.Err? {
        return Err(vars.error), duplicates;
      }
      psVariables := vars.value;
    }
    return Ok(Prepared(psVariables, b.value.parameters, psOutVariables)), duplicates;
  }

  /**
   * Preparing succeeds exactly when the parameters bind without a repeated
   * name in any dictionary and, when collecting, the script parsed and the
   * configuration references are new names; the out-variables then have
   * unique names and hold every requested name.
   */
  lemma PrepareSucceeds(info: Option<ScriptInfo>, op: Operation, render: RuntimeValue -> string, mode: ExecutionMode)
    ensures var b := BindingOf(info, op, render);
      var groups := ConfigGroups(info);
      Prepare(info, op, render, mode).Ok? <==>
        b.Ok? && (Collecting(mode) ==> info.Some? && UniqueKeys(true, RequestedOf(b.value.outVariables, op.outputVariables) + ReferenceEntries(groups, |groups|)))
    ensures Prepare(info, op, render, mode).Ok? ==> UniqueKeys(true, Prepare(info, op, render, mode).value.outVariables)
    ensures Prepare(info, op, render, mode).Ok? && op.outputVariables.Some? ==>
      forall i :: 0 <= i < |op.outputVariables.value| ==> HasKey(true, Prepare(info, op, render, mode).value.outVariables, op.outputVariables.value[i])
  {
    var b := BindingOf(info, op, render);
    if b.Ok? {
      if op.parameters.Some? {
        BoundRoutes(Routes(info, op.parameters.value, render), |op.parameters.value|);
      }
      var outs := RequestedOf(b.value.outVariables, op.outputVariables);
      if op.outputVariables.Some? {
        var names := op.outputVariables.value;
        RequestedUnique(b.value.outVariables, names, |names|);
        forall i | 0 <= i < |names|
          ensures HasKey(true, outs, names[i])
        {
          RequestedPresent(b.value.outVariables, names, |names|, i);
        }
      }
      if Collecting(mode) {
        var groups := ConfigGroups(info);
        ReferencesOk(groups, |groups|, outs);
        if op.outputVariables.Some? {
          var names := op.outputVariables.value;
          forall i | 0 <= i < |names|
            ensures HasKey(true, outs + ReferenceEntries(groups, |groups|), names[i])
          {
            HasKeyPrefix(true, outs, ReferenceEntries(groups, |groups|), names[i]);
          }
        }
      }
    }
  }

  // ---------------------------------------------------------------------------
  // Writing the out-variables back

  /** A `context.SetVariableValue` call; a null variable name is `None`. */
  datatype VariableWrite = VariableWrite(name: Option<string>, value: RuntimeValue)

  /**
   * Lines 171-177 as written, for one result variable: a mapped name is
   * written under its mapping, null for a requested name; otherwise a
   * requested name is written under itself.
   */
  function WriteAsWritten(outs: seq<(string, Option<string>)>, requested: Option<seq<string>>, e: (string, RuntimeValue)): seq<VariableWrite>
  {
    match Get(true, outs, e.0)
    case Some(name) => [VariableWrite(name, e.1)]
    case None => if requested.Some? && ContainsIC(requested.value, e.0) then [VariableWrite(Some(e.0), e.1)] else []
  }

  /** The writes as written for the first `n` result variables. */
  function WritesAsWritten(outs: seq<(string, Option<string>)>, requested: Option<seq<string>>, results: seq<(string, RuntimeValue)>, n: nat): seq<VariableWrite>
    requires n <= |results|
  {
    if n == 0 then [] else WritesAsWritten(outs, requested, results, n - 1) + WriteAsWritten(outs, requested, results[n - 1])
  }

  /** A requested variable the script sets is written under a null name. */
  lemma RequestedVariableWrittenWithoutName(name: string, v: RuntimeValue)
    ensures var outs := WithRequested([], [name], 1);
      WritesAsWritten(outs, Some([name]), [(name, v)], 1) == [VariableWrite(None, v)]
  {
    EqICIsEquivalence(name, name, name);
    var none: seq<(string, Option<string>)> := [];
    assert WithRequested(none, [name], 0) == none;
    assert !HasKey(true, none, [name][0]);
    var outs := WithRequested(none, [name], 1);
    assert outs == [(name, None)];
    assert FindKey(true, outs, name) == 0;
  }

  /** The write for one result variable: under its mapping, or under its own name when the mapping is null. */
  function WriteFor(outs: seq<(string, Option<string>)>, e: (string, RuntimeValue)): seq<(string, RuntimeValue)>
  {
    match Get(true, outs, e.0)
    case Some(name) => [(name.GetOr(e.0), e.1)]
    case None => []
  }

  /**
   * With every requested name present (as the run guarantees), the
   * corrected write and the one as written agree except that a null
   * mapping writes under the variable's own name, which is what the
   * as-written code's unreachable second branch does.
   */
  lemma WriteCorrection(outs: seq<(string, Option<string>)>, requested: Option<seq<string>>, e: (string, RuntimeValue))
    requires requested.Some? ==> forall i :: 0 <= i < |requested.value| ==> HasKey(true, outs, requested.value[i])
    ensures Get(true, outs, e.0).None? ==> WriteAsWritten(outs, requested, e) == [] && WriteFor(outs, e) == []
    ensures Get(true, outs, e.0) == Some(None) ==>
      WriteAsWritten(outs, requested, e) == [VariableWrite(None, e.1)] && WriteFor(outs, e) == [(e.0, e.1)]
    ensures Get(true, outs, e.0).Some? && Get(true, outs, e.0).value.Some? ==>
      var name := Get(true, outs, e.0).value.value;
      WriteAsWritten(outs, requested, e) == [VariableWrite(Some(name), e.1)] && WriteFor(outs, e) == [(name, e.1)]
  {
    if Get(true, outs, e.0).None? && requested.Some? && ContainsIC(requested.value, e.0) {
      var j :| 0 <= j < |requested.value| && EqIC(requested.value[j], e.0);
      FindKeyEq(true, outs, requested.value[j], e.0);
    }
  }

  /** The writes for the first `n` result variables. */
  function Writes(outs: seq<(string, Option<string>)>, results: seq<(string, RuntimeValue)>, n: nat): seq<(string, RuntimeValue)>
    requires n <= |results|
  {
    if n == 0 then [] else Writes(outs, results, n - 1) + WriteFor(outs, results[n - 1])
  }

  /** The loop over the result's out-variables, as written. */
  method WriteResults(outs: seq<(string, Option<string>)>, requested: Option<seq<string>>, results: seq<(string, RuntimeValue)>)
    returns (writes: seq<VariableWrite>)
    ensures writes == WritesAsWritten(outs, requested, results, |results|)
  {
    writes := [];
    for i := 0 to |results|
      invariant writes == WritesAsWritten(outs, requested, results, i)
    {
      var v := results[i];
      var varName := Get(true, outs, v.0);
      if varName.Some? {
        writes := writes + [VariableWrite(varName.value, v.1)];
      } else if requested.Some? && ContainsIC(requested.value, v.0) {
        writes := writes + [VariableWrite(Some(v.0), v.1)];
      } else {
        assert writes + [] == writes;
      }
    }
  }

  /** The write as written for one result variable, with every requested name among the out-variables. */
  lemma WriteAsWrittenMapped(outs: seq<(string, Option<string>)>, requested: Option<seq<string>>, e: (string, RuntimeValue))
    requires requested.Some? ==> forall k :: 0 <= k < |requested.value| ==> HasKey(true, outs, requested.value[k])
    ensures WriteAsWritten(outs, requested, e) == if HasKey(true, outs, e.0) then [VariableWrite(Get(true, outs, e.0).value, e.1)] else []
  {
    WriteCorrection(outs, requested, e);
  }

  /**
   * As written, every result variable the run maps is written under its
   * mapping (a null one for a requested name), in order; with every
   * requested name among the out-variables nothing else is written.
   */
  lemma WritesAsWrittenMapped(outs: seq<(string, Option<string>)>, requested: Option<seq<string>>,
                              results: seq<(string, RuntimeValue)>, n: nat, i: nat)
    requires i < n <= |results|
    requires requested.Some? ==> forall k :: 0 <= k < |requested.value| ==> HasKey(true, outs, requested.value[k])
    ensures HasKey(true, outs, results[i].0) ==>
      VariableWrite(Get(true, outs, results[i].0).value, results[i].1) in WritesAsWritten(outs, requested, results, n)
    ensures |WritesAsWritten(outs, requested, results, n)| <= n
    ensures forall w :: w in WritesAsWritten(outs, requested, results, n) ==> MappedWrite(outs, results, n, w)
  {
    WritesAsWrittenHas(outs, requested, results, n, i);
    WritesAsWrittenOnly(outs, requested, results, n);
  }

  /** `w` is the write of a mapped result variable among the first `n`. */
  predicate MappedWrite(outs: seq<(string, Option<string>)>, results: seq<(string, RuntimeValue)>, n: nat, w: VariableWrite)
    requires n <= |results|
  {
    exists k :: 0 <= k < n && HasKey(true, outs, results[k].0) && w == VariableWrite(Get(true, outs, results[k].0).value, results[k].1)
  }

  lemma {:induction false} WritesAsWrittenHas(outs: seq<(string, Option<string>)>, requested: Option<seq<string>>,
                                              results: seq<(string, RuntimeValue)>, n: nat, i: nat)
    requires i < n <= |results|
    requires requested.Some? ==> forall k :: 0 <= k < |requested.value| ==> HasKey(true, outs, requested.value[k])
    ensures HasKey(true, outs, results[i].0) ==>
      VariableWrite(Get(true, outs, results[i].0).value, results[i].1) in WritesAsWritten(outs, requested, results, n)
    decreases n
  {
    var prev := WritesAsWritten(outs, requested, results, n - 1);
    assert WritesAsWritten(outs, requested, results, n) == prev + WriteAsWritten(outs, requested, results[n - 1]);
    if i < n - 1 {
      WritesAsWrittenHas(outs, requested, results, n - 1, i);
    } else {
      WriteAsWrittenMapped(outs, requested, results[n - 1]);
    }
  }

  lemma {:induction false} WritesAsWrittenOnly(outs: seq<(string, Option<string>)>, requested: Option<seq<string>>,
                                               results: seq<(string, RuntimeValue)>, n: nat)
    requires n <= |results|
    requires requested.Some? ==> forall k :: 0 <= k < |requested.value| ==> HasKey(true, outs, requested.value[k])
    ensures |WritesAsWritten(outs, requested, results, n)| <= n
    ensures forall w :: w in WritesAsWritten(outs, requested, results, n) ==> MappedWrite(outs, results, n, w)
    decreases n
  {
    if n > 0 {
      var prev := WritesAsWritten(outs, requested, results, n - 1);
      var last := WriteAsWritten(outs, requested, results[n - 1]);
      assert WritesAsWritten(outs, requested, results, n) == prev + last;
      WritesAsWrittenOnly(outs, requested, results, n - 1);
      WriteAsWrittenMapped(outs, requested, results[n - 1]);
      forall w | w in prev + last
        ensures MappedWrite(outs, results, n, w)
      {
        if w in prev {
          var k :| 0 <= k < n - 1 && HasKey(true, outs, results[k].0) && w == VariableWrite(Get(true, outs, results[k].0).value, results[k].1);
          assert 0 <= k < n;
        } else {
          assert 0 <= n - 1 < n;
        }
      }
    }
  }

  /** As intended, every result variable the run maps is written exactly once, in order, and no other. */
  lemma {:induction false} WritesMapped(outs: seq<(string, Option<string>)>, results: seq<(string, RuntimeValue)>, n: nat, i: nat)
    requires i < n <= |results|
    ensures HasKey(true, outs, results[i].0) ==>
      (Get(true, outs, results[i].0).value.GetOr(results[i].0), results[i].1) in Writes(outs, results, n)
    ensures |Writes(outs, results, n)| <= n
  {
    if i < n - 1 {
      WritesMapped(outs, results, n - 1, i);
    } else if n > 1 {
      WritesMapped(outs, results, n - 1, 0);
    }
  }

  // ---------------------------------------------------------------------------
  // ExecuteScript2Async

  /** The job a run sends: the three dictionaries and the out-variables' PowerShell names. */
  function JobOf(content: string, p: Prepared, collectOutput: bool, preferWindowsPowerShell: bool): PowerShellJob
  {
    PowerShellJob(content, collectOutput, !collectOutput, p.variables, p.parameters, Keys(p.outVariables), preferWindowsPowerShell)
  }

  /** The part after the job has finished: the exit check, the writes and the reconciliation. */
  method FinishRun(result: JobResult, info: Option<ScriptInfo>, mode: ExecutionMode, outs: seq<(string, Option<string>)>,
                   requested: Option<seq<string>>, successExitCode: Option<string>, scriptName: Option<string>, ric: bool)
    returns (data: Result<Option<ExecuteScriptResult>>, writes: seq<VariableWrite>, log: seq<LogMessage>)
    ensures var exit := LogExit(result.exitCode, successExitCode);
      (data.Err? <==> exit.Err?) &&
      (exit.Err? ==> writes == [] && log == result.messages) &&
      (exit.Ok? ==> data == Ok(Some(Outcome(result, info, mode, scriptName, ric))) &&
                    writes == WritesAsWritten(outs, requested, result.outVariables, |result.outVariables|) &&
                    log == result.messages + ((if exit.value.Some? then [exit.value.value] else []) +
                           ReconciliationLog(result, info, mode, scriptName, ric)))
  {
    writes := [];
    var exit := LogExit(result.exitCode, successExitCode);
    if exit.Err? {
      return Err(exit.error), writes, result.messages;
    }
    var exitLog: seq<LogMessage> := if exit.value.Some? then [exit.value.value] else [];
    writes := WriteResults(outs, requested, result.outVariables);

    var outcome, notices := ReportRun(result, info, mode, scriptName, ric);
    data := Ok(Some(outcome));
    log := result.messages + (exitLog + notices);
  }

  /**
   * `ExecuteScript2Async`: `raft` stands for the script-asset lookup,
   * `parse` for `PowerShellScriptInfo.TryParse`, `render` for
   * `RuntimeValue.ToString` and `run` for the agent's job executer; `ric`
   * is the comparer of the job's out-variable dictionary. `data` is `Ok(None)`
   * where the source returns null and `Err` where it throws; `writes` are the
   * variables set in the execution context.
   */
  method ExecuteScript2(
    op: Operation, raft: string -> Option<string>, parse: string -> Option<ScriptInfo>, render: RuntimeValue -> string,
    collectOutput: bool, successExitCode: Option<string>, mode: ExecutionMode, preferWindowsPowerShell: bool,
    run: PowerShellJob -> JobResult, ric: bool)
    returns (data: Result<Option<ExecuteScriptResult>>, job: Option<PowerShellJob>, writes: seq<VariableWrite>, log: seq<LogMessage>)
    ensures var l := LoadScript(op, raft, parse);
      l.NotLoaded? ==> data == Ok(None) && job.None? && writes == [] && log == [l.error]
    ensures var l := LoadScript(op, raft, parse);
      l.Loaded? && Prepare(l.info, op, render, mode).Err? ==>
        data == Err(Prepare(l.info, op, render, mode).error) && job.None? && writes == [] &&
        log == l.log + DuplicateMessages(PrepareDuplicates(l.info, op, render, mode))
    ensures var l := LoadScript(op, raft, parse);
      l.Loaded? && Prepare(l.info, op, render, mode).Ok? && MissingExecMode(l.info, mode) ==>
        data == Ok(None) && job.None? && writes == [] && log == l.log + DeclarationLog(l.info, mode) + [MissingExecModeMessage]
    ensures var l := LoadScript(op, raft, parse);
      l.Loaded? && Prepare(l.info, op, render, mode).Ok? && !MissingExecMode(l.info, mode) ==>
        var p := Prepare(l.info, op, render, mode).value;
        job == Some(JobOf(l.content, p, collectOutput, preferWindowsPowerShell)) &&
        var r := run(JobOf(l.content, p, collectOutput, preferWindowsPowerShell));
        var exit := LogExit(r.exitCode, successExitCode);
        (data.Err? <==> exit.Err?) &&
        (exit.Err? ==> writes == [] && log == l.log + DeclarationLog(l.info, mode) + r.messages) &&
        (exit.Ok? ==> data == Ok(Some(Outcome(r, l.info, mode, op.scriptName, ric))) &&
                      writes == WritesAsWritten(p.outVariables, op.outputVariables, r.outVariables, |r.outVariables|) &&
                      log == l.log + DeclarationLog(l.info, mode) + (r.messages + ((if exit.value.Some? then [exit.value.value] else []) +
                             ReconciliationLog(r, l.info, mode, op.scriptName, ric))))
  {
    var loaded := LoadScript(op, raft, parse);
    if loaded.NotLoaded? {
      return Ok(None), None, [], [loaded.error];
    }
    var info := loaded.info;
    var prepared, duplicates := PrepareJob(info, op, render, mode);
    if prepared.Err? {
      return Err(prepared.error), None, [], loaded.log + DuplicateMessages(duplicates);
    }
    log := loaded.log + DuplicateMessages(duplicates);
    assert log == loaded.log + DeclarationLog(info, mode);
    if MissingExecMode(info, mode) {
      return Ok(None), None, [], log + [MissingExecModeMessage];
    }
    var p := prepared.value;
    var j := PowerShellJob(loaded.content, collectOutput, !collectOutput, p.variables, p.parameters, Keys(p.outVariables), preferWindowsPowerShell);
    job := Some(j);
    var result := run(j);
    var tail;
    data, writes, tail := FinishRun(result, info, mode, p.outVariables, op.outputVariables, successExitCode, op.scriptName, ric);
    log := log + tail;
  }
}
