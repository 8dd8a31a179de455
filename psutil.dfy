/**
 * `PSUtil.ExecuteScriptDirectAsync` and its helpers: binding an operation's
 * arguments to the script's declared parameters or passing them as
 * variables, declaring the out-variables a collecting run's configuration
 * directives reference, the `.AHEXECMODE` variable, logging the exit code,
 * writing the job's out-variables back, and the configuration list built
 * after the run.
 *
 * The remote job is a parameter (`run`), as is the outcome of
 * `PowerShellScriptInfo.TryParse` (`None` when the script does not parse).
 * A dictionary is an association list; `oic` says whether the caller's
 * `outArguments` compares keys ignoring case, `ric` the same for the job's
 * out-variables.
 */
module PSUtil {
  import opened Common
  import opened RuntimeValues
  import opened ScriptResults
  import opened PowerShellScriptInfo
  import PSConfigParameterInfo
  import ExitCodeComparator
  import opened ConfigReconciliation

  // ---------------------------------------------------------------------------
  // Binding the arguments

  predicate NotNamed(key: string, p: ParameterInfo)
  {
    !EqIC(p.name, key)
  }

  /** The first declared parameter whose name is `key`, ignoring case. */
  function DeclaredParam(ps: seq<ParameterInfo>, key: string): Option<ParameterInfo>
  {
    var i := Skip(ps, 0, p => NotNamed(key, p));
    if i < |ps| then Some(ps[i]) else None
  }

  /** The parameter found is the first whose name is `key`; none is found exactly when no name is `key`. */
  lemma DeclaredParamFirst(ps: seq<ParameterInfo>, key: string)
    ensures DeclaredParam(ps, key).None? <==> forall i :: 0 <= i < |ps| ==> !EqIC(ps[i].name, key)
    ensures DeclaredParam(ps, key).Some? ==> exists i :: (0 <= i < |ps| && ps[i] == DeclaredParam(ps, key).value &&
      EqIC(ps[i].name, key) && forall j :: 0 <= j < i ==> !EqIC(ps[j].name, key))
  {
  }

  /** The value passed for a declared parameter: `AsBoolean() ?? false` for a bool or switch. */
  function BoundValue(p: ParameterInfo, v: RuntimeValue): RuntimeValue
  {
    if p.isBooleanOrSwitch then FromBool(AsBoolean(v).GetOr(false)) else v
  }

  /** The first `n` arguments that no parameter declares, as given. */
  function Undeclared(ps: seq<ParameterInfo>, args: seq<(string, RuntimeValue)>, n: nat): seq<(string, RuntimeValue)>
    requires n <= |args|
  {
    if n == 0 then []
    else Undeclared(ps, args, n - 1) + (if DeclaredParam(ps, args[n - 1].0).None? then [args[n - 1]] else [])
  }

  /** The first `n` arguments that a parameter declares, under the declared name, with the value passed. */
  function DeclaredEntries(ps: seq<ParameterInfo>, args: seq<(string, RuntimeValue)>, n: nat): seq<(string, RuntimeValue)>
    requires n <= |args|
  {
    if n == 0 then []
    else
      var p := DeclaredParam(ps, args[n - 1].0);
      DeclaredEntries(ps, args, n - 1) + (if p.Some? then [(p.value.name, BoundValue(p.value, args[n - 1].1))] else [])
  }

  /**
   * The loop over the arguments of a parsed script: a declared argument is
   * set in `parameters` under the parameter's name, any other in
   * `variables` under its own; both dictionaries compare keys exactly.
   */
  method BindArguments(ps: seq<ParameterInfo>, args: seq<(string, RuntimeValue)>)
    returns (variables: seq<(string, RuntimeValue)>, parameters: seq<(string, RuntimeValue)>)
    ensures variables == SetAll(false, [], Undeclared(ps, args, |args|))
    ensures parameters == SetAll(false, [], DeclaredEntries(ps, args, |args|))
  {
    variables, parameters := [], [];
    for i := 0 to |args|
      invariant variables == SetAll(false, [], Undeclared(ps, args, i))
      invariant parameters == SetAll(false, [], DeclaredEntries(ps, args, i))
    {
      var key := args[i].0;
      var value := args[i].1;
      var param := DeclaredParam(ps, key);
      if param.Some? && param.value.isBooleanOrSwitch {
        value := FromBool(AsBoolean(value).GetOr(false));
      }
      BindStep(ps, args, i);
      if param.Some? {
        parameters := Set(false, parameters, param.value.name, value);
      } else {
        variables := Set(false, variables, key, value);
      }
    }
  }

  /** One argument's pass: it is set in `parameters` when a parameter declares it, in `variables` otherwise. */
  lemma BindStep(ps: seq<ParameterInfo>, args: seq<(string, RuntimeValue)>, i: nat)
    requires i < |args|
    ensures var p := DeclaredParam(ps, args[i].0);
      var vs, qs := SetAll(false, [], Undeclared(ps, args, i)), SetAll(false, [], DeclaredEntries(ps, args, i));
      SetAll(false, [], Undeclared(ps, args, i + 1)) == (if p.None? then Set(false, vs, args[i].0, args[i].1) else vs) &&
      SetAll(false, [], DeclaredEntries(ps, args, i + 1)) ==
        (if p.Some? then Set(false, qs, p.value.name, BoundValue(p.value, args[i].1)) else qs)
  {
    var p := DeclaredParam(ps, args[i].0);
    if p.Some? {
      SetAllSnoc(false, [], DeclaredEntries(ps, args, i), (p.value.name, BoundValue(p.value, args[i].1)));
      assert Undeclared(ps, args, i) + [] == Undeclared(ps, args, i);
    } else {
      SetAllSnoc(false, [], Undeclared(ps, args, i), args[i]);
      assert DeclaredEntries(ps, args, i) + [] == DeclaredEntries(ps, args, i);
    }
  }

  lemma {:induction false} UndeclaredLast(ps: seq<ParameterInfo>, args: seq<(string, RuntimeValue)>, n: nat, i: nat)
    requires i < n <= |args| && DeclaredParam(ps, args[i].0).None?
    requires forall j :: i < j < n ==> args[j].0 != args[i].0
    ensures LastMatch(false, Undeclared(ps, args, n), args[i].0) == Some(args[i].1)
  {
    var prev := Undeclared(ps, args, n - 1);
    if i == n - 1 {
      LastMatchSnoc(false, prev, args[i], args[i].0);
    } else {
      UndeclaredLast(ps, args, n - 1, i);
      if DeclaredParam(ps, args[n - 1].0).None? {
        LastMatchSnoc(false, prev, args[n - 1], args[i].0);
      } else {
        assert prev + [] == prev;
        assert Undeclared(ps, args, n) == prev;
      }
    }
  }

  lemma {:induction false} UndeclaredMissing(ps: seq<ParameterInfo>, args: seq<(string, RuntimeValue)>, n: nat, k: string)
    requires n <= |args| && DeclaredParam(ps, k).Some?
    ensures LastMatch(false, Undeclared(ps, args, n), k).None?
  {
    if n > 0 {
      var prev := Undeclared(ps, args, n - 1);
      UndeclaredMissing(ps, args, n - 1, k);
      if DeclaredParam(ps, args[n - 1].0).None? {
        LastMatchSnoc(false, prev, args[n - 1], k);
      } else {
        assert prev + [] == prev;
        assert Undeclared(ps, args, n) == prev;
      }
    }
  }

  /** An argument no parameter declares is passed as a variable, under its own name, with its own value. */
  lemma UndeclaredArgumentIsVariable(ps: seq<ParameterInfo>, args: seq<(string, RuntimeValue)>, i: nat)
    requires UniqueKeys(false, args) && i < |args| && DeclaredParam(ps, args[i].0).None?
    ensures Get(false, SetAll(false, [], Undeclared(ps, args, |args|)), args[i].0) == Some(args[i].1)
  {
    UndeclaredLast(ps, args, |args|, i);
    SetAllReads(false, [], Undeclared(ps, args, |args|), args[i].0);
  }

  /** A name some parameter declares is never passed as a variable. */
  lemma DeclaredNameIsNotVariable(ps: seq<ParameterInfo>, args: seq<(string, RuntimeValue)>, k: string)
    requires DeclaredParam(ps, k).Some?
    ensures !HasKey(false, SetAll(false, [], Undeclared(ps, args, |args|)), k)
  {
    UndeclaredMissing(ps, args, |args|, k);
    SetAllReads(false, [], Undeclared(ps, args, |args|), k);
  }

  lemma {:induction false} DeclaredLast(ps: seq<ParameterInfo>, args: seq<(string, RuntimeValue)>, n: nat, i: nat, p: ParameterInfo)
    requires i < n <= |args| && DeclaredParam(ps, args[i].0) == Some(p)
    requires forall j :: i < j < n && DeclaredParam(ps, args[j].0).Some? ==> DeclaredParam(ps, args[j].0).value.name != p.name
    ensures LastMatch(false, DeclaredEntries(ps, args, n), p.name) == Some(BoundValue(p, args[i].1))
  {
    var prev := DeclaredEntries(ps, args, n - 1);
    var q := DeclaredParam(ps, args[n - 1].0);
    if i == n - 1 {
      LastMatchSnoc(false, prev, (p.name, BoundValue(p, args[i].1)), p.name);
    } else {
      DeclaredLast(ps, args, n - 1, i, p);
      if q.Some? {
        LastMatchSnoc(false, prev, (q.value.name, BoundValue(q.value, args[n - 1].1)), p.name);
      } else {
        assert prev + [] == prev;
        assert DeclaredEntries(ps, args, n) == prev;
      }
    }
  }

  /**
   * A declared argument is passed under the parameter's declared name; when
   * several arguments name the same parameter, the last one wins. A bool or
   * switch parameter receives `AsBoolean() ?? false`.
   */
  lemma DeclaredArgumentIsParameter(ps: seq<ParameterInfo>, args: seq<(string, RuntimeValue)>, i: nat, p: ParameterInfo)
    requires i < |args| && DeclaredParam(ps, args[i].0) == Some(p)
    requires forall j :: i < j < |args| && DeclaredParam(ps, args[j].0).Some? ==> DeclaredParam(ps, args[j].0).value.name != p.name
    ensures Get(false, SetAll(false, [], DeclaredEntries(ps, args, |args|)), p.name) ==
      Some(if p.isBooleanOrSwitch then FromBool(AsBoolean(args[i].1) == Some(true)) else args[i].1)
  {
    DeclaredLast(ps, args, |args|, i, p);
    SetAllReads(false, [], DeclaredEntries(ps, args, |args|), p.name);
  }

  lemma {:induction false} DeclaredEntriesNamed(ps: seq<ParameterInfo>, args: seq<(string, RuntimeValue)>, n: nat, j: nat)
    requires n <= |args| && j < |DeclaredEntries(ps, args, n)|
    ensures exists p :: (p in ps && p.name == DeclaredEntries(ps, args, n)[j].0 &&
      (p.isBooleanOrSwitch ==> DeclaredEntries(ps, args, n)[j].1 in {FromBool(true), FromBool(false)}))
  {
    var prev := DeclaredEntries(ps, args, n - 1);
    var q := DeclaredParam(ps, args[n - 1].0);
    if j < |prev| {
      DeclaredEntriesNamed(ps, args, n - 1, j);
      assert DeclaredEntries(ps, args, n)[j] == prev[j];
    } else {
      assert q.Some? && DeclaredEntries(ps, args, n)[j] == (q.value.name, BoundValue(q.value, args[n - 1].1));
      assert q.value in ps;
    }
  }

  /** Every parameter passed is one the script declares, and a bool or switch one is passed "true" or "false". */
  lemma ParametersAreDeclared(ps: seq<ParameterInfo>, args: seq<(string, RuntimeValue)>, k: string)
    requires HasKey(false, SetAll(false, [], DeclaredEntries(ps, args, |args|)), k)
    ensures exists p :: (p in ps && p.name == k &&
      (p.isBooleanOrSwitch ==> Get(false, SetAll(false, [], DeclaredEntries(ps, args, |args|)), k).value in {FromBool(true), FromBool(false)}))
  {
    var es := DeclaredEntries(ps, args, |args|);
    SetAllReads(false, [], es, k);
    LastMatchFound(false, es, k);
    var j :| 0 <= j < |es| && KeyEq(false, es[j].0, k) && es[j].1 == LastMatch(false, es, k).value;
    DeclaredEntriesNamed(ps, args, |args|, j);
  }

  // ---------------------------------------------------------------------------
  // Declaring the out-variables the configuration directives reference

  /** The raw type/key pair of each group. */
  function PairKeys(groups: seq<Group>): (r: seq<string>)
    ensures |r| == |groups|
  {
    seq(|groups|, i requires 0 <= i < |groups| => DirectiveKey(groups[i]))
  }

  /** No key before `keys[i]` equals it, ignoring case. */
  predicate FirstOf(keys: seq<string>, i: nat)
    requires i < |keys|
  {
    forall j :: 0 <= j < i ==> !EqIC(keys[j], keys[i])
  }

  /** Group `i` is the first with its raw type/key pair, ignoring case; a later one is skipped with a warning. */
  predicate Kept(groups: seq<Group>, i: nat)
    requires i < |groups|
  {
    FirstOf(PairKeys(groups), i)
  }

  /** `setOutputVariable(oe)`: a `$name` directive sets `outArguments[name]` to the empty string. */
  function SetOutputVariable(oic: bool, d: seq<(string, RuntimeValue)>, oe: Option<string>): seq<(string, RuntimeValue)>
  {
    match ReferenceName(oe)
    case Some(name) => Set(oic, d, name, Str(""))
    case None => d
  }

  /** The `setOutputVariable` calls for the directives `ds`, in order. */
  function DeclareAll(oic: bool, d: seq<(string, RuntimeValue)>, ds: seq<Option<string>>): seq<(string, RuntimeValue)>
    decreases |ds|
  {
    if ds == [] then d else SetOutputVariable(oic, DeclareAll(oic, d, ds[..|ds| - 1]), ds[|ds| - 1])
  }

  /** The five `setOutputVariable` calls for one group, in the source's order. */
  function DeclareGroup(oic: bool, d: seq<(string, RuntimeValue)>, g: Group): seq<(string, RuntimeValue)>
  {
    DeclareAll(oic, d, DirectiveList(g))
  }

  lemma DeclareGroupSpelled(oic: bool, d: seq<(string, RuntimeValue)>, g: Group)
    ensures DeclareGroup(oic, d, g) ==
      SetOutputVariable(oic, SetOutputVariable(oic, SetOutputVariable(oic, SetOutputVariable(oic, SetOutputVariable(oic, d,
        g.configType), g.configKey), g.desiredValue), g.currentValue), g.valueDrifted)
  {
    var ds := DirectiveList(g);
    assert ds[..4][..3] == ds[..3] && ds[..3][..2] == ds[..2] && ds[..2][..1] == ds[..1] && ds[..1][..0] == [];
    assert DeclareAll(oic, d, ds[..1]) == SetOutputVariable(oic, d, ds[0]);
    assert DeclareAll(oic, d, ds[..2]) == SetOutputVariable(oic, DeclareAll(oic, d, ds[..1]), ds[1]);
    assert DeclareAll(oic, d, ds[..3]) == SetOutputVariable(oic, DeclareAll(oic, d, ds[..2]), ds[2]);
    assert DeclareAll(oic, d, ds[..4]) == SetOutputVariable(oic, DeclareAll(oic, d, ds[..3]), ds[3]);
  }

  /** `outArguments` after the first `n` groups. */
  function Declared(groups: seq<Group>, n: nat, outArguments: seq<(string, RuntimeValue)>, oic: bool): seq<(string, RuntimeValue)>
    requires n <= |groups|
  {
    if n == 0 then outArguments
    else
      var d := Declared(groups, n - 1, outArguments, oic);
      if Kept(groups, n - 1) then DeclareGroup(oic, d, groups[n - 1]) else d
  }

  /** The raw pairs of the skipped groups among the first `n`, in order: one warning each. */
  function DuplicateDeclarations(groups: seq<Group>, n: nat): seq<string>
    requires n <= |groups|
  {
    if n == 0 then []
    else DuplicateDeclarations(groups, n - 1) + (if Kept(groups, n - 1) then [] else [DirectiveKey(groups[n - 1])])
  }

  /**
   * The set after the first `i` groups is `AddAllIC([], keys[..i])`: group
   * `i` is kept exactly when its pair is not yet in it, and adding the pair
   * gives the set after `i + 1` groups.
   */
  lemma SeenKept(groups: seq<Group>, i: nat)
    requires i < |groups|
    ensures ContainsIC(AddAllIC([], PairKeys(groups)[..i]), DirectiveKey(groups[i])) <==> !Kept(groups, i)
    ensures AddAllIC([], PairKeys(groups)[..i + 1]) == AddIC(AddAllIC([], PairKeys(groups)[..i]), DirectiveKey(groups[i]))
  {
    var keys := PairKeys(groups);
    var ys, k := keys[..i], DirectiveKey(groups[i]);
    var a := AddAllIC([], ys);
    assert k == keys[i];
    AddAllICFacts([], ys);
    if ContainsIC(a, k) {
      var x :| 0 <= x < |a| && EqIC(a[x], k);
      assert a[x] in a;
      var j :| 0 <= j < i && ys[j] == a[x];
      assert EqIC(keys[j], keys[i]);
    }
    if !FirstOf(keys, i) {
      var j :| 0 <= j < i && EqIC(keys[j], k);
      assert ys[j] in ys;
      var x :| 0 <= x < |a| && EqIC(a[x], ys[j]);
      EqICIsEquivalence(a[x], ys[j], k);
    }
    assert keys[..i + 1] == ys + [k];
    AddAllICSnoc([], ys, k);
  }

  /**
   * The declaration loop of a collecting run: for each group whose raw
   * type/key pair is new (ignoring case), its `$name` directives set
   * `outArguments[name]` to the empty string; each other group is skipped,
   * its pair reported.
   */
  method DeclareOutputs(groups: seq<Group>, outArguments: seq<(string, RuntimeValue)>, oic: bool)
    returns (outArgs: seq<(string, RuntimeValue)>, duplicates: seq<string>)
    ensures outArgs == Declared(groups, |groups|, outArguments, oic)
    ensures duplicates == DuplicateDeclarations(groups, |groups|)
  {
    outArgs, duplicates := outArguments, [];
    var uniqueConfigKeys: seq<string> := [];
    for i := 0 to |groups|
      invariant outArgs == Declared(groups, i, outArguments, oic)
      invariant duplicates == DuplicateDeclarations(groups, i)
      invariant uniqueConfigKeys == AddAllIC([], PairKeys(groups)[..i])
    {
      var configParam := groups[i];
      var uniqueKey := DirectiveKey(configParam);
      SeenKept(groups, i);
      var added := !ContainsIC(uniqueConfigKeys, uniqueKey);
      uniqueConfigKeys := AddIC(uniqueConfigKeys, uniqueKey);
      if !added {
        assert !Kept(groups, i);
        duplicates := duplicates + [uniqueKey];
        continue;
      }
      assert Kept(groups, i);
      assert DuplicateDeclarations(groups, i) + [] == DuplicateDeclarations(groups, i);
      ghost var before := outArgs;
      outArgs := SetOutputVariable(oic, outArgs, configParam.configType);
      outArgs := SetOutputVariable(oic, outArgs, configParam.configKey);
      outArgs := SetOutputVariable(oic, outArgs, configParam.desiredValue);
      outArgs := SetOutputVariable(oic, outArgs, configParam.currentValue);
      outArgs := SetOutputVariable(oic, outArgs, configParam.valueDrifted);
      DeclareGroupSpelled(oic, before, configParam);
    }
  }

  /** Directive `oe` is a `$name` reference whose name matches `k`. */
  predicate RefersTo(oic: bool, oe: Option<string>, k: string)
  {
    ReferenceName(oe).Some? && KeyEq(oic, ReferenceName(oe).value, k)
  }

  predicate GroupRefersTo(oic: bool, g: Group, k: string)
  {
    AnyRefersTo(oic, DirectiveList(g), k)
  }

  lemma SetOutputVariableReads(oic: bool, d: seq<(string, RuntimeValue)>, oe: Option<string>, k: string)
    ensures Get(oic, SetOutputVariable(oic, d, oe), k) == if RefersTo(oic, oe, k) then Some(Str("")) else Get(oic, d, k)
  {
    if ReferenceName(oe).Some? {
      var name := ReferenceName(oe).value;
      GetSet(oic, d, name, Str(""), k);
      if KeyEq(oic, name, k) {
        FindKeyEq(oic, Set(oic, d, name, Str("")), name, k);
      }
    }
  }

  /** Some directive of `ds` is a `$name` reference whose name matches `k`. */
  predicate AnyRefersTo(oic: bool, ds: seq<Option<string>>, k: string)
  {
    exists m :: 0 <= m < |ds| && RefersTo(oic, ds[m], k)
  }

  lemma AnyRefersToSnoc(oic: bool, ds: seq<Option<string>>, k: string)
    requires ds != []
    ensures AnyRefersTo(oic, ds, k) <==> AnyRefersTo(oic, ds[..|ds| - 1], k) || RefersTo(oic, ds[|ds| - 1], k)
  {
    var init := ds[..|ds| - 1];
    if AnyRefersTo(oic, ds, k) {
      var m :| 0 <= m < |ds| && RefersTo(oic, ds[m], k);
      if m < |init| {
        assert init[m] == ds[m];
      }
    }
    if AnyRefersTo(oic, init, k) {
      var m :| 0 <= m < |init| && RefersTo(oic, init[m], k);
      assert ds[m] == init[m];
    }
  }

  lemma {:induction false} DeclareAllReads(oic: bool, d: seq<(string, RuntimeValue)>, ds: seq<Option<string>>, k: string)
    ensures Get(oic, DeclareAll(oic, d, ds), k) == if AnyRefersTo(oic, ds, k) then Some(Str("")) else Get(oic, d, k)
    decreases |ds|
  {
    if ds != [] {
      var init, last := ds[..|ds| - 1], ds[|ds| - 1];
      DeclareAllReads(oic, d, init, k);
      SetOutputVariableReads(oic, DeclareAll(oic, d, init), last, k);
      AnyRefersToSnoc(oic, ds, k);
    }
  }

  lemma DeclareGroupReads(oic: bool, d: seq<(string, RuntimeValue)>, g: Group, k: string)
    ensures Get(oic, DeclareGroup(oic, d, g), k) == if GroupRefersTo(oic, g, k) then Some(Str("")) else Get(oic, d, k)
  {
    DeclareAllReads(oic, d, DirectiveList(g), k);
  }

  /** Some group among the first `n` that is kept references `k`. */
  ghost predicate Referenced(groups: seq<Group>, n: nat, oic: bool, k: string)
    requires n <= |groups|
  {
    exists i :: 0 <= i < n && Kept(groups, i) && GroupRefersTo(oic, groups[i], k)
  }

  /** `Referenced`, group by group. */
  predicate KeptRefers(groups: seq<Group>, n: nat, oic: bool, k: string)
    requires n <= |groups|
  {
    n > 0 && (KeptRefers(groups, n - 1, oic, k) || (Kept(groups, n - 1) && GroupRefersTo(oic, groups[n - 1], k)))
  }

  lemma {:induction false} KeptRefersIff(groups: seq<Group>, n: nat, oic: bool, k: string)
    requires n <= |groups|
    ensures KeptRefers(groups, n, oic, k) <==> Referenced(groups, n, oic, k)
  {
    if n > 0 {
      KeptRefersIff(groups, n - 1, oic, k);
      ReferencedSnoc(groups, n, oic, k);
    }
  }

  lemma {:induction false} DeclaredReads(groups: seq<Group>, n: nat, outArguments: seq<(string, RuntimeValue)>, oic: bool, k: string)
    requires n <= |groups|
    ensures Get(oic, Declared(groups, n, outArguments, oic), k) ==
      if KeptRefers(groups, n, oic, k) then Some(Str("")) else Get(oic, outArguments, k)
  {
    if n > 0 {
      DeclaredReads(groups, n - 1, outArguments, oic, k);
      DeclaredStep(groups, n, outArguments, oic, k);
    }
  }

  /** The pass over group `n - 1` sets `k` exactly when the group is kept and references it. */
  lemma DeclaredStep(groups: seq<Group>, n: nat, outArguments: seq<(string, RuntimeValue)>, oic: bool, k: string)
    requires 0 < n <= |groups|
    ensures Get(oic, Declared(groups, n, outArguments, oic), k) ==
      if Kept(groups, n - 1) && GroupRefersTo(oic, groups[n - 1], k) then Some(Str(""))
      else Get(oic, Declared(groups, n - 1, outArguments, oic), k)
  {
    if Kept(groups, n - 1) {
      DeclareGroupReads(oic, Declared(groups, n - 1, outArguments, oic), groups[n - 1], k);
    }
  }

  lemma ReferencedSnoc(groups: seq<Group>, n: nat, oic: bool, k: string)
    requires 0 < n <= |groups|
    ensures Referenced(groups, n, oic, k) <==>
      Referenced(groups, n - 1, oic, k) || (Kept(groups, n - 1) && GroupRefersTo(oic, groups[n - 1], k))
  {
    if Referenced(groups, n, oic, k) && !Referenced(groups, n - 1, oic, k) {
      var i :| 0 <= i < n && Kept(groups, i) && GroupRefersTo(oic, groups[i], k);
      assert i == n - 1;
    }
  }

  /**
   * After the declaration loop, a name that a `$name` directive of a kept
   * group references reads as the empty string; every other entry of
   * `outArguments` is as the caller passed it.
   */
  lemma DeclaredOutputsRead(groups: seq<Group>, outArguments: seq<(string, RuntimeValue)>, oic: bool, k: string)
    ensures Referenced(groups, |groups|, oic, k) ==> Get(oic, Declared(groups, |groups|, outArguments, oic), k) == Some(Str(""))
    ensures !Referenced(groups, |groups|, oic, k) ==> Get(oic, Declared(groups, |groups|, outArguments, oic), k) == Get(oic, outArguments, k)
  {
    DeclaredReads(groups, |groups|, outArguments, oic, k);
    KeptRefersIff(groups, |groups|, oic, k);
  }

  /** A warning is logged, naming the pair, exactly for each group that repeats an earlier pair. */
  lemma {:induction false} DuplicatesAreSkipped(groups: seq<Group>, n: nat)
    requires n <= |groups|
    ensures DuplicateDeclarations(groups, n) == [] <==> forall i :: 0 <= i < n ==> Kept(groups, i)
    ensures forall x :: x in DuplicateDeclarations(groups, n) ==> exists i :: 0 <= i < n && !Kept(groups, i) && x == DirectiveKey(groups[i])
  {
    if n > 0 {
      DuplicatesAreSkipped(groups, n - 1);
    }
  }

  // ---------------------------------------------------------------------------
  // The execution-mode variable and the Configure guard

  /** `scriptInfo?.ExecutionModeVariableName`. */
  function ExecModeName(info: Option<ScriptInfo>): Option<string>
  {
    if info.Some? then info.value.executionModeVariableName else None
  }

  /**
   * A collecting run passes the mode's name in the `.AHEXECMODE` variable,
   * `$` stripped, when one is named; `ic` is the variables' comparer.
   */
  function WithExecMode(ic: bool, variables: seq<(string, RuntimeValue)>, name: Option<string>, mode: ExecutionMode): seq<(string, RuntimeValue)>
  {
    if IsNullOrWhiteSpace(name) then variables
    else Set(ic, variables, TrimDollars(name.value), Str(ModeName(mode)))
  }

  /** The variable named by `.AHEXECMODE` holds "Collect" or "Configure"; no other variable changes. */
  lemma ExecModeVariableSet(ic: bool, variables: seq<(string, RuntimeValue)>, name: Option<string>, mode: ExecutionMode, k: string)
    requires Collecting(mode)
    ensures !IsNullOrWhiteSpace(name) ==>
      Get(ic, WithExecMode(ic, variables, name, mode), TrimDollars(name.value)) == Some(Str(if mode == Collect then "Collect" else "Configure"))
    ensures IsNullOrWhiteSpace(name) || !KeyEq(ic, TrimDollars(name.value), k) ==>
      Get(ic, WithExecMode(ic, variables, name, mode), k) == Get(ic, variables, k)
  {
    if !IsNullOrWhiteSpace(name) {
      GetSet(ic, variables, TrimDollars(name.value), Str(ModeName(mode)), k);
    }
  }

  /** Configure mode without an `.AHEXECMODE` name (or without a parsed script) stops before the job. */
  predicate MissingExecMode(info: Option<ScriptInfo>, mode: ExecutionMode)
  {
    mode == Configure && IsNullOrEmpty(ExecModeName(info))
  }

  // ---------------------------------------------------------------------------
  // Logging the exit code

  /** `LogExit`'s message. */
  function ExitMessage(level: MessageLevel, exitCode: int): LogMessage
  {
    LogMessage(level, "Script exit code: " + IntToString(exitCode))
  }

  /**
   * `LogExit`: nothing without an exit code; otherwise the exit code, as an
   * error exactly when a success comparator parses and rejects it. An
   * operand beyond `int` makes the comparator's `int.Parse` throw.
   */
  function LogExit(exitCode: Option<int>, successExitCode: Option<string>): (r: Result<Option<LogMessage>>)
    ensures exitCode.None? ==> r == Ok(None)
    ensures exitCode.Some? ==> (r.Err? <==> ExitCodeComparator.TryParse(successExitCode).Err?)
    ensures r.Ok? && exitCode.Some? ==> r.value.Some? && r.value.value.text == "Script exit code: " + IntToString(exitCode.value)
    ensures r.Ok? && exitCode.Some? ==>
      var c := ExitCodeComparator.TryParse(successExitCode).value;
      (r.value.value.level == Error <==> c.Some? && !ExitCodeComparator.Evaluate(c.value, exitCode.value)) &&
      (r.value.value.level != Error ==> r.value.value.level == Debug)
  {
    if exitCode.None? then Ok(None)
    else
      match ExitCodeComparator.TryParse(successExitCode)
      case Err(e) => Err(e)
      case Ok(comparator) =>
        if comparator.Some? && !ExitCodeComparator.Evaluate(comparator.value, exitCode.value) then Ok(Some(ExitMessage(Error, exitCode.value)))
        else Ok(Some(ExitMessage(Debug, exitCode.value)))
  }

  /** Without a success code every exit code is logged at debug level. */
  lemma NoSuccessCodeNeverFails(x: int)
    ensures LogExit(Some(x), None) == Ok(Some(ExitMessage(Debug, x)))
  {
  }

  /** A bare number as the success code: the exit code is an error exactly when it differs. */
  lemma BareSuccessCode(digits: string, x: int)
    requires digits != [] && AllDigits(digits) && DigitsValue(digits) <= Int32Max
    ensures LogExit(Some(x), Some(digits)) ==
      Ok(Some(ExitMessage(if x == DigitsValue(digits) then Debug else Error, x)))
  {
    var p := ExitCodeComparator.Parts("", "", "", digits, "");
    ExitCodeComparator.RenderBare("", digits);
    assert "" + digits == digits;
    ExitCodeComparator.TryParseRender(p);
  }

  // ---------------------------------------------------------------------------
  // The job

  /** The `ExecutePowerShellJob` sent to the agent (logging flags fixed: no debug, verbose on). */
  datatype PowerShellJob = PowerShellJob(
    scriptText: string, collectOutput: bool, logOutput: bool,
    variables: seq<(string, RuntimeValue)>, parameters: seq<(string, RuntimeValue)>,
    outVariables: seq<string>, preferWindowsPowerShell: bool)

  /** `ExecutePowerShellJob.Result`, with the messages the job logged while it ran. */
  datatype JobResult = JobResult(
    exitCode: Option<int>, output: seq<RuntimeValue>, outVariables: seq<(string, RuntimeValue)>, messages: seq<LogMessage>)

  /** The loop writing each job out-variable into `outArguments` with the indexer. */
  method WriteBack(outArguments: seq<(string, RuntimeValue)>, oic: bool, vars: seq<(string, RuntimeValue)>)
    returns (outArgs: seq<(string, RuntimeValue)>)
    ensures outArgs == SetAll(oic, outArguments, vars)
  {
    outArgs := outArguments;
    for i := 0 to |vars|
      invariant outArgs == SetAll(oic, outArguments, vars[..i])
    {
      SetAllSnoc(oic, outArguments, vars[..i], vars[i]);
      assert vars[..i + 1] == vars[..i] + [vars[i]];
      outArgs := Set(oic, outArgs, vars[i].0, vars[i].1);
    }
    assert vars[..|vars|] == vars;
  }

  /** After the write-back a key reads as the job's last matching out-variable, or as before when there is none. */
  lemma WrittenBackReads(outArguments: seq<(string, RuntimeValue)>, oic: bool, vars: seq<(string, RuntimeValue)>, k: string)
    ensures (exists j :: 0 <= j < |vars| && KeyEq(oic, vars[j].0, k)) ==>
      Get(oic, SetAll(oic, outArguments, vars), k) == LastMatch(oic, vars, k)
    ensures (forall j :: 0 <= j < |vars| ==> !KeyEq(oic, vars[j].0, k)) ==>
      Get(oic, SetAll(oic, outArguments, vars), k) == Get(oic, outArguments, k)
  {
    SetAllReads(oic, outArguments, vars, k);
    LastMatchFound(oic, vars, k);
  }

  /** `ParseDictionary`: the value alone in a list when it is a map with at least one key, else null. */
  function ParseDictionary(v: RuntimeValue): (r: Option<seq<RuntimeValue>>)
    ensures r.Some? <==> v.Map? && |v.entries| > 0
    ensures r.Some? ==> |r.value| == 1 && r.value[0].Map? && r.value[0].entries == v.entries
  {
    if v.Map? && |v.entries| > 0 then Some([v]) else None
  }

  /** `GetScriptText`'s asset name: ".ps1" is appended unless the name already ends with it, ignoring case. */
  function ScriptAssetName(name: string): (r: string)
    ensures EndsWithIC(r, ".ps1")
    ensures EndsWithIC(name, ".ps1") ==> r == name
    ensures |name| <= |r| && r[..|name|] == name
  {
    if EndsWithIC(name, ".ps1") then name
    else
      var r := name + ".ps1";
      assert r[|name|..] == ".ps1";
      r
  }

  /** Naming an asset is idempotent. */
  lemma ScriptAssetNameIdempotent(name: string)
    ensures ScriptAssetName(ScriptAssetName(name)) == ScriptAssetName(name)
  {
  }

  // ---------------------------------------------------------------------------
  // ExecuteScriptDirectAsync

  /** The groups of a parsed script's configuration directives; none without a parsed script or a list. */
  function ConfigGroups(info: Option<ScriptInfo>): (r: seq<Group>)
    ensures info.None? || info.value.configParameters.None? ==> r == []
    ensures info.Some? && info.value.configParameters.Some? ==>
      |r| == |info.value.configParameters.value| &&
      forall i :: 0 <= i < |r| ==> r[i] == GroupOf(info.value.configParameters.value[i])
  {
    if info.Some? && info.value.configParameters.Some? then
      var cps := info.value.configParameters.value;
      seq(|cps|, i requires 0 <= i < |cps| => GroupOf(cps[i]))
    else []
  }

  /** The job's variables: the undeclared arguments and, when collecting, the `.AHEXECMODE` variable; all arguments for an unparsed script. */
  function JobVariables(info: Option<ScriptInfo>, arguments: seq<(string, RuntimeValue)>, mode: ExecutionMode): seq<(string, RuntimeValue)>
  {
    if info.None? then arguments
    else
      var vs := SetAll(false, [], Undeclared(info.value.parameters, arguments, |arguments|));
      if Collecting(mode) then WithExecMode(false, vs, info.value.executionModeVariableName, mode) else vs
  }

  /** The job's parameters: the declared arguments; none for an unparsed script. */
  function JobParameters(info: Option<ScriptInfo>, arguments: seq<(string, RuntimeValue)>): seq<(string, RuntimeValue)>
  {
    if info.None? then [] else SetAll(false, [], DeclaredEntries(info.value.parameters, arguments, |arguments|))
  }

  /** `outArguments` once a collecting run has declared its referenced names. */
  function DeclaredOutArguments(info: Option<ScriptInfo>, mode: ExecutionMode, outArguments: seq<(string, RuntimeValue)>, oic: bool): seq<(string, RuntimeValue)>
  {
    if info.Some? && Collecting(mode) then Declared(ConfigGroups(info), |ConfigGroups(info)|, outArguments, oic) else outArguments
  }

  /** The warnings of the declaration loop. */
  function DeclarationLog(info: Option<ScriptInfo>, mode: ExecutionMode): seq<LogMessage>
  {
    if info.Some? && Collecting(mode) then
      DuplicateMessages(DuplicateDeclarations(ConfigGroups(info), |ConfigGroups(info)|))
    else []
  }

  /** One warning per skipped group's pair, in order. */
  function DuplicateMessages(dups: seq<string>): (r: seq<LogMessage>)
    ensures |r| == |dups| && forall i :: 0 <= i < |dups| ==> r[i] == DuplicateDeclarationMessage(dups[i])
  {
    seq(|dups|, i requires 0 <= i < |dups| => DuplicateDeclarationMessage(dups[i]))
  }

  function DuplicateDeclarationMessage(key: string): LogMessage
  {
    LogMessage(Warning, "There are duplicate configuration type/key (AHCONFIGKEY, AHCONFIGTYPE) values specified in the script. "
      + "Only the first set (" + key + ") will be used.")
  }

  const MissingExecModeMessage: LogMessage := LogMessage(Error,
    ".AHEXECMODE additional help was not detected. When using PSEnsure to remediate drift, you must specify the name of "
    + "a variable that will capture \"Collect\" or \"Configure\" in the .AHEXECMODE help.")

  /** The job a run sends. */
  function JobFor(scriptText: string, info: Option<ScriptInfo>, arguments: seq<(string, RuntimeValue)>,
                  outArguments: seq<(string, RuntimeValue)>, oic: bool, collectOutput: bool, mode: ExecutionMode,
                  preferWindowsPowerShell: bool): PowerShellJob
  {
    PowerShellJob(scriptText, collectOutput, !collectOutput, JobVariables(info, arguments, mode), JobParameters(info, arguments),
      Keys(DeclaredOutArguments(info, mode, outArguments, oic)), preferWindowsPowerShell)
  }

  /**
   * The returned `ExecuteScriptResult`: the job's exit code and output and,
   * when collecting, the configuration list and the out-variables the
   * reconciliation left (the list shares the job's dictionary).
   */
  function Outcome(r: JobResult, info: Option<ScriptInfo>, mode: ExecutionMode, defaultKey: Option<string>, ric: bool): ExecuteScriptResult
  {
    var groups := ConfigGroups(info);
    if !Collecting(mode) then ExecuteScriptResult(r.exitCode, r.output, r.outVariables, None)
    else if groups == [] then ExecuteScriptResult(r.exitCode, r.output, r.outVariables, Some([DefaultInfo(defaultKey, r.output)]))
    else
      var st := Reconciled(groups, |groups|, defaultKey, FirstOutput(r.output), r.outVariables, ric);
      ExecuteScriptResult(r.exitCode, r.output, st.outVariables, Some(st.infos))
  }

  function Messages(ns: seq<Notice>): (r: seq<LogMessage>)
    ensures |r| == |ns|
  {
    seq(|ns|, i requires 0 <= i < |ns| => Message(ns[i]))
  }

  /** What the reconciliation logs: its warnings, or the debug note that the defaults are used. */
  function ReconciliationLog(r: JobResult, info: Option<ScriptInfo>, mode: ExecutionMode, defaultKey: Option<string>, ric: bool): seq<LogMessage>
  {
    var groups := ConfigGroups(info);
    if !Collecting(mode) then []
    else if groups == [] then [Message(NoGroups)]
    else Messages(Reconciled(groups, |groups|, defaultKey, FirstOutput(r.output), r.outVariables, ric).log)
  }

  /**
   * `ExecuteScriptDirectAsync`, `parse` standing for
   * `PowerShellScriptInfo.TryParse` and `run` for the agent's job executer.
   * `data` is `Err` when the exit-code comparator throws, `Ok(None)` when
   * Configure mode lacks `.AHEXECMODE`. `outArgs` is the caller's
   * `outArguments` afterwards.
   */
  method ExecuteScriptDirect(
    scriptText: string, parse: string -> Option<ScriptInfo>,
    arguments: seq<(string, RuntimeValue)>, outArguments: seq<(string, RuntimeValue)>, oic: bool,
    collectOutput: bool, successExitCode: Option<string>, mode: ExecutionMode,
    fullScriptName: Option<string>, preferWindowsPowerShell: bool,
    run: PowerShellJob -> JobResult, ric: bool)
    returns (data: Result<Option<ExecuteScriptResult>>, outArgs: seq<(string, RuntimeValue)>,
             job: Option<PowerShellJob>, log: seq<LogMessage>)
    ensures var info := parse(scriptText);
      MissingExecMode(info, mode) ==>
        data == Ok(None) && job.None? && outArgs == DeclaredOutArguments(info, mode, outArguments, oic) &&
        log == DeclarationLog(info, mode) + [MissingExecModeMessage]
    ensures var info := parse(scriptText);
      !MissingExecMode(info, mode) ==>
        job == Some(JobFor(scriptText, info, arguments, outArguments, oic, collectOutput, mode, preferWindowsPowerShell))
    ensures var info := parse(scriptText);
      !MissingExecMode(info, mode) ==>
        var r := run(JobFor(scriptText, info, arguments, outArguments, oic, collectOutput, mode, preferWindowsPowerShell));
        var exit := LogExit(r.exitCode, successExitCode);
        (data.Err? <==> exit.Err?) &&
        (exit.Err? ==> outArgs == DeclaredOutArguments(info, mode, outArguments, oic) &&
                       log == DeclarationLog(info, mode) + r.messages) &&
        (exit.Ok? ==> data == Ok(Some(Outcome(r, info, mode, fullScriptName, ric))) &&
                      outArgs == SetAll(oic, DeclaredOutArguments(info, mode, outArguments, oic), r.outVariables) &&
                      log == DeclarationLog(info, mode) + (r.messages + ((if exit.value.Some? then [exit.value.value] else []) +
                             ReconciliationLog(r, info, mode, fullScriptName, ric))))
  {
    var info := parse(scriptText);
    var variables: seq<(string, RuntimeValue)>;
    var parameters: seq<(string, RuntimeValue)> := [];
    outArgs := outArguments;
    log := [];
    if info.Some? {
      var scriptInfo := info.value;
      variables, parameters := BindArguments(scriptInfo.parameters, arguments);
      if Collecting(mode) {
        var groups := ConfigGroups(info);
        var duplicates;
        outArgs, duplicates := DeclareOutputs(groups, outArgs, oic);
        log := DuplicateMessages(duplicates);
        variables := WithExecMode(false, variables, scriptInfo.executionModeVariableName, mode);
      }
    } else {
      variables := arguments;
    }

    if mode == Configure && IsNullOrEmpty(ExecModeName(info)) {
      log := log + [MissingExecModeMessage];
      return Ok(None), outArgs, None, log;
    }

    var j := PowerShellJob(scriptText, collectOutput, !collectOutput, variables, parameters, Keys(outArgs), preferWindowsPowerShell);
    job := Some(j);
    var result := run(j);
    var tail;
    data, outArgs, tail := CompleteRun(result, info, mode, outArgs, oic, successExitCode, fullScriptName, ric);
    log := log + tail;
  }

  /** The part of `ExecuteScriptDirectAsync` after the job has finished: the exit check, the write-back and the reconciliation. */
  method CompleteRun(result: JobResult, info: Option<ScriptInfo>, mode: ExecutionMode,
                     outArguments: seq<(string, RuntimeValue)>, oic: bool, successExitCode: Option<string>,
                     fullScriptName: Option<string>, ric: bool)
    returns (data: Result<Option<ExecuteScriptResult>>, outArgs: seq<(string, RuntimeValue)>, log: seq<LogMessage>)
    ensures var exit := LogExit(result.exitCode, successExitCode);
      (data.Err? <==> exit.Err?) &&
      (exit.Err? ==> outArgs == outArguments && log == result.messages) &&
      (exit.Ok? ==> data == Ok(Some(Outcome(result, info, mode, fullScriptName, ric))) &&
                    outArgs == SetAll(oic, outArguments, result.outVariables) &&
                    log == result.messages + ((if exit.value.Some? then [exit.value.value] else []) +
                           ReconciliationLog(result, info, mode, fullScriptName, ric)))
  {
    outArgs := outArguments;
    var exit := LogExit(result.exitCode, successExitCode);
    if exit.Err? {
      return Err(exit.error), outArgs, result.messages;
    }
    var exitLog: seq<LogMessage> := if exit.value.Some? then [exit.value.value] else [];
    outArgs := WriteBack(outArgs, oic, result.outVariables);

    var outcome, notices := ReportRun(result, info, mode, fullScriptName, ric);
    data := Ok(Some(outcome));
    log := result.messages + (exitLog + notices);
  }

  /** The returned result and, when collecting, the reconciliation and its log. */
  method ReportRun(result: JobResult, info: Option<ScriptInfo>, mode: ExecutionMode, defaultKey: Option<string>, ric: bool)
    returns (outcome: ExecuteScriptResult, log: seq<LogMessage>)
    ensures outcome == Outcome(result, info, mode, defaultKey, ric)
    ensures log == ReconciliationLog(result, info, mode, defaultKey, ric)
  {
    var outVariables := result.outVariables;
    var configuration: Option<seq<ConfigurationInfo>> := None;
    log := [];
    if Collecting(mode) {
      var configInfos, ns;
      configInfos, outVariables, ns := ConfigurationList(ConfigGroups(info), defaultKey, result.output, result.outVariables, ric);
      configuration := Some(configInfos);
      log := Messages(ns);
    }
    outcome := ExecuteScriptResult(result.exitCode, result.output, outVariables, configuration);
  }

  /**
   * `ExecuteScriptAssetAsync`: the script text is the raft asset named
   * `ScriptAssetName(fullScriptName)` (`raft` standing for the lookup); a
   * missing asset logs an error and returns null; otherwise the direct run,
   * whose configuration key defaults to the name as given.
   */
  method ExecuteScriptAsset(
    fullScriptName: string, raft: string -> Option<string>, parse: string -> Option<ScriptInfo>,
    arguments: seq<(string, RuntimeValue)>, outArguments: seq<(string, RuntimeValue)>, oic: bool,
    collectOutput: bool, successExitCode: Option<string>, mode: ExecutionMode,
    run: PowerShellJob -> JobResult, ric: bool)
    returns (data: Result<Option<ExecuteScriptResult>>, outArgs: seq<(string, RuntimeValue)>,
             job: Option<PowerShellJob>, log: seq<LogMessage>)
    ensures raft(ScriptAssetName(fullScriptName)).None? ==>
      data == Ok(None) && outArgs == outArguments && job.None? &&
      log == [LogMessage(Error, "Script " + ScriptAssetName(fullScriptName) + " not found.")]
    ensures raft(ScriptAssetName(fullScriptName)).Some? ==>
      var text := raft(ScriptAssetName(fullScriptName)).value;
      !MissingExecMode(parse(text), mode) ==>
        job == Some(JobFor(text, parse(text), arguments, outArguments, oic, collectOutput, mode, true)) &&
        (data.Ok? ==> data == Ok(Some(Outcome(run(job.value), parse(text), mode, Some(fullScriptName), ric))))
  {
    var scriptName := ScriptAssetName(fullScriptName);
    var scriptText := raft(scriptName);
    if scriptText.None? {
      return Ok(None), outArguments, None, [LogMessage(Error, "Script " + scriptName + " not found.")];
    }
    data, outArgs, job, log := ExecuteScriptDirect(scriptText.value, parse, arguments, outArguments, oic,
      collectOutput, successExitCode, mode, Some(fullScriptName), true, run, ric);
  }

  /**
   * `ExecuteScriptAsync`: an asset name or the script text itself, run in
   * Normal mode; text run directly has no name to key configuration on.
   */
  method ExecuteScript(
    scriptNameOrContent: string, scriptIsAsset: bool, raft: string -> Option<string>, parse: string -> Option<ScriptInfo>,
    arguments: seq<(string, RuntimeValue)>, outArguments: seq<(string, RuntimeValue)>, oic: bool,
    collectOutput: bool, successExitCode: Option<string>, run: PowerShellJob -> JobResult, ric: bool)
    returns (data: Result<Option<ExecuteScriptResult>>, outArgs: seq<(string, RuntimeValue)>,
             job: Option<PowerShellJob>, log: seq<LogMessage>)
    ensures !scriptIsAsset ==>
      job == Some(JobFor(scriptNameOrContent, parse(scriptNameOrContent), arguments, outArguments, oic, collectOutput, Normal, true)) &&
      outArgs == (if data.Ok? then SetAll(oic, outArguments, run(job.value).outVariables) else outArguments) &&
      (data.Ok? ==> data == Ok(Some(ExecuteScriptResult(run(job.value).exitCode, run(job.value).output, run(job.value).outVariables, None))))
    ensures scriptIsAsset && raft(ScriptAssetName(scriptNameOrContent)).None? ==> data == Ok(None) && job.None?
  {
    if scriptIsAsset {
      data, outArgs, job, log := ExecuteScriptAsset(scriptNameOrContent, raft, parse, arguments, outArguments, oic,
        collectOutput, successExitCode, Normal, run, ric);
    } else {
      data, outArgs, job, log := ExecuteScriptDirect(scriptNameOrContent, parse, arguments, outArguments, oic,
        collectOutput, successExitCode, Normal, None, true, run, ric);
    }
  }

  /**
   * A collecting run records configuration items with pairwise distinct
   * type/key pairs, ignoring case, and at least one.
   */
  lemma OutcomeConfiguration(r: JobResult, info: Option<ScriptInfo>, mode: ExecutionMode, defaultKey: Option<string>, ric: bool)
    ensures Outcome(r, info, mode, defaultKey, ric).configuration.Some? <==> Collecting(mode)
    ensures Collecting(mode) ==>
      var items := Outcome(r, info, mode, defaultKey, ric).configuration.value;
      |items| > 0 && forall a, b :: 0 <= a < b < |items| ==> !EqIC(InfoKey(items[a]), InfoKey(items[b]))
    ensures Collecting(mode) && ConfigGroups(info) == [] ==>
      Outcome(r, info, mode, defaultKey, ric).configuration == Some([DefaultInfo(defaultKey, r.output)])
  {
    var groups := ConfigGroups(info);
    if Collecting(mode) && groups != [] {
      ReconciledKeysDistinct(groups, defaultKey, r.output, r.outVariables, ric);
      FirstGroupRecorded(groups, defaultKey, r.output, r.outVariables, ric);
    }
  }
}
