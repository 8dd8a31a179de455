/**
 * `PsModuleConfiguration`: the desired state of one PowerShell module on a
 * server, how it is compared with the state collected from the server, the
 * `Install-Module` / `Uninstall-Module` command that brings the server to it,
 * and how the installed module's state is collected.
 *
 * The agent's job runner is not part of this model: the job the
 * configuration sends is an output, and what the job returned is an input.
 */
module PsModule {
  import opened Common
  import opened RuntimeValues
  import opened ScriptPersistedConfiguration
  import PSVersions
  import PSUtil

  // ---------------------------------------------------------------------------
  // Helpers shared by comparison, configuration and collection

  /** `bool.ToString()`: the text a boolean `Difference` value shows. */
  function BoolText(b: bool): string
  {
    if b then "True" else "False"
  }

  /** `new ComparisonResult(differences)`: identical exactly when there are none. */
  function ResultOf(differences: seq<Difference>): ComparisonResult
  {
    if differences == [] then Identical else Differs(differences)
  }

  /**
   * `PowerShellVersion.Parse` of a version that may be null. A null text
   * parses to an invalid version exactly like "" does; the comparisons below
   * only ever set it against a non-blank text, where the two agree.
   */
  function ParseVersion(s: Option<string>): Result<PSVersions.PSVersion>
  {
    PSVersions.Parse(s.GetOr(""))
  }

  /** `new Dictionary<string, RuntimeValue>(entries, StringComparer.OrdinalIgnoreCase)`: `Add` of each entry in turn. */
  function CopyIC(es: seq<(string, RuntimeValue)>): Result<seq<(string, RuntimeValue)>>
    decreases |es|
  {
    if es == [] then Ok([])
    else
      match CopyIC(es[..|es| - 1])
      case Err(e) => Err(e)
      case Ok(d) => Add(true, d, es[|es| - 1].0, es[|es| - 1].1)
  }

  /** The copy fails exactly when two keys are equal ignoring case; otherwise it keeps every entry in order. */
  lemma {:induction false} CopyICIff(es: seq<(string, RuntimeValue)>)
    ensures CopyIC(es).Ok? <==> UniqueKeys(true, es)
    ensures CopyIC(es).Ok? ==> CopyIC(es).value == es
    ensures CopyIC(es).Err? ==> CopyIC(es).error == "ArgumentException"
    decreases |es|
  {
    if es != [] {
      var init := es[..|es| - 1];
      CopyICIff(init);
      UniqueKeysSnoc(true, init, es[|es| - 1]);
      assert init + [es[|es| - 1]] == es;
      if !UniqueKeys(true, init) {
        assert !UniqueKeys(true, es);
      }
    }
  }

  /** The `ExecutePowerShellJob` the configuration sends to the agent. */
  datatype ModuleJob = ModuleJob(
    scriptText: string, variables: seq<(string, RuntimeValue)>, outVariables: seq<string>,
    collectOutput: bool, logOutput: bool, verboseLogging: bool, debugLogging: bool)

  // ---------------------------------------------------------------------------
  // The configure command

  /** The command texts and the switches `ConfigureAsync` may append to the command. */
  const InstallCommand: string := "Install-Module -Name $Name"
  const UninstallCommand: string := "Uninstall-Module -Name $Name"
  const RequiredVersionSwitch: string := " -RequiredVersion $Version"
  const MinimumVersionSwitch: string := " -MinimumVersion $MinimumVersion"
  const ForceSwitch: string := " -Force"
  const AllVersionsSwitch: string := " -AllVersions"
  const AllowPrereleaseSwitch: string := " -AllowPrerelease"
  const AllowClobberSwitch: string := " -AllowClobber"
  const AcceptLicenseSwitch: string := " -AcceptLicense"
  const ScopeSwitch: string := " -Scope $Scope"
  const RepositorySwitch: string := " -Repository $Repository"
  const VerboseSwitch: string := " -Verbose"

  /** The switches in the order `ConfigureAsync` tests them. */
  const Switches: seq<string> := [
    RequiredVersionSwitch, MinimumVersionSwitch, ForceSwitch, AllVersionsSwitch,
    AllowPrereleaseSwitch, AllowClobberSwitch, AcceptLicenseSwitch, ScopeSwitch,
    RepositorySwitch, VerboseSwitch]

  /** The switches that only mean something to `Install-Module`. */
  predicate InstallOnly(i: nat)
  {
    4 <= i <= 8
  }

  /** The text appended for the extra parameters: ` -Key $Key` for each key in order. */
  function ParameterSwitches(ps: seq<(string, RuntimeValue)>): string
    decreases |ps|
  {
    if ps == [] then ""
    else
      var k := ps[|ps| - 1].0;
      ParameterSwitches(ps[..|ps| - 1]) + " -" + k + " $" + k
  }

  /** The script and variables after the extra parameters are added to `command` and `vars`, or the exception `Add` throws. */
  function WithParameters(command: string, vars: seq<(string, RuntimeValue)>, ps: seq<(string, RuntimeValue)>)
    : Result<(string, seq<(string, RuntimeValue)>)>
  {
    match ParameterVariables(vars, ps)
    case Err(e) => Err(e)
    case Ok(v) => Ok((command + ParameterSwitches(ps), v))
  }

  /** The job variables after `Add("$Key", value)` of each extra parameter in turn; a second `$Key` throws. */
  function ParameterVariables(vars: seq<(string, RuntimeValue)>, ps: seq<(string, RuntimeValue)>): Result<seq<(string, RuntimeValue)>>
    decreases |ps|
  {
    if ps == [] then Ok(vars)
    else
      match ParameterVariables(vars, ps[..|ps| - 1])
      case Err(e) => Err(e)
      case Ok(d) => Add(true, d, "$" + ps[|ps| - 1].0, ps[|ps| - 1].1)
  }

  /** Once an `Add` throws, the remaining parameters are never added. */
  lemma {:induction false} ParameterVariablesStaysErr(vars: seq<(string, RuntimeValue)>, ps: seq<(string, RuntimeValue)>, n: nat)
    requires n <= |ps| && ParameterVariables(vars, ps[..n]).Err?
    ensures ParameterVariables(vars, ps) == ParameterVariables(vars, ps[..n])
    decreases |ps| - n
  {
    if n < |ps| {
      assert ps[..n + 1][..n] == ps[..n];
      ParameterVariablesStaysErr(vars, ps, n + 1);
    } else {
      assert ps[..n] == ps;
    }
  }

  /** The variables each extra parameter becomes: its key behind a "$". */
  function Dollared(ps: seq<(string, RuntimeValue)>): (r: seq<(string, RuntimeValue)>)
    ensures |r| == |ps|
    ensures forall i :: 0 <= i < |ps| ==> r[i] == ("$" + ps[i].0, ps[i].1)
  {
    seq(|ps|, i requires 0 <= i < |ps| => ("$" + ps[i].0, ps[i].1))
  }

  /** A "$" in front keeps two names equal ignoring case exactly when they were. */
  lemma DollarEqIC(a: string, b: string)
    ensures EqIC("$" + a, "$" + b) <==> EqIC(a, b)
  {
    var x, y := UpperStr("$" + a), UpperStr("$" + b);
    if EqIC(a, b) {
      assert |x| == |y|;
      forall i | 0 <= i < |x| ensures x[i] == y[i] {
        if i > 0 {
          assert ("$" + a)[i] == a[i - 1] && ("$" + b)[i] == b[i - 1];
          assert UpperStr(a)[i - 1] == UpperStr(b)[i - 1];
        }
      }
    }
    if EqIC("$" + a, "$" + b) {
      assert |UpperStr(a)| == |UpperStr(b)|;
      forall i | 0 <= i < |a| ensures UpperStr(a)[i] == UpperStr(b)[i] {
        assert ("$" + a)[i + 1] == a[i] && ("$" + b)[i + 1] == b[i];
        assert x[i + 1] == y[i + 1];
      }
    }
  }

  /** No name that starts with something other than "$" is equal to a "$" name ignoring case. */
  lemma NoDollarNoClash(name: string, k: string)
    requires name != [] && name[0] != '$'
    ensures !EqIC(name, "$" + k)
  {
  }

  /**
   * Adding the extra parameters never throws when their keys are distinct
   * ignoring case and no existing variable starts with "$": each becomes its
   * own "$Key" variable after the existing ones.
   */
  lemma {:induction false} ParameterVariablesAdded(vars: seq<(string, RuntimeValue)>, ps: seq<(string, RuntimeValue)>)
    requires UniqueKeys(true, ps)
    requires forall i :: 0 <= i < |vars| ==> vars[i].0 != [] && vars[i].0[0] != '$'
    ensures ParameterVariables(vars, ps) == Ok(vars + Dollared(ps))
    decreases |ps|
  {
    if ps != [] {
      var init := ps[..|ps| - 1];
      var last := ps[|ps| - 1];
      assert init + [last] == ps;
      UniqueKeysPrefix(true, init, [last]);
      ParameterVariablesAdded(vars, init);
      DollarFresh(vars, ps);
      assert ParameterVariables(vars, ps) == Add(true, vars + Dollared(init), "$" + last.0, last.1);
      assert vars + Dollared(init) + [("$" + last.0, last.1)] == vars + Dollared(ps);
    } else {
      assert vars + Dollared(ps) == vars;
    }
  }

  /** The last parameter's "$Key" clashes neither with an existing variable nor with an earlier parameter's. */
  lemma DollarFresh(vars: seq<(string, RuntimeValue)>, ps: seq<(string, RuntimeValue)>)
    requires ps != [] && UniqueKeys(true, ps)
    requires forall i :: 0 <= i < |vars| ==> vars[i].0 != [] && vars[i].0[0] != '$'
    ensures !HasKey(true, vars + Dollared(ps[..|ps| - 1]), "$" + ps[|ps| - 1].0)
  {
    var init, last := ps[..|ps| - 1], ps[|ps| - 1];
    var d := vars + Dollared(init);
    forall j | 0 <= j < |d| ensures !KeyEq(true, d[j].0, "$" + last.0) {
      if j < |vars| {
        assert d[j] == vars[j];
        NoDollarNoClash(vars[j].0, last.0);
      } else {
        var m := j - |vars|;
        assert d[j] == Dollared(init)[m];
        assert ps[m] == init[m];
        assert !KeyEq(true, ps[m].0, ps[|ps| - 1].0);
        DollarApart(init[m].0, last.0, d[j].0);
      }
    }
  }

  /** Names apart ignoring case stay apart once both get a "$". */
  lemma DollarApart(a: string, b: string, key: string)
    requires key == "$" + a && !EqIC(a, b)
    ensures !EqIC(key, "$" + b)
  {
    DollarEqIC(a, b);
  }

  /** The `MessageLogged` handler of the configure job: every message is relayed, and two known failures add an explanation. */
  function ConfigureMessage(m: LogMessage): (r: seq<LogMessage>)
    ensures |r| >= 1 && r[0] == m
    ensures |r| == 2 <==> Contains(m.text, "Untrusted repository") || Contains(m.text, "Are you sure you want to perform this action?")
    ensures |r| <= 2
    ensures |r| == 2 ==> r[1].level == Error
    ensures Contains(m.text, "Untrusted repository") ==> r[1..] == [UntrustedRepositoryError]
  {
    if Contains(m.text, "Untrusted repository") then [m, UntrustedRepositoryError]
    else if Contains(m.text, "Are you sure you want to perform this action?") then [m, ConfirmationError]
    else [m]
  }

  const UntrustedRepositoryError: LogMessage := LogMessage(Error,
    "Repository is untrusted.  Set the repository to Trusted using \"Set-PSRepository\" or use the \"Force\" parameter.")

  const ConfirmationError: LogMessage := LogMessage(Error,
    "This command requires a confirmation, please try using the \"Force\" parameter.")

  // ---------------------------------------------------------------------------
  // Collection

  /** What `parseModule` keeps of one listed module. */
  datatype Listed = Listed(name: string, version: string)

  /** The listed modules: the items of a vector, else a non-empty map alone, else nothing. */
  function ListedValues(results: RuntimeValue): (r: seq<RuntimeValue>)
    ensures results.Vector? ==> r == results.items
    ensures results.Map? && results.entries != [] ==> r == [results]
    ensures results.Scalar? || results == Map([]) ==> r == []
  {
    if results.Vector? then results.items
    else
      match PSUtil.ParseDictionary(results)
      case Some(vs) => vs
      case None => []
  }

  /**
   * `parseModule`: a map with a non-blank `Name` becomes a module; its
   * `Version` is the scalar text, or "" when missing or not a scalar. `mic`
   * is the comparer of the host's map values.
   */
  function ParseModule(v: RuntimeValue, mic: bool): (r: Option<Listed>)
    ensures r.Some? <==> v.Map? && HasKey(mic, v.entries, "Name") && !IsNullOrWhiteSpace(AsString(Get(mic, v.entries, "Name").value))
    ensures r.Some? ==> Some(r.value.name) == AsString(Get(mic, v.entries, "Name").value)
    ensures r.Some? ==> r.value.version == ScalarText(Get(mic, v.entries, "Version").GetOr(Default))
  {
    if !v.Map? then None
    else
      match Get(mic, v.entries, "Name")
      case None => None
      case Some(name) =>
        if IsNullOrWhiteSpace(AsString(name)) then None
        else Some(Listed(AsString(name).value, ScalarText(Get(mic, v.entries, "Version").GetOr(Default))))
  }

  /** The filter: any module when the template has no version, else one whose version text is ordinally equal. */
  predicate Wanted(templateVersion: Option<string>, m: Listed)
  {
    IsNullOrEmpty(templateVersion) || templateVersion.value == m.version
  }

  /** `Select(parseModule)`. */
  function ParsedModules(vs: seq<RuntimeValue>, mic: bool): (r: seq<Option<Listed>>)
    ensures |r| == |vs|
    ensures forall i :: 0 <= i < |vs| ==> r[i] == ParseModule(vs[i], mic)
  {
    seq(|vs|, i requires 0 <= i < |vs| => ParseModule(vs[i], mic))
  }

  /** A parsed entry that passes the `Where` filter. */
  predicate Hit(templateVersion: Option<string>, m: Option<Listed>)
  {
    m.Some? && Wanted(templateVersion, m.value)
  }

  /** `Where(...).FirstOrDefault()` over the parsed modules. */
  function FirstWanted(templateVersion: Option<string>, ms: seq<Option<Listed>>): Option<Listed>
    decreases |ms|
  {
    if ms == [] then None
    else if Hit(templateVersion, ms[0]) then ms[0]
    else FirstWanted(templateVersion, ms[1..])
  }

  /** A module is found exactly when one passes the filter, and it is the first that does. */
  lemma {:induction false} FirstWantedIsFirst(templateVersion: Option<string>, ms: seq<Option<Listed>>)
    ensures FirstWanted(templateVersion, ms).Some? <==> exists i :: 0 <= i < |ms| && Hit(templateVersion, ms[i])
    ensures FirstWanted(templateVersion, ms).Some? ==>
      exists i :: 0 <= i < |ms| && Hit(templateVersion, ms[i]) && ms[i] == FirstWanted(templateVersion, ms) &&
        forall j :: 0 <= j < i ==> !Hit(templateVersion, ms[j])
    decreases |ms|
  {
    if ms != [] && !Hit(templateVersion, ms[0]) {
      var tail := ms[1..];
      FirstWantedIsFirst(templateVersion, tail);
      if exists i :: 0 <= i < |ms| && Hit(templateVersion, ms[i]) {
        var i :| 0 <= i < |ms| && Hit(templateVersion, ms[i]);
        assert tail[i - 1] == ms[i];
      }
      if FirstWanted(templateVersion, tail).Some? {
        var i :| 0 <= i < |tail| && Hit(templateVersion, tail[i]) && tail[i] == FirstWanted(templateVersion, tail) &&
          forall j :: 0 <= j < i ==> !Hit(templateVersion, tail[j]);
        assert forall j :: 1 <= j <= i ==> ms[j] == tail[j - 1];
        assert ms[i + 1] == tail[i];
      }
    }
  }

  /** When the template names a version, a listed module of that version is always found, and what is found has it. */
  lemma PinnedVersionFound(templateVersion: string, vs: seq<RuntimeValue>, mic: bool, i: nat)
    requires i < |vs| && templateVersion != ""
    requires ParseModule(vs[i], mic).Some? && ParseModule(vs[i], mic).value.version == templateVersion
    ensures FirstWanted(Some(templateVersion), ParsedModules(vs, mic)).Some?
    ensures FirstWanted(Some(templateVersion), ParsedModules(vs, mic)).value.version == templateVersion
  {
    var ms := ParsedModules(vs, mic);
    FirstWantedIsFirst(Some(templateVersion), ms);
    assert Hit(Some(templateVersion), ms[i]);
    var k :| 0 <= k < |ms| && Hit(Some(templateVersion), ms[k]) && ms[k] == FirstWanted(Some(templateVersion), ms) &&
      forall j :: 0 <= j < k ==> !Hit(Some(templateVersion), ms[j]);
  }

  /** The `MessageLogged` handler of the collect job: "no match" messages are demoted to debug. */
  function CollectMessage(m: LogMessage): (r: LogMessage)
    ensures r.text == m.text
    ensures r.level == (if Contains(m.text, "No match was found for the specified") then Debug else m.level)
  {
    if Contains(m.text, "No match was found for the specified") then LogMessage(Debug, m.text) else m
  }

  // ---------------------------------------------------------------------------
  // The persisted properties and what is computed from them

  /** The persisted properties of a module configuration, other than `Parameters`. */
  datatype ModuleSettings = ModuleSettings(
    moduleName: Option<string>, version: Option<string>, minimumVersion: Option<string>,
    force: bool, repository: Option<string>, scope: Option<string>, present: bool,
    allowClobber: bool, allowPrerelease: bool, acceptLicense: bool, allVersions: bool,
    verbose: bool, debugLogging: bool)

  /** The property defaults: the module is to be present, every switch is off. */
  const DefaultSettings: ModuleSettings :=
    ModuleSettings(None, None, None, false, None, None, true, false, false, false, false, false, false)

  /** The `Exists` difference. */
  function ExistsDifference(t: ModuleSettings, a: ModuleSettings): Difference
  {
    Difference(Some("Exists"), Some(BoolText(t.present)), Some(BoolText(a.present)))
  }

  /** The `Version` difference. */
  function VersionDifference(t: ModuleSettings, a: ModuleSettings): Difference
  {
    Difference(Some("Version"), t.version, a.version)
  }

  /** The `MinimumVersion` difference. */
  function MinimumDifference(t: ModuleSettings, a: ModuleSettings): Difference
  {
    Difference(Some("MinimumVersion"), t.minimumVersion, a.version)
  }

  /** Whether the exact version is checked: a version without a minimum. */
  predicate Pinned(t: ModuleSettings)
  {
    IsNullOrWhiteSpace(t.minimumVersion) && !IsNullOrWhiteSpace(t.version)
  }

  /** `Parse(Version) != Parse(actual Version)` when pinned, with the exception `Parse` may throw; false otherwise. */
  function VersionDrift(t: ModuleSettings, a: ModuleSettings): Result<bool>
  {
    if !Pinned(t) then Ok(false)
    else
      match ParseVersion(t.version)
      case Err(e) => Err(e)
      case Ok(expected) =>
        match ParseVersion(a.version)
        case Err(e) => Err(e)
        case Ok(actual) => Ok(!PSVersions.Equals(Some(expected), Some(actual)))
  }

  /** `Parse(actual Version) < Parse(MinimumVersion)` when a minimum is set; false otherwise. */
  function MinimumDrift(t: ModuleSettings, a: ModuleSettings): Result<bool>
  {
    if IsNullOrWhiteSpace(t.minimumVersion) then Ok(false)
    else
      match ParseVersion(a.version)
      case Err(e) => Err(e)
      case Ok(actual) =>
        match ParseVersion(t.minimumVersion)
        case Err(e) => Err(e)
        case Ok(minimum) => Ok(PSVersions.Less(Some(actual), Some(minimum)))
  }

  /**
   * The differences `CompareAsync` reports between the template `t` and the
   * collected `other`, or its exception. `other` is `None` when the
   * configuration compared with is not a module configuration.
   */
  function Comparison(t: ModuleSettings, other: Option<ModuleSettings>): Result<seq<Difference>>
  {
    if other.None? then Err("ArgumentException")
    else
      var a := other.value;
      if !t.present || !a.present then
        Ok(if t.present || a.present then [ExistsDifference(t, a)] else [])
      else
        match VersionDrift(t, a)
        case Err(e) => Err(e)
        case Ok(versionDrift) =>
          match MinimumDrift(t, a)
          case Err(e) => Err(e)
          case Ok(minimumDrift) =>
            Ok((if versionDrift then [VersionDifference(t, a)] else []) +
               (if minimumDrift then [MinimumDifference(t, a)] else []))
  }

  /** Whether switch `i` of `Switches` is appended for template `t`. */
  predicate SwitchOn(t: ModuleSettings, i: nat)
  {
    match i
    case 0 => !IsNullOrWhiteSpace(t.version) && IsNullOrWhiteSpace(t.minimumVersion)
    case 1 => !IsNullOrWhiteSpace(t.minimumVersion)
    case 2 => t.force
    case 3 => t.allVersions && !t.present
    case 4 => t.allowPrerelease && t.present
    case 5 => t.allowClobber && t.present
    case 6 => t.acceptLicense && t.present
    case 7 => !IsNullOrWhiteSpace(t.scope) && t.present
    case 8 => !IsNullOrWhiteSpace(t.repository) && t.present
    case 9 => t.verbose
    case _ => false
  }

  /** The switches among the first `n` of `Switches` that are on, in their fixed order. */
  function SwitchesOn(t: ModuleSettings, n: nat): seq<string>
    requires n <= |Switches|
  {
    if n == 0 then []
    else SwitchesOn(t, n - 1) + (if SwitchOn(t, n - 1) then [Switches[n - 1]] else [])
  }

  /** The command the configure script starts with. */
  function Command(t: ModuleSettings): string
  {
    if t.present then InstallCommand else UninstallCommand
  }

  /** `s += text` when `on` holds, else `s` unchanged. */
  function AppendIf(s: string, on: bool, text: string): string
  {
    if on then s + text else s
  }

  /** Test `i` of `ConfigureAsync` applied to the command built so far. */
  function SwitchStep(s: string, t: ModuleSettings, i: nat): string
    requires i < |Switches|
  {
    AppendIf(s, SwitchOn(t, i), Switches[i])
  }

  /** The configure command after the first five tests, those on the versions, forcing and prereleases. */
  function CommandHead(t: ModuleSettings): string
  {
    var s0 := AppendIf(Command(t), !IsNullOrWhiteSpace(t.version) && IsNullOrWhiteSpace(t.minimumVersion), RequiredVersionSwitch);
    var s1 := AppendIf(s0, !IsNullOrWhiteSpace(t.minimumVersion), MinimumVersionSwitch);
    var s2 := AppendIf(s1, t.force, ForceSwitch);
    var s3 := AppendIf(s2, t.allVersions && !t.present, AllVersionsSwitch);
    AppendIf(s3, t.allowPrerelease && t.present, AllowPrereleaseSwitch)
  }

  /** The configure command: the starting command, then the ten tests in their fixed order. */
  function ConfigureCommand(t: ModuleSettings): string
  {
    var s5 := AppendIf(CommandHead(t), t.allowClobber && t.present, AllowClobberSwitch);
    var s6 := AppendIf(s5, t.acceptLicense && t.present, AcceptLicenseSwitch);
    var s7 := AppendIf(s6, !IsNullOrWhiteSpace(t.scope) && t.present, ScopeSwitch);
    var s8 := AppendIf(s7, !IsNullOrWhiteSpace(t.repository) && t.present, RepositorySwitch);
    AppendIf(s8, t.verbose, VerboseSwitch)
  }

  /** The configure job's variables before the extra parameters. */
  function BaseVariables(t: ModuleSettings): seq<(string, RuntimeValue)>
  {
    [("Name", Scalar(t.moduleName)), ("Version", Scalar(t.version)), ("MinimumVersion", Scalar(t.minimumVersion)),
     ("Scope", Scalar(t.scope)), ("Repository", Scalar(t.repository))]
  }

  /** The job `ConfigureAsync` sends for template `t` with the extra parameters `parameters`, or the exception it throws. */
  function ConfigureJob(t: ModuleSettings, parameters: Result<seq<(string, RuntimeValue)>>): Result<ModuleJob>
  {
    match parameters
    case Err(e) => Err(e)
    case Ok(ps) =>
      match WithParameters(ConfigureCommand(t), BaseVariables(t), ps)
      case Err(e) => Err(e)
      case Ok(built) => Ok(ModuleJob(built.0, built.1, [], true, t.verbose, t.verbose, t.debugLogging))
  }


  /** The collect job: list the installed modules of the template's name into `$results`. */
  function CollectJob(t: ModuleSettings): ModuleJob
  {
    ModuleJob("$results = Get-Module -ListAvailable -Name $Name" + (if t.verbose then " -Verbose" else ""),
      [("Name", Scalar(t.moduleName))], ["results"], true, t.verbose, t.verbose, t.debugLogging)
  }

  /** The module `CollectAsync` reports, if any; `results` is the job's `$results`, or the exception reading it threw. */
  function Collected(t: ModuleSettings, results: Result<RuntimeValue>, mic: bool): Option<Listed>
  {
    if results.Err? then None else FirstWanted(t.version, ParsedModules(ListedValues(results.value), mic))
  }

  /** The settings `CollectAsync` reports: the module found, else the template's name as not present. */
  function CollectedSettings(t: ModuleSettings, results: Result<RuntimeValue>, mic: bool): ModuleSettings
  {
    match Collected(t, results, mic)
    case Some(m) => DefaultSettings.(moduleName := Some(m.name), version := Some(m.version))
    case None => DefaultSettings.(moduleName := t.moduleName, present := false)
  }

  // ---------------------------------------------------------------------------
  // The configuration object

  class PsModuleConfiguration {
    var settings: ModuleSettings
    var dictionary: Option<seq<(string, RuntimeValue)>>

    /** What the `Parameters` setter keeps: nothing, or a non-empty dictionary whose keys differ ignoring case. */
    predicate Valid()
      reads this
    {
      dictionary.Some? ==> dictionary.value != [] && UniqueKeys(true, dictionary.value)
    }

    /**
     * The parameterless constructor: every property at its default. The
     * body's copy reads the field before anything is assigned to it, so it
     * never copies anything.
     */
    constructor()
      ensures Valid()
      ensures settings == DefaultSettings && dictionary.None?
    {
      settings := DefaultSettings;
      dictionary := None;
    }

    /** The `Parameters` getter: a case-insensitive copy of the stored dictionary, or an empty dictionary. */
    function Parameters(): Result<seq<(string, RuntimeValue)>>
      reads this
    {
      CopyIC(dictionary.GetOr([]))
    }

    /** The `Parameters` setter: null or empty stores nothing; anything else is copied, which throws on keys equal ignoring case. */
    method SetParameters(value: Option<seq<(string, RuntimeValue)>>) returns (r: Result<()>)
      modifies this`dictionary
      ensures value.None? || value.value == [] ==> r.Ok? && dictionary.None?
      ensures value.Some? && value.value != [] ==> (r.Ok? <==> UniqueKeys(true, value.value))
      ensures r.Ok? ==> Valid() && Parameters() == Ok(value.GetOr([]))
      ensures r.Err? ==> r.error == "ArgumentException" && dictionary == old(dictionary)
    {
      if value.None? || value.value == [] {
        dictionary := None;
        return Ok(());
      }
      CopyICIff(value.value);
      var copy := CopyIC(value.value);
      if copy.Err? {
        return Err(copy.error);
      }
      dictionary := Some(copy.value);
      CopyICIff(dictionary.value);
      return Ok(());
    }

    /** Reading the parameters of a valid configuration never throws and yields exactly what is stored. */
    lemma ParametersCopy()
      requires Valid()
      ensures Parameters() == Ok(dictionary.GetOr([]))
      ensures Parameters().value == [] <==> dictionary.None?
      ensures UniqueKeys(true, Parameters().value)
    {
      CopyICIff(dictionary.GetOr([]));
    }

    /** `CompareAsync`, appending each difference to a list as it is found; `other` is null when it is not a module configuration. */
    method CompareAsync(other: PsModuleConfiguration?) returns (r: Result<ComparisonResult>)
      ensures other == null ==> r == Err("ArgumentException")
      ensures other != null && Comparison(settings, Some(other.settings)).Err? ==> r == Err(Comparison(settings, Some(other.settings)).error)
      ensures other != null && Comparison(settings, Some(other.settings)).Ok? ==> r == Ok(ResultOf(Comparison(settings, Some(other.settings)).value))
    {
      if other == null {
        return Err("ArgumentException");
      }
      var t, a := settings, other.settings;
      r := CompareSettings(t, a);
    }

    /** `ConfigureAsync`: a simulation only logs; otherwise the job is built and its script logged. */
    method ConfigureAsync(simulation: bool) returns (job: Result<Option<ModuleJob>>, log: seq<LogMessage>)
      ensures simulation ==> job == Ok(None) && log == [LogMessage(Information, "Importing Module...")]
      ensures !simulation && ConfigureJob(settings, Parameters()).Err? ==> job == Err(ConfigureJob(settings, Parameters()).error) && log == []
      ensures !simulation && ConfigureJob(settings, Parameters()).Ok? ==>
        job == Ok(Some(ConfigureJob(settings, Parameters()).value)) && log == [LogMessage(Debug, ConfigureJob(settings, Parameters()).value.scriptText)]
    {
      if simulation {
        return Ok(None), [LogMessage(Information, "Importing Module...")];
      }
      var t := settings;
      var scriptText := SwitchedCommand(t);
      var ps := Parameters();
      if ps.Err? {
        return Err(ps.error), [];
      }
      var built := AddParameters(scriptText, BaseVariables(t), ps.value);
      if built.Err? {
        return Err(built.error), [];
      }
      var configured := ModuleJob(built.value.0, built.value.1, [], true, t.verbose, t.verbose, t.debugLogging);
      return Ok(Some(configured)), [LogMessage(Debug, configured.scriptText)];
    }

    /**
     * `CollectAsync`: a new configuration for the first listed module that
     * parses and has the template's version, else one that is not present;
     * an exception is logged and also reported as not present.
     */
    method CollectAsync(results: Result<RuntimeValue>, mic: bool) returns (job: ModuleJob, c: PsModuleConfiguration, log: seq<LogMessage>)
      ensures job == CollectJob(settings)
      ensures fresh(c) && c.Valid() && c.dictionary.None?
      ensures c.settings == CollectedSettings(settings, results, mic)
      ensures results.Ok? ==> log == [LogMessage(Debug, job.scriptText)]
      ensures results.Err? ==> log == [LogMessage(Debug, job.scriptText), LogMessage(Error, results.error)]
    {
      var t := settings;
      job := CollectJob(t);
      log := [LogMessage(Debug, job.scriptText)];
      c := new PsModuleConfiguration();
      if results.Err? {
        log := log + [LogMessage(Error, results.error)];
        c.settings := DefaultSettings.(moduleName := t.moduleName, present := false);
        return;
      }
      var found := FirstWanted(t.version, ParsedModules(ListedValues(results.value), mic));
      if found.Some? {
        c.settings := DefaultSettings.(moduleName := Some(found.value.name), version := Some(found.value.version));
      } else {
        c.settings := DefaultSettings.(moduleName := t.moduleName, present := false);
      }
    }
  }

  // ---------------------------------------------------------------------------
  // The imperative steps

  /** The body of `CompareAsync` once `other` is known to be a module configuration. */
  method CompareSettings(t: ModuleSettings, a: ModuleSettings) returns (r: Result<ComparisonResult>)
    ensures Comparison(t, Some(a)).Err? ==> r == Err(Comparison(t, Some(a)).error)
    ensures Comparison(t, Some(a)).Ok? ==> r == Ok(ResultOf(Comparison(t, Some(a)).value))
  {
    var differences: seq<Difference> := [];
    if !t.present || !a.present {
      if t.present || a.present {
        differences := differences + [ExistsDifference(t, a)];
      }
      MissingSideComparesExists(t, a);
      assert differences == (if t.present == a.present then [] else [ExistsDifference(t, a)]);
      return Ok(ResultOf(differences));
    }
    if IsNullOrWhiteSpace(t.minimumVersion) && !IsNullOrWhiteSpace(t.version) {
      var expected := PSVersions.Parse(t.version.value);
      if expected.Err? {
        return Err(expected.error);
      }
      var actual := ParseVersion(a.version);
      if actual.Err? {
        return Err(actual.error);
      }
      if !PSVersions.Equals(Some(expected.value), Some(actual.value)) {
        differences := differences + [VersionDifference(t, a)];
      }
    }
    assert VersionDrift(t, a).Ok? && differences == (if VersionDrift(t, a).value then [VersionDifference(t, a)] else []);
    if !IsNullOrWhiteSpace(t.minimumVersion) {
      var actual := ParseVersion(a.version);
      if actual.Err? {
        return Err(actual.error);
      }
      var minimum := PSVersions.Parse(t.minimumVersion.value);
      if minimum.Err? {
        return Err(minimum.error);
      }
      if PSVersions.Less(Some(actual.value), Some(minimum.value)) {
        differences := differences + [MinimumDifference(t, a)];
      }
    }
    assert MinimumDrift(t, a).Ok?;
    assert differences == (if VersionDrift(t, a).value then [VersionDifference(t, a)] else []) +
      (if MinimumDrift(t, a).value then [MinimumDifference(t, a)] else []);
    return Ok(ResultOf(differences));
  }

  /** The ten tests of `ConfigureAsync`, each appending one switch to the command. */
  method SwitchedCommand(t: ModuleSettings) returns (scriptText: string)
    ensures scriptText == ConfigureCommand(t)
  {
    scriptText := if t.present then InstallCommand else UninstallCommand;
    if !IsNullOrWhiteSpace(t.version) && IsNullOrWhiteSpace(t.minimumVersion) {
      scriptText := scriptText + RequiredVersionSwitch;
    }
    if !IsNullOrWhiteSpace(t.minimumVersion) {
      scriptText := scriptText + MinimumVersionSwitch;
    }
    if t.force {
      scriptText := scriptText + ForceSwitch;
    }
    if t.allVersions && !t.present {
      scriptText := scriptText + AllVersionsSwitch;
    }
    if t.allowPrerelease && t.present {
      scriptText := scriptText + AllowPrereleaseSwitch;
    }
    assert scriptText == CommandHead(t);
    if t.allowClobber && t.present {
      scriptText := scriptText + AllowClobberSwitch;
    }
    if t.acceptLicense && t.present {
      scriptText := scriptText + AcceptLicenseSwitch;
    }
    if !IsNullOrWhiteSpace(t.scope) && t.present {
      scriptText := scriptText + ScopeSwitch;
    }
    if !IsNullOrWhiteSpace(t.repository) && t.present {
      scriptText := scriptText + RepositorySwitch;
    }
    if t.verbose {
      scriptText := scriptText + VerboseSwitch;
    }
  }

  /** Each of the first five tests appends the next switch of `Switches` when it is on. */
  lemma CommandHeadSteps(t: ModuleSettings)
    ensures CommandHead(t) ==
      var s0 := SwitchStep(Command(t), t, 0);
      var s1 := SwitchStep(s0, t, 1);
      var s2 := SwitchStep(s1, t, 2);
      var s3 := SwitchStep(s2, t, 3);
      SwitchStep(s3, t, 4)
  {
    assert Switches[0] == RequiredVersionSwitch;
    assert Switches[1] == MinimumVersionSwitch;
    assert Switches[2] == ForceSwitch;
    assert Switches[3] == AllVersionsSwitch;
    assert Switches[4] == AllowPrereleaseSwitch;
  }

  /** Each of the last five tests appends the next switch of `Switches` when it is on. */
  lemma ConfigureCommandSteps(t: ModuleSettings)
    ensures ConfigureCommand(t) ==
      var s5 := SwitchStep(CommandHead(t), t, 5);
      var s6 := SwitchStep(s5, t, 6);
      var s7 := SwitchStep(s6, t, 7);
      var s8 := SwitchStep(s7, t, 8);
      SwitchStep(s8, t, 9)
  {
    assert Switches[5] == AllowClobberSwitch;
    assert Switches[6] == AcceptLicenseSwitch;
    assert Switches[7] == ScopeSwitch;
    assert Switches[8] == RepositorySwitch;
    assert Switches[9] == VerboseSwitch;
  }

  /** The loop over the extra parameters: each appends ` -Key $Key` to the script and adds the variable `$Key`. */
  method AddParameters(command: string, vars: seq<(string, RuntimeValue)>, ps: seq<(string, RuntimeValue)>)
    returns (r: Result<(string, seq<(string, RuntimeValue)>)>)
    ensures r == WithParameters(command, vars, ps)
  {
    var scriptText := command;
    var variables := vars;
    for i := 0 to |ps|
      invariant ParameterVariables(vars, ps[..i]) == Ok(variables)
      invariant scriptText == command + ParameterSwitches(ps[..i])
    {
      assert ps[..i + 1][..i] == ps[..i];
      var key := ps[i].0;
      var added := Add(true, variables, "$" + key, ps[i].1);
      if added.Err? {
        ParameterVariablesStaysErr(vars, ps, i + 1);
        return Err(added.error);
      }
      scriptText := scriptText + " -" + key + " $" + key;
      variables := added.value;
    }
    assert ps[..|ps|] == ps;
    return Ok((scriptText, variables));
  }


  // ---------------------------------------------------------------------------
  // Properties of the comparison

  /** When either side is not present, the only possible difference is `Exists`, and only when the two flags differ. */
  lemma MissingSideComparesExists(t: ModuleSettings, a: ModuleSettings)
    requires !t.present || !a.present
    ensures Comparison(t, Some(a)) == Ok(if t.present == a.present then [] else [ExistsDifference(t, a)])
  {
  }

  /** At most one difference is ever reported: the exact version and the minimum exclude each other. */
  lemma AtMostOneDifference(t: ModuleSettings, other: Option<ModuleSettings>)
    ensures Comparison(t, other).Ok? ==> |Comparison(t, other).value| <= 1
  {
  }

  /** With both sides present, a `Version` difference is reported exactly when the version is pinned and parses unequal. */
  lemma VersionDifferenceIff(t: ModuleSettings, a: ModuleSettings)
    requires t.present && a.present && Comparison(t, Some(a)).Ok?
    ensures VersionDifference(t, a) in Comparison(t, Some(a)).value <==>
      Pinned(t) && !PSVersions.Equals(Some(PSVersions.Parse(t.version.value).value), Some(ParseVersion(a.version).value))
  {
  }

  /** With both sides present, a `MinimumVersion` difference is reported exactly when the actual version sorts below the minimum. */
  lemma MinimumDifferenceIff(t: ModuleSettings, a: ModuleSettings)
    requires t.present && a.present && Comparison(t, Some(a)).Ok?
    ensures MinimumDifference(t, a) in Comparison(t, Some(a)).value <==>
      !IsNullOrWhiteSpace(t.minimumVersion) &&
      PSVersions.Less(Some(ParseVersion(a.version).value), Some(PSVersions.Parse(t.minimumVersion.value).value))
  {
  }

  /** Two present modules compare identical exactly when neither version test reports drift. */
  lemma NoDriftIdentical(t: ModuleSettings, a: ModuleSettings)
    requires t.present && a.present
    ensures Comparison(t, Some(a)) == Ok([]) <==> VersionDrift(t, a) == Ok(false) && MinimumDrift(t, a) == Ok(false)
  {
    var none: seq<Difference> := [];
    assert none + none == none;
  }

  /** A module installed at exactly the pinned version text shows no drift. */
  lemma SamePinnedVersionIdentical(t: ModuleSettings, a: ModuleSettings)
    requires t.present && a.present && Pinned(t) && a.version == t.version
    requires ParseVersion(t.version).Ok?
    ensures Comparison(t, Some(a)) == Ok([])
  {
    PSVersions.SelfCompare(ParseVersion(t.version).value);
    assert VersionDrift(t, a) == Ok(false);
    assert MinimumDrift(t, a) == Ok(false);
    NoDriftIdentical(t, a);
  }

  /** A module installed at exactly the minimum version text meets the minimum. */
  lemma MinimumVersionMet(t: ModuleSettings, a: ModuleSettings)
    requires t.present && a.present && !IsNullOrWhiteSpace(t.minimumVersion) && a.version == t.minimumVersion
    requires ParseVersion(t.minimumVersion).Ok?
    ensures Comparison(t, Some(a)) == Ok([])
  {
    PSVersions.SelfCompare(ParseVersion(t.minimumVersion).value);
    assert VersionDrift(t, a) == Ok(false);
    assert MinimumDrift(t, a) == Ok(false);
    NoDriftIdentical(t, a);
  }

  // ---------------------------------------------------------------------------
  // Properties of the configure command

  /** Position of a switch text in `Switches`. */
  function SwitchIndex(s: string): nat
  {
    if s == Switches[0] then 0 else if s == Switches[1] then 1 else if s == Switches[2] then 2
    else if s == Switches[3] then 3 else if s == Switches[4] then 4 else if s == Switches[5] then 5
    else if s == Switches[6] then 6 else if s == Switches[7] then 7 else if s == Switches[8] then 8
    else 9
  }

  /** The ten switch texts are distinct. */
  lemma SwitchIndexOf(i: nat)
    requires i < |Switches|
    ensures SwitchIndex(Switches[i]) == i
  {
  }

  /** Every switch among the first `n` that appears is one of them that is on, and they appear in their fixed order. */
  lemma {:induction false} SwitchesInOrder(t: ModuleSettings, n: nat)
    requires n <= |Switches|
    ensures forall s :: s in SwitchesOn(t, n) ==> SwitchIndex(s) < n && s == Switches[SwitchIndex(s)] && SwitchOn(t, SwitchIndex(s))
    ensures forall k, l :: 0 <= k < l < |SwitchesOn(t, n)| ==> SwitchIndex(SwitchesOn(t, n)[k]) < SwitchIndex(SwitchesOn(t, n)[l])
  {
    if n > 0 {
      SwitchesInOrder(t, n - 1);
      SwitchIndexOf(n - 1);
      var prev := SwitchesOn(t, n - 1);
      assert forall k :: 0 <= k < |prev| ==> prev[k] in prev;
    }
  }

  /** Switch `i` appears exactly when it is on. */
  lemma {:induction false} SwitchPresentIff(t: ModuleSettings, n: nat, i: nat)
    requires n <= |Switches| && i < n
    ensures Switches[i] in SwitchesOn(t, n) <==> SwitchOn(t, i)
  {
    SwitchesInOrder(t, n - 1);
    SwitchIndexOf(n - 1);
    SwitchIndexOf(i);
    if i < n - 1 {
      SwitchPresentIff(t, n - 1, i);
    }
  }

  /** One test of `ConfigureAsync` appends exactly the next switch of `SwitchesOn`. */
  lemma SwitchStepConcat(t: ModuleSettings, k: nat)
    requires k < |Switches|
    ensures SwitchStep(Command(t) + Concat(SwitchesOn(t, k)), t, k) == Command(t) + Concat(SwitchesOn(t, k + 1))
  {
    var prev, x := SwitchesOn(t, k), Switches[k];
    if SwitchOn(t, k) {
      assert SwitchesOn(t, k + 1) == prev + [x];
      assert (prev + [x])[..|prev|] == prev;
      assert Concat(prev + [x]) == Concat(prev) + x;
      assert Command(t) + (Concat(prev) + x) == Command(t) + Concat(prev) + x;
    } else {
      assert SwitchesOn(t, k + 1) == prev;
    }
  }

  /** The configure command is the starting command followed by the switches that are on, in order. */
  lemma ConfigureCommandSwitches(t: ModuleSettings)
    ensures ConfigureCommand(t) == Command(t) + Concat(SwitchesOn(t, |Switches|))
  {
    CommandHeadSwitches(t);
    ConfigureCommandSteps(t);
    SwitchStepConcat(t, 5);
    SwitchStepConcat(t, 6);
    SwitchStepConcat(t, 7);
    SwitchStepConcat(t, 8);
    SwitchStepConcat(t, 9);
  }

  /** After the first five tests the command is the starting command followed by the first five switches that are on. */
  lemma CommandHeadSwitches(t: ModuleSettings)
    ensures CommandHead(t) == Command(t) + Concat(SwitchesOn(t, 5))
  {
    CommandHeadSteps(t);
    assert Command(t) + Concat(SwitchesOn(t, 0)) == Command(t);
    SwitchStepConcat(t, 0);
    SwitchStepConcat(t, 1);
    SwitchStepConcat(t, 2);
    SwitchStepConcat(t, 3);
    SwitchStepConcat(t, 4);
  }

  /** Uninstalling never carries an install-only switch, installing never carries `-AllVersions`, and the exact and minimum versions exclude each other. */
  lemma InstallOnlySwitchesNeedPresence(t: ModuleSettings)
    ensures !t.present ==> forall i :: 0 <= i < |Switches| && InstallOnly(i) ==> Switches[i] !in SwitchesOn(t, |Switches|)
    ensures t.present ==> Switches[3] !in SwitchesOn(t, |Switches|)
    ensures !(Switches[0] in SwitchesOn(t, |Switches|) && Switches[1] in SwitchesOn(t, |Switches|))
  {
    forall i | 0 <= i < |Switches| {
      SwitchPresentIff(t, |Switches|, i);
    }
  }

  /** Configuring with a valid stored dictionary never throws: every extra parameter becomes its own "$Key" variable. */
  lemma ConfigureNeverThrows(t: ModuleSettings, stored: Option<seq<(string, RuntimeValue)>>)
    requires stored.Some? ==> UniqueKeys(true, stored.value)
    ensures ConfigureJob(t, CopyIC(stored.GetOr([]))).Ok?
    ensures ConfigureJob(t, CopyIC(stored.GetOr([]))).value.variables == BaseVariables(t) + Dollared(stored.GetOr([]))
    ensures ConfigureJob(t, CopyIC(stored.GetOr([]))).value.scriptText ==
      ConfigureCommand(t) + ParameterSwitches(stored.GetOr([]))
  {
    CopyICIff(stored.GetOr([]));
    ParameterVariablesAdded(BaseVariables(t), stored.GetOr([]));
  }
}
