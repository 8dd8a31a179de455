/**
 * `PsRepositoryConfiguration`: the desired registration of one PowerShell
 * repository on a server, how it is compared with the registration
 * collected from the server, the `Unregister-PSRepository` /
 * `Register-PSRepository` jobs that bring the server to it, and how the
 * registration is collected.
 *
 * The agent's job runner is not part of this model: the jobs the
 * configuration sends are outputs, and what the collect job returned is an
 * input.
 */
module PsRepository {
  import opened Common
  import opened RuntimeValues
  import opened ScriptPersistedConfiguration
  import PsModule

  // ---------------------------------------------------------------------------
  // The persisted properties

  /** The persisted properties of a repository configuration, other than `Parameters`. */
  datatype RepositorySettings = RepositorySettings(
    name: Option<string>, sourceLocation: Option<string>, installationPolicy: Option<string>,
    present: bool, packageManagementProvider: Option<string>, verbose: bool, debugLogging: bool)

  /** The property defaults: the repository is to be registered, nothing else is set. */
  const DefaultSettings: RepositorySettings := RepositorySettings(None, None, None, true, None, false, false)

  /** The configuration `CollectInternalAsync` returns when no repository of the template's name is found. */
  function NotRegistered(t: RepositorySettings): RepositorySettings
  {
    DefaultSettings.(name := t.name, present := false)
  }

  // ---------------------------------------------------------------------------
  // Comparison

  /**
   * The test `x != y && !(x?.Equals(y, InvariantCultureIgnoreCase) ?? false)`:
   * the texts differ, and not merely in case. A null text differs from any
   * non-null one.
   */
  predicate DiffersIC(x: Option<string>, y: Option<string>)
  {
    x != y && !(x.Some? && y.Some? && EqIC(x.value, y.value))
  }

  /** The test is exactly "not equal ignoring case, null only equal to null", and it is symmetric. */
  lemma DiffersICIff(x: Option<string>, y: Option<string>)
    ensures DiffersIC(x, y) <==> !EqICOpt(x, y)
    ensures DiffersIC(x, y) <==> DiffersIC(y, x)
  {
    if x.Some? && y.Some? {
      EqICIsEquivalence(x.value, y.value, y.value);
    } else if x.Some? {
      EqICIsEquivalence(x.value, x.value, x.value);
    }
  }

  /** Whether the package management provider is checked and differs: only a non-blank template value is checked. */
  predicate ProviderDrift(t: RepositorySettings, a: RepositorySettings)
  {
    !IsNullOrWhiteSpace(t.packageManagementProvider) && DiffersIC(t.packageManagementProvider, a.packageManagementProvider)
  }

  /** The `Exists` difference. */
  function ExistsDifference(t: RepositorySettings, a: RepositorySettings): Difference
  {
    Difference(Some("Exists"), Some(PsModule.BoolText(t.present)), Some(PsModule.BoolText(a.present)))
  }

  /** The `SourceLocation` difference. */
  function SourceDifference(t: RepositorySettings, a: RepositorySettings): Difference
  {
    Difference(Some("SourceLocation"), t.sourceLocation, a.sourceLocation)
  }

  /** The `InstallationPolicy` difference. */
  function PolicyDifference(t: RepositorySettings, a: RepositorySettings): Difference
  {
    Difference(Some("InstallationPolicy"), t.installationPolicy, a.installationPolicy)
  }

  /** The `PackageManagementProvider` difference. */
  function ProviderDifference(t: RepositorySettings, a: RepositorySettings): Difference
  {
    Difference(Some("PackageManagementProvider"), t.packageManagementProvider, a.packageManagementProvider)
  }

  /**
   * The differences `CompareAsync` reports between the template `t` and the
   * collected `other`, or its exception. `other` is `None` when the
   * configuration compared with is not a repository configuration.
   */
  function Comparison(t: RepositorySettings, other: Option<RepositorySettings>): Result<seq<Difference>>
  {
    if other.None? then Err("ArgumentException")
    else
      var a := other.value;
      if !t.present || !a.present then
        Ok(if t.present || a.present then [ExistsDifference(t, a)] else [])
      else
        Ok((if DiffersIC(t.sourceLocation, a.sourceLocation) then [SourceDifference(t, a)] else []) +
           (if DiffersIC(t.installationPolicy, a.installationPolicy) then [PolicyDifference(t, a)] else []) +
           (if ProviderDrift(t, a) then [ProviderDifference(t, a)] else []))
  }

  /** `CompareAsync` once `other` is known to be a repository configuration, appending each difference as it is found. */
  method CompareSettings(t: RepositorySettings, a: RepositorySettings) returns (r: ComparisonResult)
    ensures Comparison(t, Some(a)).Ok?
    ensures r == PsModule.ResultOf(Comparison(t, Some(a)).value)
  {
    var differences: seq<Difference> := [];
    if !t.present || !a.present {
      if t.present || a.present {
        differences := differences + [ExistsDifference(t, a)];
      }
      return PsModule.ResultOf(differences);
    }
    if t.sourceLocation != a.sourceLocation &&
       !(t.sourceLocation.Some? && a.sourceLocation.Some? && EqIC(t.sourceLocation.value, a.sourceLocation.value)) {
      differences := differences + [SourceDifference(t, a)];
    }
    if t.installationPolicy != a.installationPolicy &&
       !(t.installationPolicy.Some? && a.installationPolicy.Some? && EqIC(t.installationPolicy.value, a.installationPolicy.value)) {
      differences := differences + [PolicyDifference(t, a)];
    }
    if !IsNullOrWhiteSpace(t.packageManagementProvider) && t.packageManagementProvider != a.packageManagementProvider &&
       !(t.packageManagementProvider.Some? && a.packageManagementProvider.Some? &&
         EqIC(t.packageManagementProvider.value, a.packageManagementProvider.value)) {
      differences := differences + [ProviderDifference(t, a)];
    }
    return PsModule.ResultOf(differences);
  }

  /** With a side missing, only `Exists` is compared: it differs exactly when the sides disagree. */
  lemma MissingSideComparesExists(t: RepositorySettings, a: RepositorySettings)
    requires !t.present || !a.present
    ensures Comparison(t, Some(a)).Ok?
    ensures Comparison(t, Some(a)).value == [] <==> t.present == a.present
    ensures forall d :: d in Comparison(t, Some(a)).value ==> d == ExistsDifference(t, a)
  {
  }

  /**
   * With both sides present, each property is reported exactly when it
   * differs ignoring case; the provider only when the template names one.
   */
  lemma RepositoryDifferenceIff(t: RepositorySettings, a: RepositorySettings)
    requires t.present && a.present
    ensures Comparison(t, Some(a)).Ok?
    ensures SourceDifference(t, a) in Comparison(t, Some(a)).value <==> !EqICOpt(t.sourceLocation, a.sourceLocation)
    ensures PolicyDifference(t, a) in Comparison(t, Some(a)).value <==> !EqICOpt(t.installationPolicy, a.installationPolicy)
    ensures ProviderDifference(t, a) in Comparison(t, Some(a)).value <==>
      !IsNullOrWhiteSpace(t.packageManagementProvider) && !EqICOpt(t.packageManagementProvider, a.packageManagementProvider)
    ensures ExistsDifference(t, a) !in Comparison(t, Some(a)).value
  {
    DiffersICIff(t.sourceLocation, a.sourceLocation);
    DiffersICIff(t.installationPolicy, a.installationPolicy);
    DiffersICIff(t.packageManagementProvider, a.packageManagementProvider);
  }

  /** Two registered repositories compare identical exactly when they agree ignoring case on every compared property. */
  lemma IdenticalIff(t: RepositorySettings, a: RepositorySettings)
    requires t.present && a.present
    ensures Comparison(t, Some(a)) == Ok([]) <==>
      EqICOpt(t.sourceLocation, a.sourceLocation) && EqICOpt(t.installationPolicy, a.installationPolicy) &&
      (IsNullOrWhiteSpace(t.packageManagementProvider) || EqICOpt(t.packageManagementProvider, a.packageManagementProvider))
  {
    var none: seq<Difference> := [];
    assert none + none + none == none;
    DiffersICIff(t.sourceLocation, a.sourceLocation);
    DiffersICIff(t.installationPolicy, a.installationPolicy);
    DiffersICIff(t.packageManagementProvider, a.packageManagementProvider);
  }

  // ---------------------------------------------------------------------------
  // The jobs

  /** The script texts of the three jobs. */
  const ListCommand: string := "$results = Get-PSRepository"
  const UnregisterCommand: string := "Unregister-PSRepository -Name $Name"
  const RegisterCommand: string := "Register-PSRepository -Name $Name -SourceLocation $SourceLocation"
  const PolicySwitch: string := " -InstallationPolicy $InstallationPolicy"
  const ProviderSwitch: string := " -PackageManagementProvider $PackageManagementProvider"
  const VerboseSwitch: string := " -Verbose"

  /** The collect job: list the registered repositories into `$results`. */
  function CollectJob(t: RepositorySettings): PsModule.ModuleJob
  {
    PsModule.ModuleJob(PsModule.AppendIf(ListCommand, t.verbose, VerboseSwitch), [("Name", Scalar(t.name))], ["results"],
      true, t.verbose, t.verbose, t.debugLogging)
  }

  /** The job that removes the registration found on the server. */
  function UnregisterJob(t: RepositorySettings): PsModule.ModuleJob
  {
    PsModule.ModuleJob(PsModule.AppendIf(UnregisterCommand, t.verbose, VerboseSwitch), [("Name", Scalar(t.name))], [],
      true, t.verbose, t.verbose, t.debugLogging)
  }

  /** The register command: the optional switches in the order the source tests them. */
  function RegisterScript(t: RepositorySettings): string
  {
    var s0 := PsModule.AppendIf(RegisterCommand, !IsNullOrWhiteSpace(t.installationPolicy), PolicySwitch);
    var s1 := PsModule.AppendIf(s0, !IsNullOrWhiteSpace(t.packageManagementProvider), ProviderSwitch);
    PsModule.AppendIf(s1, t.verbose, VerboseSwitch)
  }

  /** The register job's variables before the extra parameters. */
  function RegisterVariables(t: RepositorySettings): seq<(string, RuntimeValue)>
  {
    [("Name", Scalar(t.name)), ("SourceLocation", Scalar(t.sourceLocation)),
     ("InstallationPolicy", Scalar(t.installationPolicy)), ("PackageManagementProvider", Scalar(t.packageManagementProvider))]
  }

  /** The register job for template `t` with the extra parameters `parameters`, or the exception building it throws. */
  function RegisterJob(t: RepositorySettings, parameters: Result<seq<(string, RuntimeValue)>>): Result<PsModule.ModuleJob>
  {
    match parameters
    case Err(e) => Err(e)
    case Ok(ps) =>
      match PsModule.WithParameters(RegisterScript(t), RegisterVariables(t), ps)
      case Err(e) => Err(e)
      case Ok(built) => Ok(PsModule.ModuleJob(built.0, built.1, [], true, t.verbose, t.verbose, t.debugLogging))
  }

  /** The three `if`s that build the register command. */
  method RegisterCommandText(t: RepositorySettings) returns (scriptText: string)
    ensures scriptText == RegisterScript(t)
  {
    scriptText := RegisterCommand;
    if !IsNullOrWhiteSpace(t.installationPolicy) {
      scriptText := scriptText + PolicySwitch;
    }
    if !IsNullOrWhiteSpace(t.packageManagementProvider) {
      scriptText := scriptText + ProviderSwitch;
    }
    if t.verbose {
      scriptText := scriptText + VerboseSwitch;
    }
  }

  /** The jobs a configure run sends, in order, and the exception that ended it, if any. */
  datatype Run = Run(jobs: seq<PsModule.ModuleJob>, failure: Option<string>)

  /**
   * What `ConfigureAsync` sends outside a simulation: the collect job, then
   * the unregister job when the repository was found registered, then the
   * register job when the template says it exists. `collected` is what the
   * collect job reported.
   */
  function Configured(t: RepositorySettings, parameters: Result<seq<(string, RuntimeValue)>>, collected: RepositorySettings): Run
  {
    var before := [CollectJob(t)] + (if collected.present then [UnregisterJob(t)] else []);
    if !t.present then Run(before, None)
    else
      match RegisterJob(t, parameters)
      case Err(e) => Run(before, Some(e))
      case Ok(job) => Run(before + [job], None)
  }

  /**
   * The order of a configure run with a valid parameter dictionary: it never
   * fails, it collects first, unregisters exactly when the repository was
   * found, registers exactly when the template says it exists, and a
   * re-registration removes the old registration first.
   */
  lemma ConfigureSequencing(t: RepositorySettings, stored: Option<seq<(string, RuntimeValue)>>, collected: RepositorySettings)
    requires stored.Some? ==> UniqueKeys(true, stored.value)
    ensures Configured(t, PsModule.CopyIC(stored.GetOr([])), collected).failure.None?
    ensures Configured(t, PsModule.CopyIC(stored.GetOr([])), collected).jobs[0] == CollectJob(t)
    ensures UnregisterJob(t) in Configured(t, PsModule.CopyIC(stored.GetOr([])), collected).jobs <==> collected.present
    ensures |Configured(t, PsModule.CopyIC(stored.GetOr([])), collected).jobs| ==
      1 + (if collected.present then 1 else 0) + (if t.present then 1 else 0)
    ensures t.present ==>
      var jobs := Configured(t, PsModule.CopyIC(stored.GetOr([])), collected).jobs;
      jobs[|jobs| - 1].scriptText == RegisterScript(t) + PsModule.ParameterSwitches(stored.GetOr([])) &&
      jobs[|jobs| - 1].variables == RegisterVariables(t) + PsModule.Dollared(stored.GetOr([]))
    ensures collected.present && t.present ==> Configured(t, PsModule.CopyIC(stored.GetOr([])), collected).jobs[1] == UnregisterJob(t)
  {
    var ps := stored.GetOr([]);
    PsModule.CopyICIff(ps);
    PsModule.ParameterVariablesAdded(RegisterVariables(t), ps);
    var run := Configured(t, PsModule.CopyIC(ps), collected);
    assert run.jobs[0] == CollectJob(t);
    if t.present {
      assert run.jobs[|run.jobs| - 1].variables == RegisterVariables(t) + PsModule.Dollared(ps);
      assert run.jobs[|run.jobs| - 1] != UnregisterJob(t);
    }
  }

  // ---------------------------------------------------------------------------
  // Collection

  /**
   * `parseModule`: a map with a non-blank `Name` becomes a registered
   * repository; the other properties are read as text when present (the
   * source location as "" when missing). `mic` is the comparer of the host's
   * map values.
   */
  function ParseRepository(v: RuntimeValue, mic: bool): (r: Option<RepositorySettings>)
    ensures r.Some? <==> v.Map? && HasKey(mic, v.entries, "Name") && !IsNullOrWhiteSpace(AsString(Get(mic, v.entries, "Name").value))
    ensures r.Some? ==> r.value.present && r.value.name == AsString(Get(mic, v.entries, "Name").value) && r.value.sourceLocation.Some?
  {
    if !v.Map? then None
    else
      match Get(mic, v.entries, "Name")
      case None => None
      case Some(name) =>
        if IsNullOrWhiteSpace(AsString(name)) then None
        else
          Some(DefaultSettings.(
            name := AsString(name),
            sourceLocation := Some(ScalarText(Get(mic, v.entries, "SourceLocation").GetOr(Default))),
            installationPolicy := AsString(Get(mic, v.entries, "InstallationPolicy").GetOr(Default)),
            packageManagementProvider := AsString(Get(mic, v.entries, "PackageManagementProvider").GetOr(Default))))
  }

  /** `Select(parseModule)`. */
  function ParsedRepositories(vs: seq<RuntimeValue>, mic: bool): (r: seq<Option<RepositorySettings>>)
    ensures |r| == |vs|
    ensures forall i :: 0 <= i < |vs| ==> r[i] == ParseRepository(vs[i], mic)
  {
    seq(|vs|, i requires 0 <= i < |vs| => ParseRepository(vs[i], mic))
  }

  /** The filter: the repository's name equals the template's ignoring case; a null template name matches nothing. */
  predicate Named(templateName: Option<string>, r: RepositorySettings)
  {
    templateName.Some? && r.name.Some? && EqIC(r.name.value, templateName.value)
  }

  /**
   * `Where(r => r.Name.Equals(...)).FirstOrDefault()` as written: the filter
   * dereferences each parsed entry, so an entry that did not parse, reached
   * before a match, throws.
   */
  function FirstNamedAsWritten(templateName: Option<string>, ms: seq<Option<RepositorySettings>>): Result<Option<RepositorySettings>>
    decreases |ms|
  {
    if ms == [] then Ok(None)
    else if ms[0].None? then Err("NullReferenceException")
    else if Named(templateName, ms[0].value) then Ok(ms[0])
    else FirstNamedAsWritten(templateName, ms[1..])
  }

  /** The filter with entries that did not parse skipped, as the module configuration's collection does. */
  function FirstNamed(templateName: Option<string>, ms: seq<Option<RepositorySettings>>): Option<RepositorySettings>
    decreases |ms|
  {
    if ms == [] then None
    else if ms[0].Some? && Named(templateName, ms[0].value) then ms[0]
    else FirstNamed(templateName, ms[1..])
  }

  /** A repository is found exactly when a parsed entry has the template's name, and it is the first such entry. */
  lemma {:induction false} FirstNamedIsFirst(templateName: Option<string>, ms: seq<Option<RepositorySettings>>)
    ensures FirstNamed(templateName, ms).Some? <==> exists i :: 0 <= i < |ms| && ms[i].Some? && Named(templateName, ms[i].value)
    ensures FirstNamed(templateName, ms).Some? ==>
      exists i :: 0 <= i < |ms| && ms[i] == FirstNamed(templateName, ms) && Named(templateName, ms[i].value) &&
        forall j :: 0 <= j < i ==> !(ms[j].Some? && Named(templateName, ms[j].value))
    decreases |ms|
  {
    if ms != [] && !(ms[0].Some? && Named(templateName, ms[0].value)) {
      var tail := ms[1..];
      FirstNamedIsFirst(templateName, tail);
      if exists i :: 0 <= i < |ms| && ms[i].Some? && Named(templateName, ms[i].value) {
        var i :| 0 <= i < |ms| && ms[i].Some? && Named(templateName, ms[i].value);
        assert tail[i - 1] == ms[i];
      }
      if FirstNamed(templateName, tail).Some? {
        var i :| 0 <= i < |tail| && tail[i] == FirstNamed(templateName, tail) && Named(templateName, tail[i].value) &&
          forall j :: 0 <= j < i ==> !(tail[j].Some? && Named(templateName, tail[j].value));
        assert forall j :: 1 <= j <= i ==> ms[j] == tail[j - 1];
        assert ms[i + 1] == tail[i];
      }
    }
  }

  /** Every entry before `i` parsed and lacks the template's name. */
  predicate PassedBefore(templateName: Option<string>, ms: seq<Option<RepositorySettings>>, i: nat)
    requires i <= |ms|
  {
    forall j :: 0 <= j < i ==> ms[j].Some? && !Named(templateName, ms[j].value)
  }

  /** Passing the first `i + 1` entries is passing the head, then `i` entries of the tail. */
  lemma PassedBeforeCons(templateName: Option<string>, ms: seq<Option<RepositorySettings>>, i: nat)
    requires i < |ms|
    ensures PassedBefore(templateName, ms, i + 1) <==>
      ms[0].Some? && !Named(templateName, ms[0].value) && PassedBefore(templateName, ms[1..], i)
  {
    assert forall j :: 1 <= j <= i ==> ms[j] == ms[1..][j - 1];
  }

  /** The filter as written throws exactly when an entry that did not parse comes before any with the template's name. */
  lemma {:induction false} FirstNamedAsWrittenThrows(templateName: Option<string>, ms: seq<Option<RepositorySettings>>)
    ensures FirstNamedAsWritten(templateName, ms).Err? ==> FirstNamedAsWritten(templateName, ms).error == "NullReferenceException"
    ensures FirstNamedAsWritten(templateName, ms).Err? <==>
      exists i :: 0 <= i < |ms| && ms[i].None? && PassedBefore(templateName, ms, i)
    decreases |ms|
  {
    if ms != [] && ms[0].Some? && !Named(templateName, ms[0].value) {
      var tail := ms[1..];
      FirstNamedAsWrittenThrows(templateName, tail);
      if FirstNamedAsWritten(templateName, tail).Err? {
        var i :| 0 <= i < |tail| && tail[i].None? && PassedBefore(templateName, tail, i);
        PassedBeforeCons(templateName, ms, i);
        assert ms[i + 1].None?;
      }
      if exists i :: 0 <= i < |ms| && ms[i].None? && PassedBefore(templateName, ms, i) {
        var i :| 0 <= i < |ms| && ms[i].None? && PassedBefore(templateName, ms, i);
        assert i > 0;
        PassedBeforeCons(templateName, ms, i - 1);
        assert tail[i - 1].None?;
      }
    } else if ms != [] && ms[0].None? {
      assert PassedBefore(templateName, ms, 0);
    } else if ms != [] {
      assert !(ms[0].Some? && !Named(templateName, ms[0].value));
    }
  }

  /** The filter as written finds the first entry with the template's name, when every entry before it parsed. */
  lemma {:induction false} FirstNamedAsWrittenFinds(templateName: Option<string>, ms: seq<Option<RepositorySettings>>)
    requires FirstNamedAsWritten(templateName, ms).Ok? && FirstNamedAsWritten(templateName, ms).value.Some?
    ensures exists i ::
      0 <= i < |ms| && ms[i] == FirstNamedAsWritten(templateName, ms).value &&
      Named(templateName, ms[i].value) && PassedBefore(templateName, ms, i)
    decreases |ms|
  {
    if !Named(templateName, ms[0].value) {
      var tail := ms[1..];
      FirstNamedAsWrittenFinds(templateName, tail);
      var i :| 0 <= i < |tail| && tail[i] == FirstNamedAsWritten(templateName, tail).value &&
        Named(templateName, tail[i].value) && PassedBefore(templateName, tail, i);
      PassedBeforeCons(templateName, ms, i);
      assert ms[i + 1] == tail[i];
    } else {
      assert PassedBefore(templateName, ms, 0);
    }
  }

  /** The filter as written finds nothing exactly when every entry parsed and none has the template's name. */
  lemma {:induction false} FirstNamedAsWrittenMisses(templateName: Option<string>, ms: seq<Option<RepositorySettings>>)
    ensures FirstNamedAsWritten(templateName, ms) == Ok(None) <==> PassedBefore(templateName, ms, |ms|)
    decreases |ms|
  {
    if ms != [] {
      FirstNamedAsWrittenMisses(templateName, ms[1..]);
      PassedBeforeCons(templateName, ms, |ms| - 1);
    }
  }

  /** Where every entry parses, the filter as written finds what the corrected one finds. */
  lemma {:induction false} AsWrittenAgreesWhenAllParse(templateName: Option<string>, ms: seq<Option<RepositorySettings>>)
    requires forall i :: 0 <= i < |ms| ==> ms[i].Some?
    ensures FirstNamedAsWritten(templateName, ms) == Ok(FirstNamed(templateName, ms))
    decreases |ms|
  {
    if ms != [] && !Named(templateName, ms[0].value) {
      assert forall i :: 0 <= i < |ms[1..]| ==> ms[1..][i] == ms[i + 1];
      AsWrittenAgreesWhenAllParse(templateName, ms[1..]);
    }
  }

  /** The repository `CollectInternalAsync` reports, if any; `results` is the job's `$results`, or the exception reading it threw. */
  function Collected(t: RepositorySettings, results: Result<RuntimeValue>, mic: bool): Option<RepositorySettings>
  {
    if results.Err? then None else FirstNamed(t.name, ParsedRepositories(PsModule.ListedValues(results.value), mic))
  }

  /** The configuration `CollectInternalAsync` returns: the repository found, else the template's name as not registered. */
  function CollectedSettings(t: RepositorySettings, results: Result<RuntimeValue>, mic: bool): RepositorySettings
  {
    Collected(t, results, mic).GetOr(NotRegistered(t))
  }

  /** The configuration `CollectInternalAsync` returns as written, and the exception it catches and logs, if any. */
  function CollectedAsWritten(t: RepositorySettings, results: Result<RuntimeValue>, mic: bool): (RepositorySettings, Option<string>)
  {
    if results.Err? then (NotRegistered(t), Some(results.error))
    else
      match FirstNamedAsWritten(t.name, ParsedRepositories(PsModule.ListedValues(results.value), mic))
      case Err(e) => (NotRegistered(t), Some(e))
      case Ok(found) => (found.GetOr(NotRegistered(t)), None)
  }

  /** What is collected is registered and carries the template's name ignoring case, or it is the template's name as not registered. */
  lemma CollectedIsNamed(t: RepositorySettings, results: Result<RuntimeValue>, mic: bool)
    ensures CollectedSettings(t, results, mic).present ==> Named(t.name, CollectedSettings(t, results, mic))
    ensures !CollectedSettings(t, results, mic).present ==> CollectedSettings(t, results, mic) == NotRegistered(t)
  {
    if results.Ok? {
      FirstNamedIsFirst(t.name, ParsedRepositories(PsModule.ListedValues(results.value), mic));
    }
  }

  /** What `CollectInternalAsync` logs: the exception it caught, if any. */
  function CollectLog(t: RepositorySettings, results: Result<RuntimeValue>, mic: bool): (r: seq<LogMessage>)
    ensures |r| <= 1
    ensures r == [] <==> CollectedAsWritten(t, results, mic).1.None?
  {
    var e := CollectedAsWritten(t, results, mic).1;
    if e.Some? then [LogMessage(Error, e.value)] else []
  }

  /**
   * What the collection as written reports is registered and carries the
   * template's name ignoring case, or it is the template's name as not
   * registered; an exception is reported exactly when the job's results
   * could not be read or an entry that did not parse comes before the
   * first with the template's name.
   */
  lemma CollectedAsWrittenIsNamed(t: RepositorySettings, results: Result<RuntimeValue>, mic: bool)
    ensures var (c, e) := CollectedAsWritten(t, results, mic);
      (c.present ==> Named(t.name, c) && e.None?) &&
      (!c.present ==> c == NotRegistered(t)) &&
      (results.Err? ==> e == Some(results.error))
    ensures results.Ok? ==> var ms := ParsedRepositories(PsModule.ListedValues(results.value), mic);
      (CollectedAsWritten(t, results, mic).1 == Some("NullReferenceException") <==>
        exists i :: 0 <= i < |ms| && ms[i].None? && PassedBefore(t.name, ms, i))
  {
    if results.Ok? {
      var ms := ParsedRepositories(PsModule.ListedValues(results.value), mic);
      FirstNamedAsWrittenThrows(t.name, ms);
      if FirstNamedAsWritten(t.name, ms).Ok? && FirstNamedAsWritten(t.name, ms).value.Some? {
        FirstNamedAsWrittenFinds(t.name, ms);
      }
    }
  }

  /**
   * As written, a listed entry without a name ahead of the wanted repository
   * makes the collection throw, so a registered repository is reported as
   * not registered; the corrected collection finds it.
   */
  lemma NullEntryHidesRepository()
    ensures
      var t := DefaultSettings.(name := Some("PSGallery"));
      var results := Ok(Vector([Map([]), Map([("Name", Str("PSGallery"))])]));
      !CollectedAsWritten(t, results, true).0.present && CollectedAsWritten(t, results, true).1 == Some("NullReferenceException") &&
      CollectedSettings(t, results, true).present
  {
    var t := DefaultSettings.(name := Some("PSGallery"));
    var vs := [Map([]), Map([("Name", Str("PSGallery"))])];
    var ms := ParsedRepositories(vs, true);
    var entries := [("Name", Str("PSGallery"))];
    EqICIsEquivalence("Name", "Name", "Name");
    EqICIsEquivalence("PSGallery", "PSGallery", "PSGallery");
    assert FindKey(true, entries, "Name") == 0;
    assert !IsWhite("PSGallery"[0]);
    assert ms[0].None?;
    assert ms[1].Some? && Named(t.name, ms[1].value);
    assert FirstNamed(t.name, ms[1..]) == ms[1];
  }

  // ---------------------------------------------------------------------------
  // The configuration object

  class PsRepositoryConfiguration {
    var settings: RepositorySettings
    var dictionary: Option<seq<(string, RuntimeValue)>>

    /** What the `Parameters` setter keeps: nothing, or a non-empty dictionary whose keys differ ignoring case. */
    predicate Valid()
      reads this
    {
      dictionary.Some? ==> dictionary.value != [] && UniqueKeys(true, dictionary.value)
    }

    /**
     * The parameterless constructor: every property at its default. The
     * body's copy reads the field before anything is assigned to it, so it
     * never copies anything.
     */
    constructor()
      ensures Valid()
      ensures settings == DefaultSettings && dictionary.None?
    {
      settings := DefaultSettings;
      dictionary := None;
    }

    /** The `Parameters` getter: a case-insensitive copy of the stored dictionary, or an empty dictionary. */
    function Parameters(): Result<seq<(string, RuntimeValue)>>
      reads this
    {
      PsModule.CopyIC(dictionary.GetOr([]))
    }

    /** The `Parameters` setter: null or empty stores nothing; anything else is copied, which throws on keys equal ignoring case. */
    method SetParameters(value: Option<seq<(string, RuntimeValue)>>) returns (r: Result<()>)
      modifies this`dictionary
      ensures value.None? || value.value == [] ==> r.Ok? && dictionary.None?
      ensures value.Some? && value.value != [] ==> (r.Ok? <==> UniqueKeys(true, value.value))
      ensures r.Ok? ==> Valid() && Parameters() == Ok(value.GetOr([]))
      ensures r.Err? ==> r.error == "ArgumentException" && dictionary == old(dictionary)
    {
      if value.None? || value.value == [] {
        dictionary := None;
        return Ok(());
      }
      PsModule.CopyICIff(value.value);
      var copy := PsModule.CopyIC(value.value);
      if copy.Err? {
        return Err(copy.error);
      }
      dictionary := Some(copy.value);
      PsModule.CopyICIff(dictionary.value);
      return Ok(());
    }

    /** `CompareAsync`; `other` is null when it is not a repository configuration. */
    method CompareAsync(other: PsRepositoryConfiguration?) returns (r: Result<ComparisonResult>)
      ensures other == null ==> r == Err("ArgumentException")
      ensures other != null ==> r == Ok(PsModule.ResultOf(Comparison(settings, Some(other.settings)).value))
    {
      if other == null {
        return Err("ArgumentException");
      }
      var t, a := settings, other.settings;
      var compared := CompareSettings(t, a);
      return Ok(compared);
    }

    /**
     * `CollectInternalAsync`: a new configuration for the first listed
     * repository of the template's name, else one that is not registered.
     * An exception, reading the results or dereferencing an entry that did
     * not parse, is logged and also reported as not registered.
     */
    method CollectAsync(results: Result<RuntimeValue>, mic: bool) returns (job: PsModule.ModuleJob, c: PsRepositoryConfiguration, log: seq<LogMessage>)
      ensures job == CollectJob(settings)
      ensures fresh(c) && c.Valid() && c.dictionary.None?
      ensures c.settings == CollectedAsWritten(settings, results, mic).0
      ensures log == CollectLog(settings, results, mic)
    {
      var t := settings;
      job := CollectJob(t);
      log := [];
      c := new PsRepositoryConfiguration();
      if results.Err? {
        log := [LogMessage(Error, results.error)];
        c.settings := NotRegistered(t);
        return;
      }
      var found := FirstNamedAsWritten(t.name, ParsedRepositories(PsModule.ListedValues(results.value), mic));
      if found.Err? {
        log := [LogMessage(Error, found.error)];
        c.settings := NotRegistered(t);
      } else if found.value.Some? {
        c.settings := found.value.value;
      } else {
        c.settings := NotRegistered(t);
      }
    }

    /**
     * `ConfigureAsync`: a simulation only logs. Otherwise the registration is
     * collected, removed when found, and registered again when the template
     * says it exists; each unregister or register script is logged.
     */
    method ConfigureAsync(simulation: bool, results: Result<RuntimeValue>, mic: bool)
      returns (jobs: seq<PsModule.ModuleJob>, failure: Option<string>, log: seq<LogMessage>)
      ensures simulation ==> jobs == [] && failure.None? && log == [LogMessage(Information, "Registering PS Repository...")]
      ensures !simulation ==> Run(jobs, failure) == Configured(settings, Parameters(), CollectedAsWritten(settings, results, mic).0)
      ensures !simulation ==> (log ==
        CollectLog(settings, results, mic) +
        (if CollectedAsWritten(settings, results, mic).0.present then [LogMessage(Debug, UnregisterJob(settings).scriptText)] else []) +
        (if failure.None? && settings.present then [LogMessage(Debug, jobs[|jobs| - 1].scriptText)] else []))
    {
      if simulation {
        return [], None, [LogMessage(Information, "Registering PS Repository...")];
      }
      var t := settings;
      var collectJob, collected, collectLog := CollectAsync(results, mic);
      jobs, failure, log := [collectJob], None, collectLog;
      if collected.settings.present {
        var unregister := UnregisterJob(t);
        jobs := jobs + [unregister];
        log := log + [LogMessage(Debug, unregister.scriptText)];
      }
      if t.present {
        var scriptText := RegisterCommandText(t);
        var ps := Parameters();
        if ps.Err? {
          failure := Some(ps.error);
          return;
        }
        var built := PsModule.AddParameters(scriptText, RegisterVariables(t), ps.value);
        if built.Err? {
          failure := Some(built.error);
          return;
        }
        var register := PsModule.ModuleJob(built.value.0, built.value.1, [], true, t.verbose, t.verbose, t.debugLogging);
        jobs := jobs + [register];
        log := log + [LogMessage(Debug, register.scriptText)];
      }
    }
  }
}
