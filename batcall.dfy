/**
 * `BATCall`: runs a Windows batch script stored in a raft through
 * `cmd.exe /c`. The operation's `Parameters` are sorted by the usage the
 * script declares for them, declared argument defaults fill the names not
 * supplied, the arguments format becomes the command line, and each line
 * the process writes is logged at the level its `LEVEL:` prefix names.
 *
 * The raft, the agent's file system and the process itself are not part
 * of this model: the script's content, the combined file name and the
 * expansion of the arguments format are inputs; the header is read from
 * the content with the batch script parser.
 */
module BatCall {
  import opened Common
  import opened RuntimeValues
  import opened ScriptParser
  import SHUtil
  import ShellRun
  import WindowsBatchScriptParser

  // ---------------------------------------------------------------------------
  // Sorting `Parameters` by declared usage

  /** Where a parameter of the operation goes. */
  datatype Route = ToArguments | ToEnvironment | ToInput | Ignored

  /**
   * Undeclared names and declared argument or default usage go to the
   * arguments, environment-variable usage to the environment, input-variable
   * usage to the input variables; output and any other usage are ignored.
   */
  function RouteOf(ps: seq<ParamInfo>, key: string): Route
  {
    match SHUtil.DeclaredAs(ps, key)
    case None => ToArguments
    case Some(p) =>
      if p.usage == Arguments || p.usage == Usage.Default then ToArguments
      else if p.usage == EnvironmentVariable then ToEnvironment
      else if p.usage == InputVariable then ToInput
      else Ignored
  }

  /** `inputVars`, `envVars` (a value's text, null when it has none) and `argVars`: indexer writes, keys ignoring case. */
  datatype Sorted = Sorted(
    inputVars: seq<(string, RuntimeValue)>, envVars: seq<(string, Option<string>)>, argVars: seq<(string, RuntimeValue)>)

  /** One parameter written where its route says. */
  function SortOne(c: Sorted, ps: seq<ParamInfo>, e: (string, RuntimeValue)): Sorted
  {
    match RouteOf(ps, e.0)
    case ToArguments => c.(argVars := Set(true, c.argVars, e.0, e.1))
    case ToEnvironment => c.(envVars := Set(true, c.envVars, e.0, AsString(e.1)))
    case ToInput => c.(inputVars := Set(true, c.inputVars, e.0, e.1))
    case Ignored => c
  }

  /** After the first `n` parameters. */
  function SortedUpTo(ps: seq<ParamInfo>, parameters: seq<(string, RuntimeValue)>, n: nat): Sorted
    requires n <= |parameters|
  {
    if n == 0 then Sorted([], [], []) else SortOne(SortedUpTo(ps, parameters, n - 1), ps, parameters[n - 1])
  }

  /** The loop over `Parameters` (nothing when the property is null). */
  method SortParameters(ps: seq<ParamInfo>, parameters: Option<seq<(string, RuntimeValue)>>) returns (c: Sorted)
    ensures parameters.None? ==> c == Sorted([], [], [])
    ensures parameters.Some? ==> c == SortedUpTo(ps, parameters.value, |parameters.value|)
  {
    var inputVars: seq<(string, RuntimeValue)> := [];
    var envVars: seq<(string, Option<string>)> := [];
    var argVars: seq<(string, RuntimeValue)> := [];
    if parameters.None? {
      return Sorted([], [], []);
    }
    var pv := parameters.value;
    for i := 0 to |pv|
      invariant SortedUpTo(ps, pv, i) == Sorted(inputVars, envVars, argVars)
    {
      var paramValue := pv[i];
      var paramInfo := SHUtil.DeclaredAs(ps, paramValue.0);
      if paramInfo.None? || paramInfo.value.usage == Arguments || paramInfo.value.usage == Usage.Default {
        argVars := Set(true, argVars, paramValue.0, paramValue.1);
      } else if paramInfo.value.usage == EnvironmentVariable {
        envVars := Set(true, envVars, paramValue.0, AsString(paramValue.1));
      } else if paramInfo.value.usage == InputVariable {
        inputVars := Set(true, inputVars, paramValue.0, paramValue.1);
      }
    }
    return Sorted(inputVars, envVars, argVars);
  }

  /** The parameters among the first `n` that take route `r`, in order. */
  function Routed(ps: seq<ParamInfo>, parameters: seq<(string, RuntimeValue)>, n: nat, r: Route): seq<(string, RuntimeValue)>
    requires n <= |parameters|
  {
    if n == 0 then []
    else Routed(ps, parameters, n - 1, r) + (if RouteOf(ps, parameters[n - 1].0) == r then [parameters[n - 1]] else [])
  }

  /** Each value's text. */
  function Texts(es: seq<(string, RuntimeValue)>): (r: seq<(string, Option<string>)>)
    ensures |r| == |es|
    ensures forall i :: 0 <= i < |es| ==> r[i] == (es[i].0, AsString(es[i].1))
  {
    seq(|es|, i requires 0 <= i < |es| => (es[i].0, AsString(es[i].1)))
  }

  /** Sorting writes the arguments with exactly the parameters routed to them, in order. */
  lemma {:induction false} SortedArguments(ps: seq<ParamInfo>, parameters: seq<(string, RuntimeValue)>, n: nat)
    requires n <= |parameters|
    ensures SortedUpTo(ps, parameters, n).argVars == SetAll(true, [], Routed(ps, parameters, n, ToArguments))
  {
    if n > 0 {
      SortedArguments(ps, parameters, n - 1);
      var e := parameters[n - 1];
      var prev := Routed(ps, parameters, n - 1, ToArguments);
      if RouteOf(ps, e.0) == ToArguments {
        SetAllSnoc(true, [], prev, e);
      } else {
        assert Routed(ps, parameters, n, ToArguments) == prev + [] == prev;
      }
    }
  }

  /** Sorting writes the input variables with exactly the parameters routed to them, in order. */
  lemma {:induction false} SortedInputs(ps: seq<ParamInfo>, parameters: seq<(string, RuntimeValue)>, n: nat)
    requires n <= |parameters|
    ensures SortedUpTo(ps, parameters, n).inputVars == SetAll(true, [], Routed(ps, parameters, n, ToInput))
  {
    if n > 0 {
      SortedInputs(ps, parameters, n - 1);
      var e := parameters[n - 1];
      var prev := Routed(ps, parameters, n - 1, ToInput);
      if RouteOf(ps, e.0) == ToInput {
        SetAllSnoc(true, [], prev, e);
      } else {
        assert Routed(ps, parameters, n, ToInput) == prev + [] == prev;
      }
    }
  }

  /** Sorting writes the environment with the text of exactly the parameters routed to it, in order. */
  lemma {:induction false} SortedEnvironment(ps: seq<ParamInfo>, parameters: seq<(string, RuntimeValue)>, n: nat)
    requires n <= |parameters|
    ensures SortedUpTo(ps, parameters, n).envVars == SetAll(true, [], Texts(Routed(ps, parameters, n, ToEnvironment)))
  {
    if n > 0 {
      SortedEnvironment(ps, parameters, n - 1);
      var e := parameters[n - 1];
      var prev := Routed(ps, parameters, n - 1, ToEnvironment);
      if RouteOf(ps, e.0) == ToEnvironment {
        assert Routed(ps, parameters, n, ToEnvironment) == prev + [e];
        TextsSnoc(prev, e);
        SetAllSnoc(true, [], Texts(prev), (e.0, AsString(e.1)));
      } else {
        assert Routed(ps, parameters, n, ToEnvironment) == prev + [] == prev;
      }
    }
  }

  /** The text of one more value comes after the texts of the earlier ones. */
  lemma TextsSnoc(es: seq<(string, RuntimeValue)>, e: (string, RuntimeValue))
    ensures Texts(es + [e]) == Texts(es) + [(e.0, AsString(e.1))]
  {
    assert forall i :: 0 <= i < |es| ==> (es + [e])[i] == es[i];
  }

  /** The declaration found for a name does not depend on its case. */
  lemma {:induction false} DeclaredAsIgnoresCase(ps: seq<ParamInfo>, a: string, b: string)
    requires EqIC(a, b)
    ensures SHUtil.DeclaredAs(ps, a) == SHUtil.DeclaredAs(ps, b)
  {
    if ps != [] {
      EqICIsEquivalence(ps[0].name, a, b);
      EqICIsEquivalence(ps[0].name, b, a);
      EqICIsEquivalence(a, b, a);
      DeclaredAsIgnoresCase(ps[1..], a, b);
    }
  }

  /** No parameter routed elsewhere has a name equal to `k` ignoring case when `k` itself is routed to `d`... */
  lemma {:induction false} RoutedMatchesShareRoute(ps: seq<ParamInfo>, parameters: seq<(string, RuntimeValue)>, n: nat, r: Route, k: string)
    requires n <= |parameters| && RouteOf(ps, k) != r
    ensures LastMatch(true, Routed(ps, parameters, n, r), k).None?
  {
    if n > 0 {
      RoutedMatchesShareRoute(ps, parameters, n - 1, r, k);
      var e := parameters[n - 1];
      var prev := Routed(ps, parameters, n - 1, r);
      if RouteOf(ps, e.0) == r {
        LastMatchSnoc(true, prev, e, k);
        if EqIC(e.0, k) {
          DeclaredAsIgnoresCase(ps, e.0, k);
        }
      } else {
        assert Routed(ps, parameters, n, r) == prev + [] == prev;
      }
    }
  }

  /**
   * A parameter the script declares for output (or with any other
   * unsupported usage) reaches none of the arguments, the environment
   * and the input variables; a parameter routed to the arguments is read
   * there as the last value written under its name.
   */
  lemma IgnoredReachNothing(ps: seq<ParamInfo>, parameters: seq<(string, RuntimeValue)>, k: string)
    ensures RouteOf(ps, k) == Ignored ==>
      var c := SortedUpTo(ps, parameters, |parameters|);
      Get(true, c.argVars, k).None? && Get(true, c.envVars, k).None? && Get(true, c.inputVars, k).None?
    ensures RouteOf(ps, k) == ToArguments ==>
      Get(true, SortedUpTo(ps, parameters, |parameters|).argVars, k) == LastMatch(true, Routed(ps, parameters, |parameters|, ToArguments), k)
  {
    var n := |parameters|;
    SortedArguments(ps, parameters, n);
    SortedInputs(ps, parameters, n);
    SortedEnvironment(ps, parameters, n);
    var ins := Routed(ps, parameters, n, ToInput);
    var envs := Routed(ps, parameters, n, ToEnvironment);
    var args := Routed(ps, parameters, n, ToArguments);
    SetAllReads(true, [], ins, k);
    SetAllReads(true, [], Texts(envs), k);
    SetAllReads(true, [], args, k);
    if RouteOf(ps, k) == Ignored {
      RoutedMatchesShareRoute(ps, parameters, n, ToInput, k);
      RoutedMatchesShareRoute(ps, parameters, n, ToEnvironment, k);
      RoutedMatchesShareRoute(ps, parameters, n, ToArguments, k);
      TextsKeepMatches(envs, k);
    }
  }

  /** Taking each value's text keeps which keys match. */
  lemma {:induction false} TextsKeepMatches(es: seq<(string, RuntimeValue)>, k: string)
    ensures LastMatch(true, Texts(es), k).None? <==> LastMatch(true, es, k).None?
  {
    if es != [] {
      var init := es[..|es| - 1];
      TextsKeepMatches(init, k);
      assert Texts(es) == Texts(init) + [(es[|es| - 1].0, AsString(es[|es| - 1].1))];
      LastMatchSnoc(true, Texts(init), (es[|es| - 1].0, AsString(es[|es| - 1].1)), k);
      LastMatchSnoc(true, init, es[|es| - 1], k);
      assert init + [es[|es| - 1]] == es;
    }
  }

  // ---------------------------------------------------------------------------
  // The command line and the process

  /**
   * The explicit `Arguments` step as written: they are appended, behind a
   * space, only to a non-empty command line; otherwise nothing is appended.
   */
  function WithArgumentsAsWritten(commandLine: string, arguments: Option<string>): string
  {
    if IsNullOrEmpty(arguments) then commandLine
    else commandLine + (if commandLine == "" then "" else " " + arguments.value)
  }

  /** The explicit `Arguments` step corrected: they follow the command line behind a space, or stand alone when it is empty. */
  function WithArguments(commandLine: string, arguments: Option<string>): (r: string)
    ensures IsNullOrEmpty(arguments) ==> r == commandLine
    ensures !IsNullOrEmpty(arguments) ==> EndsWith(r, arguments.value)
    ensures !IsNullOrEmpty(arguments) && commandLine != "" ==> StartsWith(r, commandLine + " ")
  {
    if IsNullOrEmpty(arguments) then commandLine
    else if commandLine == "" then arguments.value
    else
      var r := commandLine + " " + arguments.value;
      assert r[|r| - |arguments.value|..] == arguments.value;
      assert r[..|commandLine + " "|] == commandLine + " ";
      r
  }

  /** The corrected step differs from the written one only where the command line is empty. */
  lemma WithArgumentsAgrees(commandLine: string, arguments: Option<string>)
    ensures commandLine != "" || IsNullOrEmpty(arguments) ==>
      WithArguments(commandLine, arguments) == WithArgumentsAsWritten(commandLine, arguments)
    ensures commandLine == "" && !IsNullOrEmpty(arguments) ==>
      WithArgumentsAsWritten(commandLine, arguments) == "" && WithArguments(commandLine, arguments) == arguments.value
  {
  }

  /** `cmd.exe`'s arguments: run the file, then the command line behind a space when there is one. */
  function ProcessArguments(fileName: string, commandLine: string): (r: string)
    ensures StartsWith(r, "/c " + fileName)
    ensures commandLine == "" ==> r == "/c " + fileName
    ensures commandLine != "" ==> r[|"/c " + fileName|..] == " " + commandLine
  {
    var head := "/c " + fileName;
    var r := head + (if commandLine == "" then "" else " " + commandLine);
    assert r[..|head|] == head;
    r
  }

  /**
   * As written, a batch script without an arguments format never sees the
   * operation's `Arguments`: the process gets only the file.
   */
  lemma ArgumentsDroppedWithoutFormat(fileName: string, arguments: string)
    requires arguments != ""
    ensures ProcessArguments(fileName, WithArgumentsAsWritten("", Some(arguments))) == "/c " + fileName
    ensures ProcessArguments(fileName, WithArguments("", Some(arguments))) == "/c " + fileName + " " + arguments
  {
  }

  /** The text logged when the raft has no such script, as written: it interpolates the missing item, so it names nothing. */
  function NotFoundMessageAsWritten(scriptName: string): string
  {
    "" + " was not found."
  }

  /** The text logged when the raft has no such script, naming it. */
  function NotFoundMessage(scriptName: string): (r: string)
    ensures StartsWith(r, scriptName)
  {
    var r := scriptName + " was not found.";
    assert r[..|scriptName|] == scriptName;
    r
  }

  /** As written, the not-found message is the same for every script name; the corrected one tells names apart. */
  lemma NotFoundMessageNamesNothing(a: string, b: string)
    ensures NotFoundMessageAsWritten(a) == NotFoundMessageAsWritten(b)
    ensures a != b && |a| == |b| ==> NotFoundMessage(a) != NotFoundMessage(b)
  {
    if a != b && |a| == |b| {
      assert NotFoundMessage(a)[..|a|] == a;
      assert NotFoundMessage(b)[..|b|] == b;
    }
  }

  // ---------------------------------------------------------------------------
  // `AddRange`

  /** A collection whose `Add` appends. */
  class ItemList<T> {
    var items: seq<T>

    constructor()
      ensures items == []
    {
      items := [];
    }

    method Add(x: T)
      modifies this
      ensures items == old(items) + [x]
    {
      items := items + [x];
    }
  }

  /** `AddRange`: a null collection or range throws; otherwise every item is added, in order. */
  method AddRange<T>(source: ItemList?<T>, range: Option<seq<T>>) returns (r: Result<()>)
    modifies source
    ensures source == null ==> r == Err("ArgumentNullException")
    ensures source != null && range.None? ==> r == Err("ArgumentNullException") && source.items == old(source.items)
    ensures source != null && range.Some? ==> r == Ok(()) && source.items == old(source.items) + range.value
  {
    if source == null {
      return Err("ArgumentNullException");
    }
    if range.None? {
      return Err("ArgumentNullException");
    }
    var rs := range.value;
    for i := 0 to |rs|
      invariant source.items == old(source.items) + rs[..i]
    {
      source.Add(rs[i]);
      assert rs[..i + 1] == rs[..i] + [rs[i]];
    }
    assert rs[..|rs|] == rs;
    return Ok(());
  }

  // ---------------------------------------------------------------------------
  // `ExecuteAsync`

  /** The operation's properties; a null dictionary or text is `None`. */
  datatype BatCallOperation = BatCallOperation(
    scriptName: string,
    arguments: Option<string>,
    environmentVariables: Option<seq<(string, string)>>,
    parameters: Option<seq<(string, RuntimeValue)>>)

  /** The process the operation starts. */
  datatype ProcessStart = ProcessStart(fileName: string, arguments: string, workingDirectory: string, environment: seq<(string, string)>)

  /** The command line from the arguments after defaults, and the warning when there is no format to carry them. */
  function CommandLineOf(op: BatCallOperation, info: ScriptInfo, expand: (string, seq<(string, RuntimeValue)>) -> string): (string, seq<LogMessage>)
  {
    var sorted := if op.parameters.None? then Sorted([], [], []) else SortedUpTo(info.parameters, op.parameters.value, |op.parameters.value|);
    SHUtil.CommandLine(SHUtil.WithDefaults(sorted.argVars, info.parameters, |info.parameters|), info.argsFormat, expand)
  }

  /**
   * What `ExecuteAsync` starts for a script found in the raft: `cmd.exe`
   * in the working directory, running `fileName` (the script's name in the
   * working directory) with the command line, then the explicit arguments
   * as written (dropped when the command line is empty), and with the
   * operation's environment variables.
   */
  function Started(op: BatCallOperation, info: ScriptInfo, workingDirectory: string, fileName: string,
                   expand: (string, seq<(string, RuntimeValue)>) -> string): (r: ProcessStart)
    ensures r.fileName == "cmd.exe" && r.workingDirectory == workingDirectory
    ensures r.environment == op.environmentVariables.GetOr([])
    ensures CommandLineOf(op, info, expand).0 == "" ==> r.arguments == "/c " + fileName
    ensures CommandLineOf(op, info, expand).0 != "" ==>
      r.arguments == "/c " + fileName + " " + WithArguments(CommandLineOf(op, info, expand).0, op.arguments)
  {
    var commandLine := CommandLineOf(op, info, expand).0;
    WithArgumentsAgrees(commandLine, op.arguments);
    ProcessStart("cmd.exe", ProcessArguments(fileName, WithArgumentsAsWritten(commandLine, op.arguments)),
      workingDirectory, op.environmentVariables.GetOr([]))
  }

  /** The script's header as the batch script parser reads it from the raft item's text. */
  function ParsedScript(content: string, parse: string -> Result<ParamInfo>, validate: string -> Option<string>): ScriptInfo
  {
    WindowsBatchScriptParser.ParseSections(WindowsBatchScriptParser.HeaderSections(ShellRun.ReadLines(content)), parse, validate)
  }

  /** The debug line logged before the script file is written. */
  function Creating(fileName: string): string
  {
    "Creating file \"" + fileName + "\"..."
  }

  /** The debug line logged when the script file is deleted. */
  function Deleting(fileName: string): string
  {
    "Deleting file \"" + fileName + "\"..."
  }

  /**
   * `ExecuteAsync` up to starting the process. `content` is the raft item's
   * content (`None` when the raft has no such script), parsed with the
   * batch script parser; `parse` and `validate` stand for its parameter
   * parser and its format check. The file is written before the process
   * starts and deleted after it ends, whatever happens.
   */
  method ExecuteAsync(op: BatCallOperation, content: Option<string>,
                      parse: string -> Result<ParamInfo>, validate: string -> Option<string>,
                      workingDirectory: string, fileName: string,
                      expand: (string, seq<(string, RuntimeValue)>) -> string)
    returns (start: Option<ProcessStart>, log: seq<LogMessage>)
    ensures content.None? ==> start.None? && log == [LogMessage(Error, NotFoundMessageAsWritten(op.scriptName))]
    ensures content.Some? ==> start == Some(Started(op, ParsedScript(content.value, parse, validate), workingDirectory, fileName, expand))
    ensures content.Some? ==>
      log == CommandLineOf(op, ParsedScript(content.value, parse, validate), expand).1
        + [LogMessage(Debug, Creating(fileName)), LogMessage(Debug, Deleting(fileName))]
  {
    if content.None? {
      return None, [LogMessage(Error, NotFoundMessageAsWritten(op.scriptName))];
    }
    var info := WindowsBatchScriptParser.Parse(ShellRun.ReadLines(content.value), parse, validate);
    var sorted := SortParameters(info.parameters, op.parameters);
    var argVars := SHUtil.FillDefaults(sorted.argVars, info.parameters);
    var commandLine := SHUtil.CommandLine(argVars, info.argsFormat, expand);
    log := commandLine.1;
    var commandLineArgs := WithArgumentsAsWritten(commandLine.0, op.arguments);
    var environment := new ItemList<(string, string)>();
    if op.environmentVariables.Some? {
      var _ := AddRange(environment, op.environmentVariables);
    }
    assert commandLine == CommandLineOf(op, info, expand);
    assert environment.items == op.environmentVariables.GetOr([]);
    start := Some(ProcessStart("cmd.exe", ProcessArguments(fileName, commandLineArgs), workingDirectory, environment.items));
    log := log + [LogMessage(Debug, Creating(fileName)), LogMessage(Debug, Deleting(fileName))];
  }

  // ---------------------------------------------------------------------------
  // Reading the process's lines

  predicate IsAsciiUpper(c: char)
  {
    'A' <= c <= 'Z'
  }

  /** What `.*$` leaves of the text after the colon: all of it without line feeds, or all but a final line feed; else no match. */
  function LineTail(rest: string): (r: Option<string>)
    ensures r.Some? ==> '\n' !in r.value && (rest == r.value || rest == r.value + "\n")
    ensures r.None? <==> '\n' in rest && !('\n' !in rest[..|rest| - 1] && rest[|rest| - 1] == '\n')
  {
    if '\n' !in rest then Some(rest)
    else if rest[|rest| - 1] == '\n' && '\n' !in rest[..|rest| - 1] then
      assert rest == rest[..|rest| - 1] + "\n";
      Some(rest[..|rest| - 1])
    else None
  }

  /** The pattern matches at `p` with level name `text[p..q]`: a run of capitals, then a colon, then the rest of the line. */
  predicate MatchesAt(text: string, p: nat, q: nat)
  {
    p < q < |text| && (forall j :: p <= j < q ==> IsAsciiUpper(text[j])) && text[q] == ':' && LineTail(text[q + 1..]).Some?
  }

  /**
   * The unanchored pattern `(?<1>[A-Z]+):(?<2>.*)$` tried from each start
   * position in turn: at a capital, the longest run of capitals must be
   * followed by a colon and the rest of the line.
   */
  function MatchFrom(text: string, p: nat): (r: Option<(string, string)>)
    requires p <= |text|
    decreases |text| - p
  {
    if p == |text| then None
    else if IsAsciiUpper(text[p]) then
      var q := Skip(text, p, IsAsciiUpper);
      if q < |text| && text[q] == ':' && LineTail(text[q + 1..]).Some? then Some((text[p..q], LineTail(text[q + 1..]).value))
      else MatchFrom(text, p + 1)
    else MatchFrom(text, p + 1)
  }

  /** At a position that starts no match, the search moves on to the next one. */
  lemma NoMatchHere(text: string, p: nat)
    requires p < |text|
    requires forall q: nat :: !MatchesAt(text, p, q)
    ensures MatchFrom(text, p) == MatchFrom(text, p + 1)
  {
    if IsAsciiUpper(text[p]) {
      var q := Skip(text, p, IsAsciiUpper);
      assert !MatchesAt(text, p, q);
    }
  }

  /** Where the pattern matches at `p`, the search from `p` stops there with its captures. */
  lemma MatchHere(text: string, p: nat, q: nat)
    requires MatchesAt(text, p, q)
    ensures MatchFrom(text, p) == Some((text[p..q], LineTail(text[q + 1..]).value))
  {
    SkipTo(text, p, q, IsAsciiUpper);
  }

  /** A match found is the pattern matching at some position, with the level name and message it captures. */
  lemma {:induction false} MatchFromSound(text: string, p: nat)
    requires p <= |text|
    ensures MatchFrom(text, p).Some? ==>
      exists i: nat, q: nat :: p <= i && MatchesAt(text, i, q) && MatchFrom(text, p).value == (text[i..q], LineTail(text[q + 1..]).value)
    decreases |text| - p
  {
    if p < |text| {
      MatchFromSound(text, p + 1);
      if IsAsciiUpper(text[p]) {
        var q := Skip(text, p, IsAsciiUpper);
        if q < |text| && text[q] == ':' && LineTail(text[q + 1..]).Some? {
          assert MatchesAt(text, p, q);
        }
      }
    }
  }

  /** Wherever the pattern matches at or after `p`, the search from `p` finds a match. */
  lemma {:induction false} MatchFromComplete(text: string, p: nat, i: nat, q: nat)
    requires p <= i && MatchesAt(text, i, q)
    ensures MatchFrom(text, p).Some?
    decreases i - p
  {
    if p < i {
      if !(IsAsciiUpper(text[p]) && var q0 := Skip(text, p, IsAsciiUpper); q0 < |text| && text[q0] == ':' && LineTail(text[q0 + 1..]).Some?) {
        MatchFromComplete(text, p + 1, i, q);
      }
    } else {
      MatchHere(text, p, q);
    }
  }

  /** The match found is the leftmost: the first position where the pattern matches, with the captures made there. */
  lemma {:induction false} MatchFromLeftmost(text: string, p: nat, i: nat, q: nat)
    requires p <= i && MatchesAt(text, i, q)
    requires forall i': nat, q': nat :: p <= i' < i ==> !MatchesAt(text, i', q')
    ensures MatchFrom(text, p) == Some((text[i..q], LineTail(text[q + 1..]).value))
    decreases i - p
  {
    if p < i {
      NoMatchHere(text, p);
      MatchFromLeftmost(text, p + 1, i, q);
    } else {
      MatchHere(text, p, q);
    }
  }

  /** The level a line on standard output names; `SUCCESS` is information, anything unknown is debug. */
  function OutputLevel(name: string): MessageLevel
  {
    match name
    case "DEBUG" => Debug
    case "INFO" => Information
    case "SUCCESS" => Information
    case "WARNING" => Warning
    case "ERROR" => Error
    case "CRITICAL" => Error
    case _ => Debug
  }

  /** The level a line on standard error names; anything unknown, `SUCCESS` included, is debug. */
  function ErrorLevel(name: string): MessageLevel
  {
    match name
    case "DEBUG" => Debug
    case "INFO" => Information
    case "WARNING" => Warning
    case "ERROR" => Error
    case "CRITICAL" => Error
    case _ => Debug
  }

  /** The two maps agree on every name but `SUCCESS`. */
  lemma LevelMapsDiffer(name: string)
    ensures OutputLevel(name) == (if name == "SUCCESS" then Information else ErrorLevel(name))
    ensures ErrorLevel("SUCCESS") == Debug
  {
  }

  /** `LogProcessOutput`: a matching line is logged at its level with the captured message, any other line as debug. */
  function OutputMessage(text: string): LogMessage
  {
    match MatchFrom(text, 0)
    case Some((name, message)) => LogMessage(OutputLevel(name), message)
    case None => LogMessage(Debug, text)
  }

  /** `LogProcessError`, with the error map. */
  function ErrorMessage(text: string): LogMessage
  {
    match MatchFrom(text, 0)
    case Some((name, message)) => LogMessage(ErrorLevel(name), message)
    case None => LogMessage(Debug, text)
  }

  /** A line written as `NAME:message` is read back at its level with its message. */
  lemma RecordReadsBack(name: string, message: string)
    requires name != [] && forall i :: 0 <= i < |name| ==> IsAsciiUpper(name[i])
    requires '\n' !in message
    ensures OutputMessage(name + ":" + message) == LogMessage(OutputLevel(name), message)
    ensures ErrorMessage(name + ":" + message) == LogMessage(ErrorLevel(name), message)
  {
    var text := name + ":" + message;
    assert forall j :: 0 <= j < |name| ==> text[j] == name[j];
    assert text[|name|] == ':';
    var q := Skip(text, 0, IsAsciiUpper);
    assert q == |name|;
    assert text[..q] == name;
    assert text[q + 1..] == message;
  }

  /**
   * The pattern is not anchored at the start: a Windows path such as
   * `C:\x` reads as level `C`, which is debug, with message `\x`.
   */
  lemma DriveLetterIsLevel()
    ensures OutputMessage("C:\\x") == LogMessage(Debug, "\\x")
  {
    RecordReadsBack("C", "\\x");
    assert "C" + ":" + "\\x" == "C:\\x";
  }

  /** A line that holds no colon is logged as debug, unchanged. */
  lemma NoColonIsDebug(text: string)
    requires ':' !in text
    ensures OutputMessage(text) == LogMessage(Debug, text)
    ensures ErrorMessage(text) == LogMessage(Debug, text)
  {
    MatchFromSound(text, 0);
  }
}
