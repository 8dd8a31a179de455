/**
 * The shell runner of `SHUtil`: script names and assets, the lines of the
 * temporary script file, and the reading of the script's standard output,
 * where a line that carries the out-variable prefix reports one
 * out-variable. The agent's file system and process are an input: the
 * process is a function from the script file's text and the command line
 * to what the process reports.
 */
module ShellRun {
  import opened Common
  import opened RuntimeValues
  import opened ScriptResults

  // ---------------------------------------------------------------------------
  // Script names

  /**
   * `SplitScriptName`: a name splits at its first "::" into a raft name and
   * an item name; a name without "::" names an item of no particular raft;
   * a null or empty name throws `ArgumentNullException`.
   */
  function SplitScriptName(scriptName: Option<string>): (r: Result<(Option<string>, string)>)
    ensures r.Err? <==> IsNullOrEmpty(scriptName)
    ensures r.Ok? && r.value.0.None? ==> r.value.1 == scriptName.value && !Contains(scriptName.value, "::")
    ensures r.Ok? && r.value.0.Some? ==> r.value.0.value + "::" + r.value.1 == scriptName.value
  {
    if IsNullOrEmpty(scriptName) then Err("ArgumentNullException")
    else
      var s := scriptName.value;
      var sep := IndexOf(s, "::");
      if sep == -1 then Ok((None, s))
      else
        assert s[sep..sep + 2] == "::";
        assert s == s[..sep] + s[sep..sep + 2] + s[sep + 2..];
        Ok((Some(s[..sep]), s[sep + 2..]))
  }

  /** The raft name of a split name holds no "::": the split is at the first one. */
  lemma SplitRaftHasNoSeparator(scriptName: Option<string>)
    requires SplitScriptName(scriptName).Ok? && SplitScriptName(scriptName).value.0.Some?
    ensures !Contains(SplitScriptName(scriptName).value.0.value, "::")
  {
    var s := scriptName.value;
    var sep := IndexOf(s, "::");
    var raft := s[..sep];
    forall j | 0 <= j ensures !OccursAt(raft, "::", j) {
      if OccursAt(raft, "::", j) {
        assert s[j..j + 2] == raft[j..j + 2];
        assert OccursAt(s, "::", j);
      }
    }
  }

  /**
   * Joining a raft name and an item name with "::" splits back into both,
   * provided the raft name holds no "::" and does not end in ':' (either
   * would move the first "::").
   */
  lemma JoinedNameSplits(raft: string, item: string)
    requires !Contains(raft + ":", "::")
    ensures SplitScriptName(Some(raft + "::" + item)) == Ok((Some(raft), item))
  {
    var s := raft + "::" + item;
    var t := raft + ":";
    assert OccursAt(s, "::", |raft|);
    forall j | 0 <= j < |raft| ensures !OccursAt(s, "::", j) {
      assert !OccursAt(t, "::", j);
      assert s[j..j + 2] == t[j..j + 2];
    }
    var sep := IndexOf(s, "::");
    assert sep == |raft|;
    assert s[..sep] == raft;
    assert s[sep + 2..] == item;
  }

  /** The asset name of a shell script: ".sh" is appended unless the name already ends with it, ignoring case. */
  function ShScriptName(name: string): (r: string)
    ensures EndsWithIC(r, ".sh")
    ensures EndsWithIC(name, ".sh") ==> r == name
    ensures |name| <= |r| && r[..|name|] == name
  {
    if EndsWithIC(name, ".sh") then name
    else
      var r := name + ".sh";
      assert r[|name|..] == ".sh";
      r
  }

  /** Naming an asset is idempotent. */
  lemma ShScriptNameIdempotent(name: string)
    ensures ShScriptName(ShScriptName(name)) == ShScriptName(name)
  {
  }

  /**
   * `GetScriptAsset` and `OpenScriptAsset`: the content of the asset under
   * its ".sh" name (`raft` standing for the raft lookup), or null after an
   * error saying which name was not found.
   */
  function FindScript(name: string, raft: string -> Option<string>): (r: (Option<string>, seq<LogMessage>))
    ensures r.0 == raft(ShScriptName(name))
    ensures r.1 == [] <==> r.0.Some?
    ensures r.0.None? ==> r.1 == [LogMessage(Error, "Could not find script " + ShScriptName(name) + ".")]
  {
    var scriptName := ShScriptName(name);
    match raft(scriptName)
    case None => (None, [LogMessage(Error, "Could not find script " + scriptName + ".")])
    case Some(content) => (Some(content), [])
  }

  // ---------------------------------------------------------------------------
  // Reading the script line by line

  predicate IsLineBreak(c: char)
  {
    c == '\r' || c == '\n'
  }

  predicate NoBreaks(x: string)
  {
    forall j :: 0 <= j < |x| ==> !IsLineBreak(x[j])
  }

  /**
   * One `StringReader.ReadLine` on non-empty text: the characters up to the
   * first line break, and the text after that break, where "\r\n" is one
   * break.
   */
  function NextLine(s: string): (r: (string, string))
    requires s != []
    ensures NoBreaks(r.0) && |r.1| < |s|
  {
    var k := Skip(s, 0, c => !IsLineBreak(c));
    if k == |s| then (s, [])
    else if s[k] == '\r' && k + 1 < |s| && s[k + 1] == '\n' then (s[..k], s[k + 2..])
    else (s[..k], s[k + 1..])
  }

  /** The lines `ReadLine` yields until it returns null: a final line break starts no further line. */
  function ReadLines(s: string): (r: seq<string>)
    ensures forall i :: 0 <= i < |r| ==> NoBreaks(r[i])
    decreases |s|
  {
    if s == [] then [] else var p := NextLine(s); [p.0] + ReadLines(p.1)
  }

  /** Lines written by `WriteLine` with "\n" as the line end read back as the same lines. */
  lemma {:induction false} ReadWrittenLines(lines: seq<string>)
    requires forall i :: 0 <= i < |lines| ==> NoBreaks(lines[i])
    ensures ReadLines(LinesText(lines)) == lines
  {
    if lines != [] {
      var x := lines[0];
      var rest := LinesText(lines[1..]);
      var s := LinesText(lines);
      assert s == x + ("\n" + rest);
      SkipOver(x, "\n" + rest, 0, c => !IsLineBreak(c));
      assert s[|x|] == '\n';
      assert s[..|x|] == x;
      assert s[|x| + 1..] == rest;
      assert NextLine(s) == (x, rest);
      ReadWrittenLines(lines[1..]);
      assert lines == [x] + lines[1..];
    }
  }

  /** Copying a script line by line changes it at most once: the copy of the copy has the same lines. */
  lemma RewriteKeepsLines(s: string)
    ensures ReadLines(LinesText(ReadLines(s))) == ReadLines(s)
  {
    ReadWrittenLines(ReadLines(s));
  }

  // ---------------------------------------------------------------------------
  // The script file

  const OutVarPrefix: string := "!|OtterScriptOutVars|!"

  /** `ShellStartInfo`; a null dictionary or list is `None`. */
  datatype ShellStartInfo = ShellStartInfo(
    scriptText: string,
    injectedVariables: Option<seq<(string, RuntimeValue)>>,
    outVariables: Option<seq<string>>,
    commandLineArguments: string)

  /** The assignment written for an injected variable, `render` standing for `RuntimeValue.ToString`. */
  function Injection(e: (string, RuntimeValue), render: RuntimeValue -> string): string
  {
    e.0 + "=\"" + render(e.1) + "\""
  }

  function Injections(vars: Option<seq<(string, RuntimeValue)>>, render: RuntimeValue -> string): (r: seq<string>)
    ensures vars.None? ==> r == []
    ensures vars.Some? ==> |r| == |vars.value| && forall i :: 0 <= i < |r| ==> r[i] == Injection(vars.value[i], render)
  {
    if vars.None? then [] else seq(|vars.value|, i requires 0 <= i < |vars.value| => Injection(vars.value[i], render))
  }

  /** The line that prints an out-variable's name and value behind the prefix. */
  function EchoLine(name: string): string
  {
    "echo \"" + OutVarPrefix + name + ":$" + name + "\""
  }

  function Echoes(names: seq<string>): (r: seq<string>)
    ensures |r| == |names| && forall i :: 0 <= i < |r| ==> r[i] == EchoLine(names[i])
  {
    seq(|names|, i requires 0 <= i < |names| => EchoLine(names[i]))
  }

  /** Out-variables are requested: the script is wrapped in a function. */
  predicate Wraps(info: ShellStartInfo)
  {
    info.outVariables.Some? && |info.outVariables.value| > 0
  }

  const WrapperOpen: string := "AhScriptWrapper() {"
  const WrapperClose: string := "}"
  const WrapperCall: string := "AhScriptWrapper"

  /**
   * The lines of the script file: one assignment per injected variable;
   * then, with out-variables, the script's lines inside `AhScriptWrapper`,
   * a call to it and one echo line per out-variable, or else the script's
   * lines alone.
   */
  function ScriptLines(info: ShellStartInfo, render: RuntimeValue -> string): seq<string>
  {
    var pre := Injections(info.injectedVariables, render);
    var body := ReadLines(info.scriptText);
    if Wraps(info) then pre + [WrapperOpen] + body + [WrapperClose, WrapperCall] + Echoes(info.outVariables.value)
    else pre + body
  }

  /**
   * The file begins with the assignments. With out-variables the script's
   * lines sit intact between the wrapper's opening and closing lines, the
   * call follows, and the file ends with one echo line per out-variable in
   * order; without them the script's lines follow the assignments directly.
   */
  lemma ScriptLinesLayout(info: ShellStartInfo, render: RuntimeValue -> string)
    ensures var r := ScriptLines(info, render);
      var pre := Injections(info.injectedVariables, render);
      var body := ReadLines(info.scriptText);
      |pre| <= |r| && r[..|pre|] == pre &&
      (!Wraps(info) ==> r[|pre|..] == body) &&
      (Wraps(info) ==>
        var outs := info.outVariables.value;
        var b := |pre| + 1 + |body|;
        |r| == b + 2 + |outs| &&
        r[|pre|] == WrapperOpen && r[|pre| + 1..b] == body && r[b] == WrapperClose && r[b + 1] == WrapperCall &&
        forall i :: 0 <= i < |outs| ==> r[b + 2 + i] == EchoLine(outs[i]))
  {
    var r := ScriptLines(info, render);
    var pre := Injections(info.injectedVariables, render);
    var body := ReadLines(info.scriptText);
    if Wraps(info) {
      var outs := info.outVariables.value;
      var b := |pre| + 1 + |body|;
      assert r == pre + [WrapperOpen] + body + [WrapperClose, WrapperCall] + Echoes(outs);
      assert r[|pre| + 1..b] == body;
      forall i | 0 <= i < |outs| ensures r[b + 2 + i] == EchoLine(outs[i]) {
        assert r[b + 2 + i] == Echoes(outs)[i];
      }
    } else {
      assert r == pre + body;
    }
  }

  /** `ReadLine` until it returns null. */
  method ReadAll(text: string) returns (lines: seq<string>)
    ensures lines == ReadLines(text)
  {
    lines := [];
    var rest := text;
    while rest != []
      invariant lines + ReadLines(rest) == ReadLines(text)
      decreases |rest|
    {
      var line := NextLine(rest);
      lines := lines + [line.0];
      rest := line.1;
    }
  }

  /** The writer: the assignments, the wrapper's head, the script read line by line, the wrapper's tail and the echo lines. */
  method WriteScript(info: ShellStartInfo, render: RuntimeValue -> string) returns (lines: seq<string>)
    ensures lines == ScriptLines(info, render)
  {
    lines := [];
    if info.injectedVariables.Some? {
      var vars := info.injectedVariables.value;
      for i := 0 to |vars|
        invariant lines == Injections(info.injectedVariables, render)[..i]
      {
        lines := lines + [vars[i].0 + "=\"" + render(vars[i].1) + "\""];
      }
    }
    ghost var pre := Injections(info.injectedVariables, render);
    assert lines == pre;
    if Wraps(info) {
      lines := lines + [WrapperOpen];
    }
    var body := ReadAll(info.scriptText);
    lines := lines + body;
    if Wraps(info) {
      lines := lines + [WrapperClose, WrapperCall];
      var outs := info.outVariables.value;
      ghost var tail := lines;
      for i := 0 to |outs|
        invariant lines == tail + Echoes(outs)[..i]
      {
        lines := lines + ["echo \"" + OutVarPrefix + outs[i] + ":$" + outs[i] + "\""];
      }
      assert Echoes(outs)[..|outs|] == Echoes(outs);
    }
  }

  // ---------------------------------------------------------------------------
  // Reading the standard output

  /** A line of standard output: an out-variable report, or text to log. */
  datatype OutputLine = OutVarLine(key: string, value: string) | PlainLine(text: string)

  /**
   * A line with the prefix splits after it at the first ':' into name and
   * value; a prefixed line without ':' throws, as `Substring(0, -1)` does;
   * any other line is logged as it is.
   */
  function ParseOutputLine(data: string): (r: Result<OutputLine>)
    ensures !StartsWith(data, OutVarPrefix) ==> r == Ok(PlainLine(data))
    ensures StartsWith(data, OutVarPrefix) ==> (r.Err? <==> ':' !in data[|OutVarPrefix|..])
    ensures r.Ok? && r.value.OutVarLine? ==> ':' !in r.value.key && data == OutVarPrefix + r.value.key + ":" + r.value.value
  {
    if StartsWith(data, OutVarPrefix) then
      var outVar := data[|OutVarPrefix|..];
      var i := IndexOfChar(outVar, ':');
      if i < 0 then Err("ArgumentOutOfRangeException")
      else
        assert ':' !in outVar[..i];
        assert outVar == outVar[..i] + ":" + outVar[i + 1..];
        assert data == OutVarPrefix + outVar;
        Ok(OutVarLine(outVar[..i], outVar[i + 1..]))
    else Ok(PlainLine(data))
  }

  /** The line the shell prints for `EchoLine(name)` when the variable holds `value`. */
  function EchoedLine(name: string, value: string): string
  {
    OutVarPrefix + name + ":" + value
  }

  /** An echoed out-variable reads back as its own name and value, whatever the value holds. */
  lemma EchoedLineParses(name: string, value: string)
    requires ':' !in name
    ensures ParseOutputLine(EchoedLine(name, value)) == Ok(OutVarLine(name, value))
  {
    var data := EchoedLine(name, value);
    assert data[..|OutVarPrefix|] == OutVarPrefix;
    var outVar := data[|OutVarPrefix|..];
    assert outVar == name + ":" + value;
    assert outVar[|name|] == ':';
    assert IndexOfChar(outVar, ':') == |name|;
    assert outVar[..|name|] == name && outVar[|name| + 1..] == value;
  }

  /** What the output handler has gathered: the out-values (`Dictionary.Add`, ordinal keys) and the logged lines. */
  datatype Collected = Collected(outValues: seq<(string, RuntimeValue)>, log: seq<LogMessage>)

  /** The handler on one line; a malformed report or a repeated name throws. */
  function Receive(c: Collected, line: string, level: MessageLevel): Result<Collected>
  {
    match ParseOutputLine(line)
    case Err(m) => Err(m)
    case Ok(PlainLine(t)) => Ok(c.(log := c.log + [LogMessage(level, t)]))
    case Ok(OutVarLine(k, v)) =>
      (match Add(false, c.outValues, k, Str(v))
       case Err(m) => Err(m)
       case Ok(d) => Ok(c.(outValues := d)))
  }

  /** After the first `n` lines; the first exception ends the run. */
  function Received(lines: seq<string>, n: nat, level: MessageLevel): Result<Collected>
    requires n <= |lines|
  {
    if n == 0 then Ok(Collected([], []))
    else
      var c := Received(lines, n - 1, level);
      if c.Err? then c else Receive(c.value, lines[n - 1], level)
  }

  lemma {:induction false} ReceivedStaysErr(lines: seq<string>, m: nat, n: nat, level: MessageLevel)
    requires m <= n <= |lines| && Received(lines, m, level).Err?
    ensures Received(lines, n, level) == Received(lines, m, level)
    decreases n
  {
    if n > m {
      ReceivedStaysErr(lines, m, n - 1, level);
      assert Received(lines, n, level) == Received(lines, n - 1, level);
    }
  }

  /** One more line is handled on what the earlier lines gathered. */
  lemma ReceivedNext(lines: seq<string>, i: nat, level: MessageLevel)
    requires i < |lines| && Received(lines, i, level).Ok?
    ensures Received(lines, i + 1, level) == Receive(Received(lines, i, level).value, lines[i], level)
  {
  }

  /** The handler on one line, spelled out as the steps `OutputDataReceived` takes. */
  lemma ReceiveLine(c: Collected, data: string, level: MessageLevel)
    ensures !StartsWith(data, OutVarPrefix) ==> Receive(c, data, level) == Ok(c.(log := c.log + [LogMessage(level, data)]))
    ensures StartsWith(data, OutVarPrefix) ==>
      var outVar := data[|OutVarPrefix|..];
      var sep := IndexOfChar(outVar, ':');
      if sep < 0 then Receive(c, data, level) == Err("ArgumentOutOfRangeException")
      else
        var added := Add(false, c.outValues, outVar[..sep], Str(outVar[sep + 1..]));
        Receive(c, data, level) == if added.Err? then Err(added.error) else Ok(c.(outValues := added.value))
  {
  }

  /**
   * How many of the first `n` lines the handler gets through: all of them
   * when none throws, otherwise those before the first that throws.
   */
  function HandledLines(lines: seq<string>, n: nat, level: MessageLevel): (k: nat)
    requires n <= |lines|
    ensures k <= n && Received(lines, k, level).Ok?
    ensures k < n ==> Received(lines, k + 1, level).Err?
  {
    if n == 0 || Received(lines, n, level).Ok? then n else HandledLines(lines, n - 1, level)
  }

  /** Past the first line that throws, the handler gets no further. */
  lemma {:induction false} HandledLinesStop(lines: seq<string>, i: nat, n: nat, level: MessageLevel)
    requires i < n <= |lines| && Received(lines, i, level).Ok? && Received(lines, i + 1, level).Err?
    ensures HandledLines(lines, n, level) == i
    decreases n
  {
    if n > i + 1 {
      HandledLinesStop(lines, i, n - 1, level);
      ReceivedStaysErr(lines, i + 1, n, level);
    }
  }

  /** When line `i` throws, the run ends with it and the log holds the other lines before it. */
  lemma ThrowsAt(lines: seq<string>, i: nat, level: MessageLevel)
    requires i < |lines| && Received(lines, i, level).Ok? && Received(lines, i + 1, level).Err?
    ensures Received(lines, |lines|, level) == Received(lines, i + 1, level)
    ensures HandledLines(lines, |lines|, level) == i
    ensures PlainLog(lines, i, level) == Received(lines, i, level).value.log
  {
    ReceivedStaysErr(lines, i + 1, |lines|, level);
    HandledLinesStop(lines, i, |lines|, level);
    ReceivedReports(lines, i, level);
  }

  /**
   * The `OutputDataReceived` handler applied to each line in turn; `logged`
   * is what it logged, the other lines before the one that throws when one
   * does.
   */
  method ReceiveOutput(lines: seq<string>, level: MessageLevel) returns (r: Result<Collected>, logged: seq<LogMessage>)
    ensures r == Received(lines, |lines|, level)
    ensures logged == PlainLog(lines, HandledLines(lines, |lines|, level), level)
    ensures r.Ok? ==> r.value.log == logged
  {
    var outValues: seq<(string, RuntimeValue)> := [];
    var log: seq<LogMessage> := [];
    for i := 0 to |lines|
      invariant Received(lines, i, level) == Ok(Collected(outValues, log))
    {
      var data := lines[i];
      ReceivedNext(lines, i, level);
      ReceiveLine(Collected(outValues, log), data, level);
      if StartsWith(data, OutVarPrefix) {
        var outVar := data[|OutVarPrefix|..];
        var sep := IndexOfChar(outVar, ':');
        if sep < 0 {
          ThrowsAt(lines, i, level);
          return Err("ArgumentOutOfRangeException"), log;
        }
        var added := Add(false, outValues, outVar[..sep], Str(outVar[sep + 1..]));
        if added.Err? {
          ThrowsAt(lines, i, level);
          return Err(added.error), log;
        }
        outValues := added.value;
      } else {
        log := log + [LogMessage(level, data)];
      }
    }
    ReceivedReports(lines, |lines|, level);
    return Ok(Collected(outValues, log)), log;
  }

  /** The reports among the first `n` lines, as (name, value) pairs in order. */
  function Reports(lines: seq<string>, n: nat): seq<(string, RuntimeValue)>
    requires n <= |lines|
  {
    if n == 0 then []
    else
      var p := ParseOutputLine(lines[n - 1]);
      Reports(lines, n - 1) + (if p.Ok? && p.value.OutVarLine? then [(p.value.key, Str(p.value.value))] else [])
  }

  /** The other lines among the first `n`, logged at `level` in order. */
  function PlainLog(lines: seq<string>, n: nat, level: MessageLevel): seq<LogMessage>
    requires n <= |lines|
  {
    if n == 0 then []
    else
      var p := ParseOutputLine(lines[n - 1]);
      PlainLog(lines, n - 1, level) + (if p.Ok? && p.value.PlainLine? then [LogMessage(level, lines[n - 1])] else [])
  }

  predicate AllParse(lines: seq<string>, n: nat)
    requires n <= |lines|
  {
    forall i :: 0 <= i < n ==> ParseOutputLine(lines[i]).Ok?
  }

  /**
   * Reading succeeds exactly when every prefixed line has a ':' and no
   * name is reported twice; then the out-values are the reports in order
   * and the log is the other lines in order.
   */
  lemma {:induction false} ReceivedReports(lines: seq<string>, n: nat, level: MessageLevel)
    requires n <= |lines|
    ensures Received(lines, n, level).Ok? <==> AllParse(lines, n) && UniqueKeys(false, Reports(lines, n))
    ensures Received(lines, n, level).Ok? ==> Received(lines, n, level).value == Collected(Reports(lines, n), PlainLog(lines, n, level))
  {
    if n > 0 {
      ReceivedReports(lines, n - 1, level);
      var rs, lg := Reports(lines, n - 1), PlainLog(lines, n - 1, level);
      var p := ParseOutputLine(lines[n - 1]);
      if p.Err? {
        assert !AllParse(lines, n);
      } else if p.value.PlainLine? {
        assert Reports(lines, n) == rs + [] == rs;
        assert AllParse(lines, n) <==> AllParse(lines, n - 1);
      } else {
        var e := (p.value.key, Str(p.value.value));
        assert Reports(lines, n) == rs + [e];
        assert PlainLog(lines, n, level) == lg + [] == lg;
        UniqueKeysSnoc(false, rs, e);
        assert AllParse(lines, n) <==> AllParse(lines, n - 1);
      }
    }
  }

  // ---------------------------------------------------------------------------
  // ExecuteShellScriptAsync

  /** What the agent's process reports: its exit code and the lines written to each stream. */
  datatype ProcessRun = ProcessRun(exitCode: Option<int>, stdout: seq<string>, stderr: seq<string>)

  const NotSshMessage: LogMessage := LogMessage(Error, "This operation is only valid when run against an SSH agent.")

  /** The standard-error lines, each logged at `level`. */
  function ErrorLog(lines: seq<string>, level: MessageLevel): (r: seq<LogMessage>)
    ensures |r| == |lines| && forall i :: 0 <= i < |r| ==> r[i] == LogMessage(level, lines[i])
  {
    seq(|lines|, i requires 0 <= i < |lines| => LogMessage(level, lines[i]))
  }

  /**
   * `ExecuteShellScriptAsync`: null when the agent is not an SSH agent.
   * Otherwise the script file holds `ScriptLines`, `process` runs it with
   * the command line, and the result carries the exit code (0 when the
   * process reports none) and the out-values read from standard output;
   * the log holds the other output lines, then the error lines.
   */
  method ExecuteShellScript(info: ShellStartInfo, sshAgent: bool, process: (string, string) -> ProcessRun,
                            render: RuntimeValue -> string, outputLevel: MessageLevel, errorLevel: MessageLevel)
    returns (r: Option<Result<ExecuteScriptResult>>, log: seq<LogMessage>)
    ensures !sshAgent ==> r.None? && log == [NotSshMessage]
    ensures sshAgent ==> r.Some?
    ensures sshAgent ==>
      var run := process(LinesText(ScriptLines(info, render)), info.commandLineArguments);
      var c := Received(run.stdout, |run.stdout|, outputLevel);
      (r.value.Err? <==> c.Err?) &&
      (c.Err? ==> r.value == Err(c.error)) &&
      (c.Ok? ==> r.value.value == ExecuteScriptResult(Some(run.exitCode.GetOr(0)), [], c.value.outValues, None)) &&
      (c.Err? ==> log == PlainLog(run.stdout, HandledLines(run.stdout, |run.stdout|, outputLevel), outputLevel) + ErrorLog(run.stderr, errorLevel)) &&
      (c.Ok? ==> log == c.value.log + ErrorLog(run.stderr, errorLevel))
  {
    if !sshAgent {
      return None, [NotSshMessage];
    }
    var lines := WriteScript(info, render);
    var run := process(LinesText(lines), info.commandLineArguments);
    var c, logged := ReceiveOutput(run.stdout, outputLevel);
    log := logged + ErrorLog(run.stderr, errorLevel);
    if c.Err? {
      return Some(Err(c.error)), log;
    }
    r := Some(Ok(ExecuteScriptResult(Some(run.exitCode.GetOr(0)), [], c.value.outValues, None)));
  }

  /** The echo line of each name with its value. */
  function EchoedLines(names: seq<string>, values: seq<string>): (r: seq<string>)
    requires |names| == |values|
    ensures |r| == |names| && forall i :: 0 <= i < |r| ==> r[i] == EchoedLine(names[i], values[i])
  {
    seq(|names|, i requires 0 <= i < |names| => EchoedLine(names[i], values[i]))
  }

  /** The first `n` names paired with their values as strings. */
  function Paired(names: seq<string>, values: seq<string>, n: nat): (r: seq<(string, RuntimeValue)>)
    requires |names| == |values| && n <= |names|
    ensures |r| == n && forall i :: 0 <= i < n ==> r[i] == (names[i], Str(values[i]))
  {
    if n == 0 then [] else Paired(names, values, n - 1) + [(names[n - 1], Str(values[n - 1]))]
  }

  /** One echo line of a name not yet reported adds that name and value and logs nothing. */
  lemma EchoAdds(c: seq<(string, RuntimeValue)>, name: string, value: string, level: MessageLevel)
    requires ':' !in name
    requires forall j :: 0 <= j < |c| ==> c[j].0 != name
    ensures Receive(Collected(c, []), EchoedLine(name, value), level) == Ok(Collected(c + [(name, Str(value))], []))
  {
    EchoedLineParses(name, value);
    assert !HasKey(false, c, name);
  }

  /**
   * A run whose only output is the echo lines of distinct out-variables
   * (names without ':') reports exactly those names and values, in order,
   * and logs nothing from standard output.
   */
  lemma {:induction false} EchoesReadBack(names: seq<string>, values: seq<string>, n: nat, level: MessageLevel)
    requires |names| == |values| && n <= |names|
    requires forall i :: 0 <= i < |names| ==> ':' !in names[i]
    requires forall a, b :: 0 <= a < b < |names| ==> names[a] != names[b]
    ensures Received(EchoedLines(names, values), n, level) == Ok(Collected(Paired(names, values, n), []))
  {
    if n > 0 {
      EchoesReadBack(names, values, n - 1, level);
      var prev := Paired(names, values, n - 1);
      forall j | 0 <= j < |prev|
        ensures prev[j].0 != names[n - 1]
      {
        assert prev[j].0 == names[j];
      }
      EchoAdds(prev, names[n - 1], values[n - 1], level);
    }
  }

  // ---------------------------------------------------------------------------
  // The legacy runner

  /** The legacy runner's `LogMessage`: null, empty or white-space text is not logged. */
  function LegacyLog(level: MessageLevel, text: string): (r: seq<LogMessage>)
    ensures r == [] <==> IsNullOrWhiteSpace(Some(text))
    ensures r != [] ==> r == [LogMessage(level, text)]
  {
    if IsNullOrWhiteSpace(Some(text)) then [] else [LogMessage(level, text)]
  }

  /** Every line through `LegacyLog`, in order. */
  function LegacyLogs(level: MessageLevel, lines: seq<string>): (r: seq<LogMessage>)
    ensures |r| <= |lines|
    ensures forall m :: m in r ==> m.level == level && !IsNullOrWhiteSpace(Some(m.text)) && m.text in lines
    decreases |lines|
  {
    if lines == [] then []
    else LegacyLogs(level, lines[..|lines| - 1]) + LegacyLog(level, lines[|lines| - 1])
  }

  /** One stream's handler applied to each line in turn. */
  method LogAll(level: MessageLevel, lines: seq<string>) returns (log: seq<LogMessage>)
    ensures log == LegacyLogs(level, lines)
  {
    log := [];
    for i := 0 to |lines|
      invariant log == LegacyLogs(level, lines[..i])
    {
      assert lines[..i + 1][..i] == lines[..i];
      log := log + LegacyLog(level, lines[i]);
    }
    assert lines[..|lines|] == lines;
  }

  /**
   * The legacy `ExecuteScriptAsync`: null when the agent is not an SSH
   * agent; otherwise the script's lines are copied to the file, `process`
   * runs it, and the process's exit code is returned; non-blank output
   * lines are logged at `outputLevel`, then non-blank error lines at
   * `errorLevel`.
   */
  method ExecuteLegacyScript(scriptText: string, arguments: string, sshAgent: bool, process: (string, string) -> ProcessRun,
                             outputLevel: MessageLevel, errorLevel: MessageLevel)
    returns (exitCode: Option<int>, log: seq<LogMessage>)
    ensures !sshAgent ==> exitCode.None? && log == [NotSshMessage]
    ensures sshAgent ==>
      var run := process(LinesText(ReadLines(scriptText)), arguments);
      exitCode == run.exitCode && log == LegacyLogs(outputLevel, run.stdout) + LegacyLogs(errorLevel, run.stderr)
  {
    if !sshAgent {
      return None, [NotSshMessage];
    }
    var lines := ReadAll(scriptText);
    var run := process(LinesText(lines), arguments);
    var outLog := LogAll(outputLevel, run.stdout);
    var errLog := LogAll(errorLevel, run.stderr);
    log := outLog + errLog;
    exitCode := run.exitCode;
  }
}
