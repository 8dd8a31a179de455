/**
 * The Python runner (`Operations/Python/Extensions.cs`): the wrapper script
 * that injects variables as JSON and prints the out-variables as one JSON
 * object, the JSON bridge between host values and the script, the reading
 * of the script's two output streams, and `ExecutePythonScriptAhAsync`,
 * which binds the operation's parameters as the shell runner does, with
 * environment variables besides.
 */
module PythonExtensions {
  import opened Common
  import opened RuntimeValues
  import opened ScriptParser
  import opened ScriptResults
  import opened ShellRun
  import opened SHUtil
  import PythonScriptParser

  // ---------------------------------------------------------------------------
  // The script asset

  /** The asset name of a Python script: ".py" is appended unless the name already ends with it, ignoring case. */
  function PyScriptName(name: string): (r: string)
    ensures EndsWithIC(r, ".py")
    ensures EndsWithIC(name, ".py") ==> r == name
    ensures |name| <= |r| && r[..|name|] == name
  {
    if EndsWithIC(name, ".py") then name
    else
      var r := name + ".py";
      assert r[|name|..] == ".py";
      r
  }

  /** `GetScriptAsset`: the content under the ".py" name (`raft` standing for the raft lookup), or null after an error. */
  function FindPyScript(name: string, raft: string -> Option<string>): (r: (Option<string>, seq<LogMessage>))
    ensures r.0 == raft(PyScriptName(name))
    ensures r.1 == [] <==> r.0.Some?
    ensures r.0.None? ==> r.1 == [LogMessage(Error, "Could not find script " + PyScriptName(name) + ".")]
  {
    var scriptName := PyScriptName(name);
    match raft(scriptName)
    case None => (None, [LogMessage(Error, "Could not find script " + scriptName + ".")])
    case Some(content) => (Some(content), [])
  }

  // ---------------------------------------------------------------------------
  // The JSON bridge

  /** `WriteJson`: a scalar becomes a JSON string (null for a null scalar), a vector an array, a map an object. */
  function WriteJson(v: RuntimeValue): (j: Json)
    ensures v.Scalar? ==> j == (if v.text.Some? then JString(v.text.value) else JNull)
    ensures v.Vector? ==> j.JArray? && |j.elements| == |v.items|
    ensures v.Map? ==> j.JObject? && |j.props| == |v.entries| && forall i :: 0 <= i < |v.entries| ==> j.props[i].0 == v.entries[i].0
    decreases v
  {
    match v
    case Scalar(t) => if t.Some? then JString(t.value) else JNull
    case Vector(items) => JArray(seq(|items|, i requires 0 <= i < |items| => WriteJson(items[i])))
    case Map(entries) => JObject(seq(|entries|, i requires 0 <= i < |entries| => (entries[i].0, WriteJson(entries[i].1))))
  }

  /**
   * `ReadJsonToken`: an object becomes a map, an array a vector, a value
   * its text (`numberText` standing for how a parsed number prints; the
   * booleans print as "True" and "False"), and null a null scalar.
   */
  function ReadJsonToken(j: Json, numberText: string -> string): (v: RuntimeValue)
    ensures j.JObject? <==> v.Map?
    ensures j.JArray? <==> v.Vector?
    ensures j.JArray? ==> |v.items| == |j.elements|
    decreases j, 1
  {
    match j
    case JObject(props) => Map(ReadJsonProps(j, |props|, numberText))
    case JArray(elements) => Vector(seq(|elements|, i requires 0 <= i < |elements| => ReadJsonToken(elements[i], numberText)))
    case JString(s) => Str(s)
    case JNumber(raw) => Str(numberText(raw))
    case JTrue => Str("True")
    case JFalse => Str("False")
    case JNull => Scalar(None)
  }

  /** `ReadJsonObject` after the first `n` properties: each is written with the indexer, so a repeated name keeps its first place and its last value. */
  function ReadJsonProps(j: Json, n: nat, numberText: string -> string): seq<(string, RuntimeValue)>
    requires j.JObject? && n <= |j.props|
    decreases j, 0, n
  {
    if n == 0 then []
    else Set(false, ReadJsonProps(j, n - 1, numberText), j.props[n - 1].0, ReadJsonToken(j.props[n - 1].1, numberText))
  }

  /** `ReadJsonObject`. */
  function ReadJsonObject(j: Json, numberText: string -> string): seq<(string, RuntimeValue)>
    requires j.JObject?
  {
    ReadJsonProps(j, |j.props|, numberText)
  }

  /** What a map read back from JSON never holds: two entries under one name. */
  lemma {:induction false} ReadJsonPropsUnique(j: Json, n: nat, numberText: string -> string)
    requires j.JObject? && n <= |j.props|
    ensures UniqueKeys(false, ReadJsonProps(j, n, numberText))
  {
    if n > 0 {
      ReadJsonPropsUnique(j, n - 1, numberText);
      SetKeepsUnique(false, ReadJsonProps(j, n - 1, numberText), j.props[n - 1].0, ReadJsonToken(j.props[n - 1].1, numberText));
    }
  }

  /** A value whose maps, at every depth, hold each name once: what a host dictionary holds. */
  predicate WellKeyed(v: RuntimeValue)
    decreases v
  {
    match v
    case Scalar(_) => true
    case Vector(items) => forall i :: 0 <= i < |items| ==> WellKeyed(items[i])
    case Map(entries) => UniqueKeys(false, entries) && forall i :: 0 <= i < |entries| ==> WellKeyed(entries[i].1)
  }

  /** Reading back what `WriteJson` wrote gives the value itself. */
  lemma {:induction false} ReadWrittenJson(v: RuntimeValue, numberText: string -> string)
    requires WellKeyed(v)
    ensures ReadJsonToken(WriteJson(v), numberText) == v
    decreases v, 1
  {
    match v
    case Scalar(_) =>
    case Vector(items) =>
      var j := WriteJson(v);
      forall i | 0 <= i < |items| ensures ReadJsonToken(j.elements[i], numberText) == items[i] {
        ReadWrittenJson(items[i], numberText);
      }
    case Map(entries) =>
      ReadWrittenProps(v, |entries|, numberText);
  }

  lemma {:induction false} ReadWrittenProps(v: RuntimeValue, n: nat, numberText: string -> string)
    requires v.Map? && WellKeyed(v) && n <= |v.entries|
    ensures ReadJsonProps(WriteJson(v), n, numberText) == v.entries[..n]
    decreases v, 0, n
  {
    if n > 0 {
      var entries := v.entries;
      var j := WriteJson(v);
      ReadWrittenProps(v, n - 1, numberText);
      ReadWrittenJson(entries[n - 1].1, numberText);
      assert entries[..n] == entries[..n - 1] + [entries[n - 1]];
      UniqueKeysPrefix(false, entries[..n], entries[n..]);
      assert entries[..n] + entries[n..] == entries;
      UniqueKeysSnoc(false, entries[..n - 1], entries[n - 1]);
    }
  }

  // ---------------------------------------------------------------------------
  // Injected values as Python string literals

  /** One character of the JSON text: a quote or a backslash gets a backslash before it. */
  function EscapeChar(c: char): string
  {
    if c == '\'' || c == '\\' then ['\\', c] else [c]
  }

  function Escaped(t: string): string
  {
    if t == [] then [] else EscapeChar(t[0]) + Escaped(t[1..])
  }

  lemma {:induction false} EscapedSnoc(t: string, c: char)
    ensures Escaped(t + [c]) == Escaped(t) + EscapeChar(c)
  {
    if t != [] {
      assert (t + [c])[1..] == t[1..] + [c];
      EscapedSnoc(t[1..], c);
    } else {
      assert Escaped([c]) == EscapeChar(c) + Escaped([]);
    }
  }

  /** `WriteStringifiedJson`'s text: the JSON in single quotes, every quote and backslash escaped. */
  function Stringified(jsonText: string): string
  {
    "'" + Escaped(jsonText) + "'"
  }

  /** The character loop of `WriteStringifiedJson`. */
  method WriteStringifiedJson(jsonText: string) returns (w: string)
    ensures w == Stringified(jsonText)
  {
    w := "'";
    for i := 0 to |jsonText|
      invariant w == "'" + Escaped(jsonText[..i])
    {
      var c := jsonText[i];
      EscapedSnoc(jsonText[..i], c);
      assert jsonText[..i + 1] == jsonText[..i] + [c];
      if c == '\'' || c == '\\' {
        w := w + "\\";
      }
      w := w + [c];
    }
    assert jsonText[..|jsonText|] == jsonText;
    w := w + "'";
  }

  /** A backslash escape as Python reads it in a string literal; escapes other than these keep the backslash. */
  function DecodeEscape(c: char): string
  {
    if c == '\\' || c == '\'' || c == '"' then [c]
    else if c == 'n' then "\n"
    else if c == 'r' then "\r"
    else if c == 't' then "\t"
    else ['\\', c]
  }

  /** The body of a single-quoted Python literal up to its closing quote: the value and the text after the quote. */
  function ReadQuotedBody(s: string): Option<(string, string)>
    decreases |s|
  {
    if s == [] then None
    else if s[0] == '\'' then Some(("", s[1..]))
    else if s[0] == '\\' && |s| > 1 then
      match ReadQuotedBody(s[2..])
      case None => None
      case Some(r) => Some((DecodeEscape(s[1]) + r.0, r.1))
    else
      match ReadQuotedBody(s[1..])
      case None => None
      case Some(r) => Some(([s[0]] + r.0, r.1))
  }

  /** A single-quoted Python literal at the start of `s`. */
  function ReadQuoted(s: string): Option<(string, string)>
  {
    if s != [] && s[0] == '\'' then ReadQuotedBody(s[1..]) else None
  }

  lemma {:induction false} ReadEscapedBody(t: string, rest: string)
    ensures ReadQuotedBody(Escaped(t) + "'" + rest) == Some((t, rest))
  {
    if t == [] {
      assert Escaped(t) + "'" + rest == ['\''] + rest;
    } else {
      var x := Escaped(t[1..]) + "'" + rest;
      ReadEscapedBody(t[1..], rest);
      ReadEscapedChar(t[0], x, t[1..], rest);
      var e0, e1 := EscapeChar(t[0]), Escaped(t[1..]);
      assert Escaped(t) == e0 + e1;
      AppendAssoc(e0, e1, "'");
      AppendAssoc(e0, e1 + "'", rest);
      assert [t[0]] + t[1..] == t;
    }
  }

  /** Python reads an escaped character back as the character itself. */
  lemma ReadEscapedChar(c: char, x: string, value: string, rest: string)
    requires ReadQuotedBody(x) == Some((value, rest))
    ensures ReadQuotedBody(EscapeChar(c) + x) == Some(([c] + value, rest))
  {
    var s := EscapeChar(c) + x;
    if c == '\'' || c == '\\' {
      assert s[0] == '\\' && s[1] == c && s[2..] == x;
      assert DecodeEscape(c) == [c];
    } else {
      assert s[0] == c && s[1..] == x;
    }
  }

  /** Python reads the stringified literal back as exactly the JSON text, and the literal ends at its closing quote. */
  lemma ReadStringified(jsonText: string, rest: string)
    ensures ReadQuoted(Stringified(jsonText) + rest) == Some((jsonText, rest))
  {
    ReadEscapedBody(jsonText, rest);
    assert (Stringified(jsonText) + rest)[1..] == Escaped(jsonText) + "'" + rest;
  }

  // ---------------------------------------------------------------------------
  // The wrapper script

  /** What `ExecutePythonScriptAsync` is started with; a null dictionary or list is `None`. */
  datatype PythonStartInfo = PythonStartInfo(
    scriptText: string,
    injectedVariables: Option<seq<(string, RuntimeValue)>>,
    outVariables: Option<seq<string>>,
    commandLineArguments: string,
    environmentVariables: Option<seq<(string, Option<string>)>>)

  const PythonImports: seq<string> := ["import base64", "import json", "import logging", "import sys", "import traceback"]

  /** The logging set-up: every record goes to standard error as "!|AH:LEVEL|!message". */
  function LoggingConfig(captureDebug: bool): string
  {
    "logging.basicConfig(format='!|AH:%(levelname)s|!%(message)s', level=logging." + (if captureDebug then "DEBUG" else "INFO") + ")"
  }

  /** `name = json.loads('...')`, `jsonText` standing for Newtonsoft's `JsonTextWriter`. */
  function InjectionLine(e: (string, RuntimeValue), jsonText: Json -> string): string
  {
    e.0 + " = json.loads(" + Stringified(jsonText(WriteJson(e.1))) + ")"
  }

  function InjectionLines(vars: seq<(string, RuntimeValue)>, jsonText: Json -> string): (r: seq<string>)
    ensures |r| == |vars| && forall i :: 0 <= i < |vars| ==> r[i] == InjectionLine(vars[i], jsonText)
  {
    seq(|vars|, i requires 0 <= i < |vars| => InjectionLine(vars[i], jsonText))
  }

  /** The script body, run from its Base64 form (`base64` standing for Base64 over UTF-8). */
  function ExecLine(base64Text: string): string
  {
    "\texec(base64.b64decode(b'" + base64Text + "').decode('utf-8'))"
  }

  const ExceptClauses: seq<string> := [
    "except SyntaxError as err:",
    "\tprint(f'{err.__class__.__name__} at line {err.lineno} of Python script: {err.args[0]}', file=sys.stderr)",
    "except Exception as err:",
    "\tcl, exc, tb = sys.exc_info()",
    "\tprint(f'{err.__class__.__name__} at line {traceback.extract_tb(tb)[-1][1]} of Python script: {err.args[0]}', file=sys.stderr)"]

  function DumpEntry(name: string): string
  {
    "\"" + name + "\": " + name
  }

  /** The out-variables printed as one JSON object after the prefix. */
  function OutVarsPrint(names: seq<string>): string
  {
    "\tprint('" + OutVarPrefix + "' + json.dumps({" + Join(", ", seq(|names|, i requires 0 <= i < |names| => DumpEntry(names[i]))) + "}))"
  }

  /** The whole wrapper; the out-variables are printed in the `else:` branch, only when there are any. */
  function PythonScriptLines(info: PythonStartInfo, captureDebug: bool, jsonText: Json -> string, base64: string -> string): seq<string>
  {
    var outVars := info.outVariables.GetOr([]);
    PythonImports + [LoggingConfig(captureDebug)] + InjectionLines(info.injectedVariables.GetOr([]), jsonText)
      + ["try:", ExecLine(base64(info.scriptText))] + ExceptClauses
      + (if |outVars| > 0 then ["else:", OutVarsPrint(outVars)] else [])
  }

  /**
   * The wrapper's layout: the injections come right after the logging
   * set-up, the body runs inside `try:`, and the out-variables are printed
   * last, inside `else:` (so only when the body raised nothing), and only
   * when there are out-variables.
   */
  lemma PythonScriptLayout(info: PythonStartInfo, captureDebug: bool, jsonText: Json -> string, base64: string -> string)
    ensures var lines := PythonScriptLines(info, captureDebug, jsonText, base64);
      var vars := info.injectedVariables.GetOr([]);
      var outVars := info.outVariables.GetOr([]);
      |lines| == 13 + |vars| + (if |outVars| > 0 then 2 else 0) &&
      lines[5] == LoggingConfig(captureDebug) &&
      (forall i :: 0 <= i < |vars| ==> lines[6 + i] == InjectionLine(vars[i], jsonText)) &&
      lines[6 + |vars|] == "try:" && lines[7 + |vars|] == ExecLine(base64(info.scriptText)) &&
      (|outVars| > 0 ==> lines[13 + |vars|] == "else:" && lines[14 + |vars|] == OutVarsPrint(outVars)) &&
      (|outVars| == 0 ==> lines[|lines| - 1] == ExceptClauses[4])
  {
    var vars := info.injectedVariables.GetOr([]);
    var outVars := info.outVariables.GetOr([]);
    var head := PythonImports + [LoggingConfig(captureDebug)] + InjectionLines(vars, jsonText);
    var tail := (if |outVars| > 0 then ["else:", OutVarsPrint(outVars)] else []);
    var lines := head + ["try:", ExecLine(base64(info.scriptText))] + ExceptClauses + tail;
    assert |PythonImports| == 5 && |ExceptClauses| == 5 && |head| == 6 + |vars|;
    forall i | 0 <= i < |vars| ensures lines[6 + i] == InjectionLine(vars[i], jsonText) {
      assert lines[6 + i] == head[6 + i];
    }
    assert lines[5] == head[5];
  }

  /** Each injection line, read by Python, hands `json.loads` exactly the JSON text of the value. */
  lemma InjectionReadsBack(e: (string, RuntimeValue), jsonText: Json -> string)
    ensures var line := InjectionLine(e, jsonText);
      var head := e.0 + " = json.loads(";
      StartsWith(line, head) && ReadQuoted(line[|head|..]) == Some((jsonText(WriteJson(e.1)), ")"))
  {
    var head := e.0 + " = json.loads(";
    var line := InjectionLine(e, jsonText);
    ReadStringified(jsonText(WriteJson(e.1)), ")");
    assert line == head + (Stringified(jsonText(WriteJson(e.1))) + ")");
    assert line[..|head|] == head;
    assert line[|head|..] == Stringified(jsonText(WriteJson(e.1))) + ")";
  }

  /** The writer, line by line. */
  method WritePythonScript(info: PythonStartInfo, captureDebug: bool, jsonText: Json -> string, base64: string -> string)
    returns (lines: seq<string>)
    ensures lines == PythonScriptLines(info, captureDebug, jsonText, base64)
  {
    lines := PythonImports + [LoggingConfig(captureDebug)];
    ghost var head := lines;
    var vars := info.injectedVariables.GetOr([]);
    for i := 0 to |vars|
      invariant lines == head + InjectionLines(vars[..i], jsonText)
    {
      assert InjectionLines(vars[..i + 1], jsonText) == InjectionLines(vars[..i], jsonText) + [InjectionLine(vars[i], jsonText)];
      var json := WriteStringifiedJson(jsonText(WriteJson(vars[i].1)));
      lines := lines + [vars[i].0 + " = json.loads(" + json + ")"];
    }
    assert vars[..|vars|] == vars;
    lines := lines + ["try:", ExecLine(base64(info.scriptText))] + ExceptClauses;
    var outVars := info.outVariables.GetOr([]);
    if |outVars| > 0 {
      lines := lines + ["else:", OutVarsPrint(outVars)];
    } else {
      lines := lines + [];
    }
  }

  // ---------------------------------------------------------------------------
  // Standard output: the last out-variables line wins

  /** What the output handler has gathered: the out-values (null until a line arrives) and the logged lines. */
  datatype PythonOutput = PythonOutput(outValues: Option<seq<(string, RuntimeValue)>>, log: seq<LogMessage>)

  /**
   * One standard-output line: a prefixed line replaces the out-values with
   * its JSON object (`parseJson` standing for the JSON parser; anything but
   * an object throws); any other line is logged as information.
   */
  function ReceivePythonLine(c: PythonOutput, line: string, parseJson: string -> Option<Json>, numberText: string -> string): Result<PythonOutput>
  {
    if StartsWith(line, OutVarPrefix) then
      var parsed := parseJson(line[|OutVarPrefix|..]);
      if parsed.Some? && parsed.value.JObject? then Ok(c.(outValues := Some(ReadJsonObject(parsed.value, numberText))))
      else Err("JsonReaderException")
    else Ok(c.(log := c.log + [LogMessage(Information, line)]))
  }

  /** After the first `n` lines; an exception ends the run. */
  function PythonReceived(lines: seq<string>, n: nat, parseJson: string -> Option<Json>, numberText: string -> string): Result<PythonOutput>
    requires n <= |lines|
  {
    if n == 0 then Ok(PythonOutput(None, []))
    else
      var c := PythonReceived(lines, n - 1, parseJson, numberText);
      if c.Err? then c else ReceivePythonLine(c.value, lines[n - 1], parseJson, numberText)
  }

  lemma {:induction false} PythonReceivedStaysErr(lines: seq<string>, m: nat, n: nat, parseJson: string -> Option<Json>, numberText: string -> string)
    requires m <= n <= |lines| && PythonReceived(lines, m, parseJson, numberText).Err?
    ensures PythonReceived(lines, n, parseJson, numberText) == PythonReceived(lines, m, parseJson, numberText)
    decreases n
  {
    if n > m {
      PythonReceivedStaysErr(lines, m, n - 1, parseJson, numberText);
    }
  }

  /**
   * How many of the first `n` lines the handler gets through: all of them
   * when every prefixed line holds a JSON object, otherwise those before
   * the first prefixed line that does not.
   */
  function Handled(lines: seq<string>, n: nat, parseJson: string -> Option<Json>): (k: nat)
    requires n <= |lines|
    ensures k <= n && AllObjects(lines, k, parseJson)
    ensures k < n ==> !AllObjects(lines, k + 1, parseJson)
  {
    if n == 0 || AllObjects(lines, n, parseJson) then n else Handled(lines, n - 1, parseJson)
  }

  /**
   * The output handler over the whole stream; `logged` is what it logged,
   * the other lines before the one that throws when one does.
   */
  method ReceivePythonOutput(lines: seq<string>, parseJson: string -> Option<Json>, numberText: string -> string)
    returns (r: Result<PythonOutput>, logged: seq<LogMessage>)
    ensures r == PythonReceived(lines, |lines|, parseJson, numberText)
    ensures logged == InformationLog(lines, Handled(lines, |lines|, parseJson))
    ensures r.Ok? ==> r.value.log == logged
  {
    var c := PythonOutput(None, []);
    for i := 0 to |lines|
      invariant PythonReceived(lines, i, parseJson, numberText) == Ok(c)
      invariant AllObjects(lines, i, parseJson) && c.log == InformationLog(lines, i)
    {
      var step := ReceivePythonLine(c, lines[i], parseJson, numberText);
      if step.Err? {
        PythonReceivedStaysErr(lines, i + 1, |lines|, parseJson, numberText);
        HandledStops(lines, i, |lines|, parseJson);
        return step, c.log;
      }
      c := step.value;
    }
    return Ok(c), c.log;
  }

  /** Past the first prefixed line without an object, the handler gets no further. */
  lemma {:induction false} HandledStops(lines: seq<string>, i: nat, n: nat, parseJson: string -> Option<Json>)
    requires i < n <= |lines| && AllObjects(lines, i, parseJson) && !AllObjects(lines, i + 1, parseJson)
    ensures Handled(lines, n, parseJson) == i
    decreases n
  {
    if n > i + 1 {
      HandledStops(lines, i, n - 1, parseJson);
    }
  }

  /** The last prefixed line among the first `n`, or -1. */
  function LastOutVarLine(lines: seq<string>, n: nat): (r: int)
    requires n <= |lines|
    ensures -1 <= r < n
    ensures r >= 0 ==> StartsWith(lines[r], OutVarPrefix) && forall i :: r < i < n ==> !StartsWith(lines[i], OutVarPrefix)
    ensures r == -1 ==> forall i :: 0 <= i < n ==> !StartsWith(lines[i], OutVarPrefix)
  {
    if n == 0 then -1
    else if StartsWith(lines[n - 1], OutVarPrefix) then n - 1
    else LastOutVarLine(lines, n - 1)
  }

  /** Every prefixed line among the first `n` carries a JSON object. */
  predicate AllObjects(lines: seq<string>, n: nat, parseJson: string -> Option<Json>)
    requires n <= |lines|
  {
    forall i :: 0 <= i < n && StartsWith(lines[i], OutVarPrefix) ==>
      parseJson(lines[i][|OutVarPrefix|..]).Some? && parseJson(lines[i][|OutVarPrefix|..]).value.JObject?
  }

  /** The other lines among the first `n`, as information. */
  function InformationLog(lines: seq<string>, n: nat): seq<LogMessage>
    requires n <= |lines|
  {
    if n == 0 then []
    else InformationLog(lines, n - 1) + (if StartsWith(lines[n - 1], OutVarPrefix) then [] else [LogMessage(Information, lines[n - 1])])
  }

  /**
   * Reading standard output fails exactly when a prefixed line does not
   * carry a JSON object; otherwise the out-values are the object of the
   * last prefixed line (null when there is none), whatever earlier lines
   * held, and every other line is logged in order.
   */
  lemma {:induction false} LastOutVarLineWins(lines: seq<string>, n: nat, parseJson: string -> Option<Json>, numberText: string -> string)
    requires n <= |lines|
    ensures PythonReceived(lines, n, parseJson, numberText).Ok? <==> AllObjects(lines, n, parseJson)
    ensures PythonReceived(lines, n, parseJson, numberText).Ok? ==>
      var c := PythonReceived(lines, n, parseJson, numberText).value;
      var last := LastOutVarLine(lines, n);
      c.log == InformationLog(lines, n) &&
      c.outValues == (if last < 0 then None else Some(ReadJsonObject(parseJson(lines[last][|OutVarPrefix|..]).value, numberText)))
  {
    if n > 0 {
      LastOutVarLineWins(lines, n - 1, parseJson, numberText);
      var line := lines[n - 1];
      if !StartsWith(line, OutVarPrefix) {
        assert AllObjects(lines, n, parseJson) <==> AllObjects(lines, n - 1, parseJson);
      } else if PythonReceived(lines, n - 1, parseJson, numberText).Ok? {
        assert InformationLog(lines, n) == InformationLog(lines, n - 1) + [];
      }
    }
  }

  // ---------------------------------------------------------------------------
  // Standard error: log records

  predicate IsAsciiUpper(c: char)
  {
    'A' <= c <= 'Z'
  }

  /** The level a Python logging level name maps to; an unknown name is debug. */
  function LevelOf(name: string): (level: MessageLevel)
    ensures name == "INFO" ==> level == Information
    ensures name == "WARNING" ==> level == Warning
    ensures name == "ERROR" || name == "CRITICAL" ==> level == Error
    ensures name !in {"INFO", "WARNING", "ERROR", "CRITICAL"} ==> level == Debug
  {
    if name == "DEBUG" then Debug
    else if name == "INFO" then Information
    else if name == "WARNING" then Warning
    else if name == "ERROR" || name == "CRITICAL" then Error
    else Debug
  }

  const RecordPrefix: string := "!|AH:"

  /**
   * The pattern `^!\|AH:(?<1>[A-Z]+)\|!(?<2>.*)$` on one line: the level
   * name and the message, or nothing. `.` stops at a line feed and `$` also
   * matches before a final one.
   */
  function MatchRecord(data: string): (r: Option<(string, string)>)
    ensures r.Some? ==> data == RecordPrefix + r.value.0 + "|!" + r.value.1 || data == RecordPrefix + r.value.0 + "|!" + r.value.1 + "\n"
    ensures r.Some? ==> r.value.0 != [] && (forall i :: 0 <= i < |r.value.0| ==> IsAsciiUpper(r.value.0[i])) && '\n' !in r.value.1
  {
    if !StartsWith(data, RecordPrefix) then None
    else
      var k := Skip(data, |RecordPrefix|, IsAsciiUpper);
      if k == |RecordPrefix| || !OccursAt(data, "|!", k) then None
      else
        var name := data[|RecordPrefix|..k];
        var rest := data[k + 2..];
        RecordParts(data, k);
        if '\n' !in rest then Some((name, rest))
        else if rest[|rest| - 1] == '\n' && '\n' !in rest[..|rest| - 1] then
          RecordNewline(data, name, rest);
          Some((name, rest[..|rest| - 1]))
        else None
  }

  /** A record line whose message ends in a line feed is the record of the message without it, then the line feed. */
  lemma RecordNewline(data: string, name: string, rest: string)
    requires data == RecordPrefix + name + "|!" + rest && rest != [] && rest[|rest| - 1] == '\n'
    ensures data == RecordPrefix + name + "|!" + rest[..|rest| - 1] + "\n"
  {
    assert rest == rest[..|rest| - 1] + "\n";
  }

  /** The pieces a record line is matched into: the prefix, the level name, "|!" and the rest. */
  lemma RecordParts(data: string, k: nat)
    requires StartsWith(data, RecordPrefix) && |RecordPrefix| < k && k == Skip(data, |RecordPrefix|, IsAsciiUpper)
    requires OccursAt(data, "|!", k)
    ensures data == RecordPrefix + data[|RecordPrefix|..k] + "|!" + data[k + 2..]
    ensures forall i :: 0 <= i < |data[|RecordPrefix|..k]| ==> IsAsciiUpper(data[|RecordPrefix|..k][i])
  {
    SliceAll(data, |RecordPrefix|, k, IsAsciiUpper);
    assert data[..|RecordPrefix|] == RecordPrefix;
    assert data[k..k + 2] == "|!";
    assert data == data[..|RecordPrefix|] + data[|RecordPrefix|..k] + data[k..k + 2] + data[k + 2..];
  }

  /** One standard-error line: a log record at its level, any other line an error. */
  function ErrorLineMessage(data: string): LogMessage
  {
    match MatchRecord(data)
    case Some((name, message)) => LogMessage(LevelOf(name), message)
    case None => LogMessage(Error, data)
  }

  /** A record the logging set-up writes is read back at its level with its message. */
  lemma RecordReadsBack(name: string, message: string)
    requires name != [] && forall i :: 0 <= i < |name| ==> IsAsciiUpper(name[i])
    requires '\n' !in message
    ensures ErrorLineMessage(RecordPrefix + name + "|!" + message) == LogMessage(LevelOf(name), message)
  {
    var data := RecordPrefix + name + "|!" + message;
    var p := |RecordPrefix|;
    assert data[..p] == RecordPrefix;
    assert forall j :: p <= j < p + |name| ==> data[j] == name[j - p];
    assert data[p + |name|] == '|';
    var k := Skip(data, p, IsAsciiUpper);
    assert k == p + |name|;
    assert data[k..k + 2] == "|!";
    assert data[p..k] == name;
    assert data[k + 2..] == message;
  }

  /** A line that does not start like a record is logged as an error, unchanged. */
  lemma OtherErrorLine(data: string)
    requires !StartsWith(data, RecordPrefix)
    ensures ErrorLineMessage(data) == LogMessage(Error, data)
  {
  }

  function ErrorMessages(lines: seq<string>): (r: seq<LogMessage>)
    ensures |r| == |lines| && forall i :: 0 <= i < |lines| ==> r[i] == ErrorLineMessage(lines[i])
  {
    seq(|lines|, i requires 0 <= i < |lines| => ErrorLineMessage(lines[i]))
  }

  // ---------------------------------------------------------------------------
  // ExecutePythonScriptAsync

  /** What `ExecutePythonScriptAsync` returns: the exit code (0 when none is reported) and the out-values, null when no line carried them. */
  datatype PythonRun = PythonRun(exitCode: int, outValues: Option<seq<(string, RuntimeValue)>>)

  /** The interpreter's arguments: UTF-8 mode, the quoted script file, then the command line. */
  function InterpreterArguments(fileName: string, commandLineArguments: string): string
  {
    "-X utf8 \"" + fileName + "\" " + commandLineArguments
  }

  /**
   * `ExecutePythonScriptAsync`: the script file holds `PythonScriptLines`,
   * `process` runs the interpreter on it (with the environment variables),
   * and the result carries the exit code and the out-values read from
   * standard output; the log holds the other output lines, then the
   * standard-error records.
   */
  method ExecutePythonScript(info: PythonStartInfo, captureDebug: bool, jsonText: Json -> string, base64: string -> string,
                             fileName: string, process: (string, string, seq<(string, Option<string>)>) -> ProcessRun,
                             parseJson: string -> Option<Json>, numberText: string -> string)
    returns (r: Result<PythonRun>, log: seq<LogMessage>)
    ensures var run := process(LinesText(PythonScriptLines(info, captureDebug, jsonText, base64)),
                               InterpreterArguments(fileName, info.commandLineArguments), info.environmentVariables.GetOr([]));
      var c := PythonReceived(run.stdout, |run.stdout|, parseJson, numberText);
      (c.Err? ==> r == Err(c.error) && log == InformationLog(run.stdout, Handled(run.stdout, |run.stdout|, parseJson)) + ErrorMessages(run.stderr)) &&
      (c.Ok? ==> r.Ok? && r.value == PythonRun(run.exitCode.GetOr(0), c.value.outValues) && log == c.value.log + ErrorMessages(run.stderr))
  {
    var lines := WritePythonScript(info, captureDebug, jsonText, base64);
    var run := process(LinesText(lines), InterpreterArguments(fileName, info.commandLineArguments), info.environmentVariables.GetOr([]));
    var c, logged := ReceivePythonOutput(run.stdout, parseJson, numberText);
    log := logged + ErrorMessages(run.stderr);
    if c.Err? {
      return Err(c.error), log;
    }
    r := Ok(PythonRun(run.exitCode.GetOr(0), c.value.outValues));
  }

  // ---------------------------------------------------------------------------
  // ExecutePythonScriptAhAsync: binding

  /** A parameter the script declares as an environment variable. */
  predicate IsEnvironment(ps: seq<ParamInfo>, key: string)
  {
    DeclaredAs(ps, key).Some? && DeclaredAs(ps, key).value.usage == EnvironmentVariable
  }

  /** The shell runner's binding, plus the environment variables (text values, keys ignoring case). */
  datatype PythonBinding = PythonBinding(binding: Binding, envVars: seq<(string, Option<string>)>)

  /** One parameter: an environment variable takes the value's text; every other usage binds as in the shell runner. */
  function PyBindOne(b: PythonBinding, ps: seq<ParamInfo>, e: (string, RuntimeValue)): Result<PythonBinding>
  {
    if IsEnvironment(ps, e.0) then Ok(b.(envVars := Set(true, b.envVars, e.0, AsString(e.1))))
    else
      match BindOne(b.binding, ps, e)
      case Ok(x) => Ok(b.(binding := x))
      case Err(m) => Err(m)
  }

  function PyBound(ps: seq<ParamInfo>, parameters: seq<(string, RuntimeValue)>, n: nat): Result<PythonBinding>
    requires n <= |parameters|
  {
    if n == 0 then Ok(PythonBinding(Binding([], [], []), []))
    else
      var b := PyBound(ps, parameters, n - 1);
      if b.Err? then b else PyBindOne(b.value, ps, parameters[n - 1])
  }

  lemma {:induction false} PyBoundStaysErr(ps: seq<ParamInfo>, parameters: seq<(string, RuntimeValue)>, m: nat, n: nat)
    requires m <= n <= |parameters| && PyBound(ps, parameters, m).Err?
    ensures PyBound(ps, parameters, n) == PyBound(ps, parameters, m)
    decreases n
  {
    if n > m {
      PyBoundStaysErr(ps, parameters, m, n - 1);
      var b := PyBound(ps, parameters, n - 1);
      assert b.Err? && PyBound(ps, parameters, n) == b;
    } else {
      assert n == m;
    }
  }

  lemma PyBoundNext(ps: seq<ParamInfo>, parameters: seq<(string, RuntimeValue)>, i: nat)
    requires i < |parameters| && PyBound(ps, parameters, i).Ok?
    ensures PyBound(ps, parameters, i + 1) == PyBindOne(PyBound(ps, parameters, i).value, ps, parameters[i])
  {
  }

  /** The loop over `operation.Parameters` (nothing when the property is null). */
  method PyBindParameters(ps: seq<ParamInfo>, parameters: Option<seq<(string, RuntimeValue)>>) returns (r: Result<PythonBinding>)
    ensures parameters.None? ==> r == Ok(PythonBinding(Binding([], [], []), []))
    ensures parameters.Some? ==> r == PyBound(ps, parameters.value, |parameters.value|)
  {
    if parameters.None? {
      return Ok(PythonBinding(Binding([], [], []), []));
    }
    var pv := parameters.value;
    var inputVars: seq<(string, RuntimeValue)> := [];
    var envVars: seq<(string, Option<string>)> := [];
    var argVars: seq<(string, RuntimeValue)> := [];
    var ahOutVars: seq<string> := [];
    for i := 0 to |pv|
      invariant PyBound(ps, pv, i) == Ok(PythonBinding(Binding(inputVars, argVars, ahOutVars), envVars))
    {
      var paramValue := pv[i];
      var paramInfo := DeclaredAs(ps, paramValue.0);
      ghost var dest := DestinationOf(ps, paramValue.0);
      PyBoundNext(ps, pv, i);
      if paramInfo.None? || paramInfo.value.usage == InputVariable || paramInfo.value.usage == Usage.Default {
        assert dest == ToInput && !IsEnvironment(ps, paramValue.0);
        inputVars := Set(true, inputVars, paramValue.0, paramValue.1);
      } else if paramInfo.value.usage == EnvironmentVariable {
        assert IsEnvironment(ps, paramValue.0);
        envVars := Set(true, envVars, paramValue.0, AsString(paramValue.1));
      } else if paramInfo.value.usage == Arguments {
        assert dest == ToArguments && !IsEnvironment(ps, paramValue.0);
        argVars := Set(true, argVars, paramValue.0, paramValue.1);
      } else if paramInfo.value.usage == OutputVariable {
        assert dest == ToOutput && !IsEnvironment(ps, paramValue.0);
        ahOutVars := AddIC(ahOutVars, paramValue.0);
      } else {
        assert dest == Unsupported && !IsEnvironment(ps, paramValue.0);
        PyBoundStaysErr(ps, pv, i + 1, |pv|);
        return Err("InvalidOperationException");
      }
    }
    return Ok(PythonBinding(Binding(inputVars, argVars, ahOutVars), envVars));
  }

  /** The environment-variable parameters among the first `n`, with their values' text, in order. */
  function EnvEntries(ps: seq<ParamInfo>, parameters: seq<(string, RuntimeValue)>, n: nat): seq<(string, Option<string>)>
    requires n <= |parameters|
  {
    if n == 0 then []
    else EnvEntries(ps, parameters, n - 1) + (if IsEnvironment(ps, parameters[n - 1].0) then [(parameters[n - 1].0, AsString(parameters[n - 1].1))] else [])
  }

  predicate PySupported(ps: seq<ParamInfo>, parameters: seq<(string, RuntimeValue)>, n: nat)
    requires n <= |parameters|
  {
    forall i :: 0 <= i < n ==> PyAccepted(ps, parameters[i].0)
  }

  /**
   * Binding fails exactly when some parameter is declared with a usage that
   * is neither input, default, environment, arguments nor output.
   */
  lemma PyBoundFails(ps: seq<ParamInfo>, parameters: seq<(string, RuntimeValue)>, n: nat)
    requires n <= |parameters|
    ensures PyBound(ps, parameters, n).Ok? <==> PySupported(ps, parameters, n)
  {
    PyBoundOkIff(ps, parameters, n);
    AcceptedUpToAll(ps, parameters, n);
  }

  /** Each of the first `n` parameters has a usage the Python runner binds, stated one parameter at a time. */
  predicate AcceptedUpTo(ps: seq<ParamInfo>, parameters: seq<(string, RuntimeValue)>, n: nat)
    requires n <= |parameters|
  {
    n == 0 || (AcceptedUpTo(ps, parameters, n - 1) && PyAccepted(ps, parameters[n - 1].0))
  }

  lemma {:induction false} PyBoundOkIff(ps: seq<ParamInfo>, parameters: seq<(string, RuntimeValue)>, n: nat)
    requires n <= |parameters|
    ensures PyBound(ps, parameters, n).Ok? <==> AcceptedUpTo(ps, parameters, n)
  {
    if n > 0 {
      PyBoundOkIff(ps, parameters, n - 1);
      PyBoundOkStep(ps, parameters, n);
    }
  }

  lemma {:induction false} AcceptedUpToAll(ps: seq<ParamInfo>, parameters: seq<(string, RuntimeValue)>, n: nat)
    requires n <= |parameters|
    ensures AcceptedUpTo(ps, parameters, n) <==> PySupported(ps, parameters, n)
  {
    if n > 0 {
      AcceptedUpToAll(ps, parameters, n - 1);
    }
  }

  /** A parameter whose usage the Python runner binds. */
  predicate PyAccepted(ps: seq<ParamInfo>, key: string)
  {
    IsEnvironment(ps, key) || DestinationOf(ps, key) != Unsupported
  }

  /** Binding one more parameter succeeds exactly when the earlier ones did and its usage is bound. */
  lemma PyBoundOkStep(ps: seq<ParamInfo>, parameters: seq<(string, RuntimeValue)>, n: nat)
    requires 0 < n <= |parameters|
    ensures PyBound(ps, parameters, n).Ok? <==> PyBound(ps, parameters, n - 1).Ok? && PyAccepted(ps, parameters[n - 1].0)
  {
    var b := PyBound(ps, parameters, n - 1);
    if b.Ok? {
      assert PyBound(ps, parameters, n) == PyBindOne(b.value, ps, parameters[n - 1]);
    }
  }

  /** The bound values as entry lists, for the step from `n - 1` to `n`. */
  function PyExpected(ps: seq<ParamInfo>, parameters: seq<(string, RuntimeValue)>, n: nat): PythonBinding
    requires n <= |parameters|
  {
    PythonBinding(
      Binding(SetAll(true, [], EntriesTo(ps, parameters, n, ToInput)),
              SetAll(true, [], EntriesTo(ps, parameters, n, ToArguments)),
              AddAllIC([], OutputNames(ps, parameters, n))),
      SetAll(true, [], EnvEntries(ps, parameters, n)))
  }

  lemma PyExpectedEnvStep(ps: seq<ParamInfo>, parameters: seq<(string, RuntimeValue)>, n: nat)
    requires 0 < n <= |parameters| && IsEnvironment(ps, parameters[n - 1].0)
    ensures PyBindOne(PyExpected(ps, parameters, n - 1), ps, parameters[n - 1]) == Ok(PyExpected(ps, parameters, n))
  {
    var e := parameters[n - 1];
    var ins, args, outs, envs := EntriesTo(ps, parameters, n - 1, ToInput), EntriesTo(ps, parameters, n - 1, ToArguments), OutputNames(ps, parameters, n - 1), EnvEntries(ps, parameters, n - 1);
    assert DestinationOf(ps, e.0) == Unsupported;
    SetAllSnoc(true, [], envs, (e.0, AsString(e.1)));
    assert EntriesTo(ps, parameters, n, ToInput) == ins + [] == ins;
    assert EntriesTo(ps, parameters, n, ToArguments) == args + [] == args;
    assert OutputNames(ps, parameters, n) == outs + [] == outs;
  }

  lemma PyExpectedOtherStep(ps: seq<ParamInfo>, parameters: seq<(string, RuntimeValue)>, n: nat)
    requires 0 < n <= |parameters| && !IsEnvironment(ps, parameters[n - 1].0) && DestinationOf(ps, parameters[n - 1].0) != Unsupported
    ensures PyBindOne(PyExpected(ps, parameters, n - 1), ps, parameters[n - 1]) == Ok(PyExpected(ps, parameters, n))
  {
    var e := parameters[n - 1];
    var ins, args, outs, envs := EntriesTo(ps, parameters, n - 1, ToInput), EntriesTo(ps, parameters, n - 1, ToArguments), OutputNames(ps, parameters, n - 1), EnvEntries(ps, parameters, n - 1);
    assert EnvEntries(ps, parameters, n) == envs + [] == envs;
    match DestinationOf(ps, e.0)
    case ToInput =>
      SetAllSnoc(true, [], ins, e);
      assert EntriesTo(ps, parameters, n, ToArguments) == args + [] == args;
      assert OutputNames(ps, parameters, n) == outs + [] == outs;
    case ToArguments =>
      SetAllSnoc(true, [], args, e);
      assert EntriesTo(ps, parameters, n, ToInput) == ins + [] == ins;
      assert OutputNames(ps, parameters, n) == outs + [] == outs;
    case ToOutput =>
      AddAllICSnoc([], outs, e.0);
      assert EntriesTo(ps, parameters, n, ToInput) == ins + [] == ins;
      assert EntriesTo(ps, parameters, n, ToArguments) == args + [] == args;
  }

  /**
   * A successful binding: the environment variables are the
   * environment-routed parameters' texts, written in order, and the rest
   * is bound as in the shell runner (`BoundEntries`).
   */
  lemma PyBoundEntries(ps: seq<ParamInfo>, parameters: seq<(string, RuntimeValue)>, n: nat)
    requires n <= |parameters|
    ensures PyBound(ps, parameters, n).Ok? ==> PyBound(ps, parameters, n).value == PythonBinding(
      Binding(SetAll(true, [], EntriesTo(ps, parameters, n, ToInput)),
              SetAll(true, [], EntriesTo(ps, parameters, n, ToArguments)),
              AddAllIC([], OutputNames(ps, parameters, n))),
      SetAll(true, [], EnvEntries(ps, parameters, n)))
  {
    if PyBound(ps, parameters, n).Ok? {
      PyBoundExpected(ps, parameters, n);
    }
  }

  lemma {:induction false} PyBoundExpected(ps: seq<ParamInfo>, parameters: seq<(string, RuntimeValue)>, n: nat)
    requires n <= |parameters| && PyBound(ps, parameters, n).Ok?
    ensures PyBound(ps, parameters, n) == Ok(PyExpected(ps, parameters, n))
  {
    if n > 0 {
      PyBoundOkStep(ps, parameters, n);
      PyBoundExpected(ps, parameters, n - 1);
      PyBoundExpectedStep(ps, parameters, n);
    }
  }

  /** One step of the binding keeps it equal to the expected entry lists. */
  lemma PyBoundExpectedStep(ps: seq<ParamInfo>, parameters: seq<(string, RuntimeValue)>, n: nat)
    requires 0 < n <= |parameters| && PyAccepted(ps, parameters[n - 1].0)
    requires PyBound(ps, parameters, n - 1) == Ok(PyExpected(ps, parameters, n - 1))
    ensures PyBound(ps, parameters, n) == Ok(PyExpected(ps, parameters, n))
  {
    PyBoundNext(ps, parameters, n - 1);
    if IsEnvironment(ps, parameters[n - 1].0) {
      PyExpectedEnvStep(ps, parameters, n);
    } else {
      PyExpectedOtherStep(ps, parameters, n);
    }
  }

  // ---------------------------------------------------------------------------
  // ExecutePythonScriptAhAsync: preparing, resolving, the whole run

  /** What the run is started with, and what the resolution afterwards needs. */
  datatype PythonPrepared = PythonPrepared(startInfo: PythonStartInfo, ahOutVars: seq<string>, originalOutVars: seq<string>, log: seq<LogMessage>)

  /** As the shell runner prepares, with the environment variables passed to the process. */
  function PyPrepare(scriptText: string, info: ScriptInfo, op: ScriptingOperation, execMode: string,
                     expand: (string, seq<(string, RuntimeValue)>) -> string): Result<PythonPrepared>
  {
    var bound := if op.parameters.None? then Ok(PythonBinding(Binding([], [], []), [])) else PyBound(info.parameters, op.parameters.value, |op.parameters.value|);
    if bound.Err? then Err(bound.error)
    else
      var b := bound.value.binding;
      var commandLine := CommandLine(WithDefaults(b.argVars, info.parameters, |info.parameters|), info.argsFormat, expand);
      var inputVars := WithExecModeVariable(InputVariablesOf(b, op), info.execMode, execMode);
      if inputVars.Err? then Err(inputVars.error)
      else
        var outVars := OutVariablesOf(b, op, info);
        Ok(PythonPrepared(PythonStartInfo(scriptText, Some(inputVars.value), Some(outVars), commandLine.0, Some(bound.value.envVars)),
                          outVars, op.outputVariables.GetOr([]), commandLine.1))
  }

  /**
   * What preparing logs before it returns or throws: nothing when a
   * parameter's usage is unsupported, otherwise the arguments-format
   * warning, which comes before the execution-mode `Add` that may throw.
   */
  function PyPrepareLog(info: ScriptInfo, op: ScriptingOperation, expand: (string, seq<(string, RuntimeValue)>) -> string): seq<LogMessage>
  {
    var bound := if op.parameters.None? then Ok(PythonBinding(Binding([], [], []), [])) else PyBound(info.parameters, op.parameters.value, |op.parameters.value|);
    if bound.Err? then [] else CommandLine(WithDefaults(bound.value.binding.argVars, info.parameters, |info.parameters|), info.argsFormat, expand).1
  }

  method PyPrepareRun(scriptText: string, info: ScriptInfo, op: ScriptingOperation, execMode: string,
                      expand: (string, seq<(string, RuntimeValue)>) -> string) returns (r: Result<PythonPrepared>, log: seq<LogMessage>)
    ensures r == PyPrepare(scriptText, info, op, execMode, expand)
    ensures log == PyPrepareLog(info, op, expand)
    ensures r.Ok? ==> r.value.log == log
  {
    var bound := PyBindParameters(info.parameters, op.parameters);
    if bound.Err? {
      return Err(bound.error), [];
    }
    var b := bound.value.binding;
    var argVars := FillDefaults(b.argVars, info.parameters);
    var commandLine := CommandLine(argVars, info.argsFormat, expand);
    var inputVars := SetInputVariables(b.inputVars, op.inputVariables);
    var withMode := WithExecModeVariable(inputVars, info.execMode, execMode);
    if withMode.Err? {
      return Err(withMode.error), commandLine.1;
    }
    var originalOutVars := op.outputVariables.GetOr([]);
    var ahOutVars := UnionWith(b.outVars, op.outputVariables);
    ahOutVars := AddConfigRefs(ahOutVars, info.configValues);
    return Ok(PythonPrepared(PythonStartInfo(scriptText, Some(withMode.value), Some(ahOutVars), commandLine.0, Some(bound.value.envVars)),
                             ahOutVars, originalOutVars, commandLine.1)), commandLine.1;
  }

  /**
   * The process sees the environment-routed parameters, each under its
   * last value's text; the out-variables hold no name twice (ignoring case)
   * and cover the output-routed parameters, the requested variables and
   * the configuration references.
   */
  lemma PyPreparedVariables(scriptText: string, info: ScriptInfo, op: ScriptingOperation, execMode: string,
                            expand: (string, seq<(string, RuntimeValue)>) -> string)
    requires op.parameters.Some?
    requires PyPrepare(scriptText, info, op, execMode, expand).Ok?
    ensures var p := PyPrepare(scriptText, info, op, execMode, expand).value;
      var pv := op.parameters.value;
      p.startInfo.environmentVariables == Some(SetAll(true, [], EnvEntries(info.parameters, pv, |pv|)))
    ensures var outs := PyPrepare(scriptText, info, op, execMode, expand).value.ahOutVars;
      var pv := op.parameters.value;
      DistinctIC(outs) &&
      forall x :: x in OutputNames(info.parameters, pv, |pv|) + op.outputVariables.GetOr([]) + ConfigRefs(info.configValues) ==> ContainsIC(outs, x)
  {
    var pv := op.parameters.value;
    PyBoundEntries(info.parameters, pv, |pv|);
    OutVariablesCover(OutputNames(info.parameters, pv, |pv|), op.outputVariables.GetOr([]), ConfigRefs(info.configValues));
  }

  /**
   * The result: when no line carried out-values, no configuration and no
   * out-variables; otherwise resolved as in the shell runner.
   */
  function PyResolve(run: PythonRun, p: PythonPrepared, info: ScriptInfo, op: ScriptingOperation, pic: bool): (r: Result<ExecuteScriptResult>)
    ensures run.outValues.None? ==> r == Ok(ExecuteScriptResult(Some(run.exitCode), [], [], Some([])))
  {
    if run.outValues.None? then Ok(ExecuteScriptResult(Some(run.exitCode), [], [], Some([])))
    else Resolve(ExecuteScriptResult(Some(run.exitCode), [], run.outValues.value, None), p.ahOutVars, p.originalOutVars, info, op, pic)
  }

  /**
   * Out-values read from the script's JSON object: after resolution, an
   * out-variable neither requested nor the target of an out-parameter is
   * gone, and every kept one reads as after the copying of out-parameters.
   */
  lemma PyResolveDropsUnrequested(j: Json, numberText: string -> string, exitCode: int, p: PythonPrepared, info: ScriptInfo, op: ScriptingOperation, pic: bool, k: string)
    requires j.JObject? && DistinctIC(p.ahOutVars)
    requires PyResolve(PythonRun(exitCode, Some(ReadJsonObject(j, numberText))), p, info, op, pic).Ok?
    ensures var run := ExecuteScriptResult(Some(exitCode), [], ReadJsonObject(j, numberText), None);
      var outParams := OutParams(info.parameters, p.ahOutVars);
      var remapped := Remapped(Remap(run.outVariables, p.originalOutVars), outParams, op.parameters, pic).value;
      var result := PyResolve(PythonRun(exitCode, Some(ReadJsonObject(j, numberText))), p, info, op, pic).value;
      UniqueKeys(false, result.outVariables) &&
      (k in p.ahOutVars && !ContainsIC(remapped.original, k) ==> !HasKey(false, result.outVariables, k)) &&
      (ContainsIC(remapped.original, k) ==> Get(false, result.outVariables, k) == Get(false, remapped.outValues, k))
  {
    ReadJsonPropsUnique(j, |j.props|, numberText);
    var run := ExecuteScriptResult(Some(exitCode), [], ReadJsonObject(j, numberText), None);
    ResolveDropsUnrequested(run, p.ahOutVars, p.originalOutVars, info, op, pic, k);
  }

  /** The part of `ExecutePythonScriptAhAsync` after preparing: the run, then the resolution. */
  method RunPrepared(p: PythonPrepared, info: ScriptInfo, op: ScriptingOperation, pic: bool,
                     captureDebug: bool, jsonText: Json -> string, base64: string -> string, fileName: string,
                     process: (string, string, seq<(string, Option<string>)>) -> ProcessRun,
                     parseJson: string -> Option<Json>, numberText: string -> string)
    returns (r: Result<ExecuteScriptResult>, log: seq<LogMessage>)
    ensures var si := p.startInfo;
      var run := process(LinesText(PythonScriptLines(si, captureDebug, jsonText, base64)),
                         InterpreterArguments(fileName, si.commandLineArguments), si.environmentVariables.GetOr([]));
      var c := PythonReceived(run.stdout, |run.stdout|, parseJson, numberText);
      (c.Err? ==> r == Err(c.error) && log == p.log + (InformationLog(run.stdout, Handled(run.stdout, |run.stdout|, parseJson)) + ErrorMessages(run.stderr))) &&
      (c.Ok? ==> r == PyResolve(PythonRun(run.exitCode.GetOr(0), c.value.outValues), p, info, op, pic) &&
                 log == p.log + (c.value.log + ErrorMessages(run.stderr)))
  {
    var run, runLog := ExecutePythonScript(p.startInfo, captureDebug, jsonText, base64, fileName, process, parseJson, numberText);
    log := p.log + runLog;
    if run.Err? {
      return Err(run.error), log;
    }
    r := PyResolve(run.value, p, info, op, pic);
  }

  /** The script's header as the Python script parser reads it from the raft item's text; a throwing escape fails it. */
  function ParsedPyScript(text: string, parse: string -> Result<ParamInfo>, validate: string -> Option<string>): Result<ScriptInfo>
  {
    var header := PythonScriptParser.Header(ReadLines(text));
    if header.Err? then Err(header.error)
    else Ok(PythonScriptParser.ParseSections(Sections(header.value, PythonScriptParser.ParseLine), parse, validate))
  }

  /**
   * `ExecutePythonScriptAhAsync`. The header is read with the Python script
   * parser (`parse` and `validate` stand for its parameter parser and its
   * format check); `raft` stands for the raft lookup, `expand` for
   * `ExpandVariablesAsync`, `process` for the interpreter's process,
   * `fileName` for the script file the runner creates.
   */
  method ExecutePythonScriptAh(op: ScriptingOperation, raft: string -> Option<string>,
                               parse: string -> Result<ParamInfo>, validate: string -> Option<string>,
                               expand: (string, seq<(string, RuntimeValue)>) -> string, execMode: string, pic: bool,
                               captureDebug: bool, jsonText: Json -> string, base64: string -> string, fileName: string,
                               process: (string, string, seq<(string, Option<string>)>) -> ProcessRun,
                               parseJson: string -> Option<Json>, numberText: string -> string)
    returns (r: Option<Result<ExecuteScriptResult>>, log: seq<LogMessage>)
    ensures r.None? <==> FindPyScript(op.scriptName, raft).0.None?
    ensures FindPyScript(op.scriptName, raft).0.None? ==>
      log == FindPyScript(op.scriptName, raft).1 + [LogMessage(Error, "Script " + op.scriptName + " was not found.")]
    ensures FindPyScript(op.scriptName, raft).0.Some? ==>
      var text := FindPyScript(op.scriptName, raft).0.value;
      var info := ParsedPyScript(text, parse, validate);
      (info.Err? ==> r == Some(Err(info.error)) && log == []) &&
      (info.Ok? && PyPrepare(text, info.value, op, execMode, expand).Err? ==>
        r == Some(Err(PyPrepare(text, info.value, op, execMode, expand).error)) && log == PyPrepareLog(info.value, op, expand))
    ensures FindPyScript(op.scriptName, raft).0.Some? ==>
      var text := FindPyScript(op.scriptName, raft).0.value;
      var info := ParsedPyScript(text, parse, validate);
      info.Ok? ==>
      var p := PyPrepare(text, info.value, op, execMode, expand);
      p.Ok? ==>
        var si := p.value.startInfo;
        var run := process(LinesText(PythonScriptLines(si, captureDebug, jsonText, base64)),
                           InterpreterArguments(fileName, si.commandLineArguments), si.environmentVariables.GetOr([]));
        var c := PythonReceived(run.stdout, |run.stdout|, parseJson, numberText);
        (c.Err? ==> r == Some(Err(c.error)) &&
                    log == p.value.log + (InformationLog(run.stdout, Handled(run.stdout, |run.stdout|, parseJson)) + ErrorMessages(run.stderr))) &&
        (c.Ok? ==> r == Some(PyResolve(PythonRun(run.exitCode.GetOr(0), c.value.outValues), p.value, info.value, op, pic)) &&
                   log == p.value.log + (c.value.log + ErrorMessages(run.stderr)))
  {
    var found := FindPyScript(op.scriptName, raft);
    if found.0.None? {
      return None, found.1 + [LogMessage(Error, "Script " + op.scriptName + " was not found.")];
    }
    var scriptText := found.0.value;
    var parsed := PythonScriptParser.Parse(ReadLines(scriptText), parse, validate);
    if parsed.Err? {
      return Some(Err(parsed.error)), [];
    }
    var info := parsed.value;
    var prepared, prepareLog := PyPrepareRun(scriptText, info, op, execMode, expand);
    if prepared.Err? {
      return Some(Err(prepared.error)), prepareLog;
    }
    var outcome, runLog := RunPrepared(prepared.value, info, op, pic, captureDebug, jsonText, base64, fileName, process, parseJson, numberText);
    r, log := Some(outcome), runLog;
  }
}
