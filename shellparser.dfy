/**
 * The shell-script header: after any "#!" lines, either a `: '` block
 * closed by a line holding only "'", or a run of "#" comment lines. Section
 * titles are unindented `word:` lines; the inline text after the colon is
 * dropped.
 */
module ShellScriptParser {
  import opened Common
  import opened ScriptParser

  // ---------------------------------------------------------------------------
  // ReadHeader

  /** Lines the first loop passes over: not blank, and trimmed they start "#!" (or are empty). */
  predicate IsSkipped(line: string)
  {
    !IsBlank(line) && (var t := Trim(line); StartsWith(t, "#!") || t == "")
  }

  /** The line that starts a header: not blank, and trimmed it starts `: '` or "#". */
  predicate Opens(line: string)
  {
    !IsBlank(line) && (StartsWith(Trim(line), ": '") || StartsWith(Trim(line), "#"))
  }

  /** The `: '` form of the header. */
  predicate IsMulti(line: string)
  {
    StartsWith(Trim(line), ": '")
  }

  /** The line that closes the header: a lone "'" in `: '` mode, a line not starting "#" otherwise. */
  predicate Ends(multi: bool, line: string)
  {
    if multi then Trim(line) == "'" else !StartsWith(line, "#")
  }

  /** The lines that belong to an open header. */
  function Continues(multi: bool): string -> bool
  {
    line => !Ends(multi, line)
  }

  /** No line of `body` closes the header. */
  predicate Open(multi: bool, body: seq<string>)
  {
    forall j :: 0 <= j < |body| ==> !Ends(multi, body[j])
  }

  /** A "#" line without its "# " or "#". */
  function Strip(line: string): string
    requires StartsWith(line, "#")
  {
    if StartsWith(line, "# ") then line[2..] else line[1..]
  }

  /** What one body line adds to the buffer: itself in `: '` mode, stripped with a newline otherwise. */
  function Piece(multi: bool, line: string): string
    requires !Ends(multi, line)
  {
    if multi then line else Strip(line) + NewLine
  }

  function Buffer(multi: bool, body: seq<string>): string
    requires Open(multi, body)
    decreases |body|
  {
    if body == [] then "" else Buffer(multi, body[..|body| - 1]) + Piece(multi, body[|body| - 1])
  }

  lemma OpenSlice(lines: seq<string>, a: nat, b: nat, multi: bool)
    requires a <= b <= |lines|
    requires forall j :: a <= j < b ==> Continues(multi)(lines[j])
    ensures Open(multi, lines[a..b])
  {
    assert forall j :: 0 <= j < b - a ==> lines[a..b][j] == lines[a + j];
  }

  /**
   * The header lines `ReadHeader` yields: the lines after the opening line
   * up to the closing one, as one buffer split at line breaks; none when
   * there is no opening line or no closing one.
   */
  function Header(lines: seq<string>): seq<string>
  {
    HeaderAt(lines, Skip(lines, 0, IsSkipped))
  }

  /** The header when the first line not skipped is at `k`. */
  function HeaderAt(lines: seq<string>, k: nat): seq<string>
    requires k <= |lines|
  {
    if k == |lines| || !Opens(lines[k]) then [] else BodyHeader(lines, k + 1, IsMulti(lines[k]))
  }

  /** The header made of the lines from `start` up to the closing one. */
  function BodyHeader(lines: seq<string>, start: nat, multi: bool): seq<string>
    requires start <= |lines|
  {
    var e := Skip(lines, start, Continues(multi));
    if e == |lines| then []
    else
      OpenSlice(lines, start, e, multi);
      SplitNewlines(Buffer(multi, lines[start..e]))
  }

  lemma BlankStartsNot(s: string, p: string)
    requires IsBlank(s) && p != [] && !IsWhite(p[0])
    ensures !StartsWith(s, p)
  {
  }

  lemma BufferStep(multi: bool, lines: seq<string>, start: nat, i: nat, next: nat)
    requires start <= i < |lines| && next == i + 1
    requires forall j :: start <= j <= i ==> Continues(multi)(lines[j])
    ensures Open(multi, lines[start..i]) && Open(multi, lines[start..next])
    ensures Buffer(multi, lines[start..next]) == Buffer(multi, lines[start..i]) + Piece(multi, lines[i])
  {
    OpenSlice(lines, start, i, multi);
    OpenSlice(lines, start, next, multi);
    var b := lines[start..next];
    assert b[..|b| - 1] == lines[start..i];
    assert b[|b| - 1] == lines[i];
  }

  /** `ReadHeader`: reads lines one at a time, as from the script's `TextReader`. */
  method ReadHeader(lines: seq<string>) returns (header: seq<string>)
    ensures header == Header(lines)
  {
    var i := 0;
    var line: Option<string> := None;
    while i < |lines|
      invariant i <= |lines|
      invariant forall j :: 0 <= j < i ==> IsSkipped(lines[j])
      invariant line == None
    {
      var l := lines[i];
      if IsBlank(l) {
        line := Some(l);
        break;
      }
      var t := Trim(l);
      if StartsWith(t, "#!") || t == "" {
        i := i + 1;
        continue;
      }
      line := Some(t);
      break;
    }
    SkipTo(lines, 0, i, IsSkipped);
    if line.Some? && IsBlank(line.value) {
      BlankStartsNot(line.value, ": '");
      BlankStartsNot(line.value, "#");
    }

    if line.Some? && (StartsWith(line.value, ": '") || StartsWith(line.value, "#")) {
      header := ReadBody(lines, i + 1, StartsWith(line.value, ": '"));
    } else {
      header := [];
    }
  }

  /** The second loop of `ReadHeader`: buffers body lines until the closing one. */
  method ReadBody(lines: seq<string>, start: nat, multi: bool) returns (header: seq<string>)
    requires start <= |lines|
    ensures header == BodyHeader(lines, start, multi)
  {
    var buffer := "";
    var i := start;
    while i < |lines|
      invariant start <= i <= |lines|
      invariant forall j :: start <= j < i ==> Continues(multi)(lines[j])
      invariant Open(multi, lines[start..i])
      invariant buffer == Buffer(multi, lines[start..i])
    {
      var l := lines[i];
      if Ends(multi, l) {
        SkipTo(lines, start, i, Continues(multi));
        header := SplitNewlines(buffer);
        return;
      }
      // `Append(line)` in `: '` mode, `AppendLine` of the stripped line otherwise
      buffer := buffer + Piece(multi, l);
      var next := i + 1;
      BufferStep(multi, lines, start, i, next);
      i := next;
    }
    SkipTo(lines, start, i, Continues(multi));
    header := [];
  }

  // The header's properties

  /** Leading "#!" lines are skipped: the header is that of the lines after them. */
  lemma SkipsShebangs(pre: seq<string>, rest: seq<string>)
    requires forall j :: 0 <= j < |pre| ==> IsSkipped(pre[j])
    ensures Header(pre + rest) == Header(rest)
  {
    var s := pre + rest;
    var k := Skip(rest, 0, IsSkipped);
    var j := Skip(s, 0, IsSkipped);
    assert forall i :: 0 <= i < |pre| ==> s[i] == pre[i];
    SkipFrom(s, 0, |pre|, IsSkipped);
    SkipShift(pre, rest, 0, IsSkipped);
    assert j == |pre| + k;
    HeaderAtShift(pre, rest, k, j);
  }


  /** The header body after line `k` of `rest` is the one after line `j = |pre| + k` of `pre + rest`. */
  lemma BodyHeaderShift(pre: seq<string>, rest: seq<string>, k: nat, j: nat, multi: bool)
    requires k < |rest| && j == |pre| + k
    ensures BodyHeader(pre + rest, j + 1, multi) == BodyHeader(rest, k + 1, multi)
  {
    SkipShiftNext(pre, rest, k, j, Continues(multi));
    if Skip(rest, k + 1, Continues(multi)) < |rest| {
      ClosedShift(pre, rest, k, j, Skip(rest, k + 1, Continues(multi)), Skip(pre + rest, j + 1, Continues(multi)), multi);
    } else {
      UnclosedShift(pre, rest, k, j, multi);
    }
  }

  lemma ClosedShift(pre: seq<string>, rest: seq<string>, k: nat, j: nat, e: nat, ee: nat, multi: bool)
    requires k < e < |rest| && j == |pre| + k
    requires e == Skip(rest, k + 1, Continues(multi))
    requires ee == Skip(pre + rest, j + 1, Continues(multi)) && ee == |pre| + e
    ensures BodyHeader(pre + rest, j + 1, multi) == BodyHeader(rest, k + 1, multi)
  {
    var s := pre + rest;
    assert s[j + 1..ee] == rest[k + 1..e];
  }

  lemma UnclosedShift(pre: seq<string>, rest: seq<string>, k: nat, j: nat, multi: bool)
    requires k < |rest| && j == |pre| + k
    requires Skip(rest, k + 1, Continues(multi)) == |rest|
    requires Skip(pre + rest, j + 1, Continues(multi)) == |pre| + |rest|
    ensures BodyHeader(pre + rest, j + 1, multi) == BodyHeader(rest, k + 1, multi) == []
  {
  }

  lemma HeaderAtShift(pre: seq<string>, rest: seq<string>, k: nat, j: nat)
    requires k <= |rest| && j == |pre| + k
    ensures HeaderAt(pre + rest, j) == HeaderAt(rest, k)
  {
    if k < |rest| {
      if Opens(rest[k]) { OpeningShift(pre, rest, k, j); } else { NoOpeningShift(pre, rest, k, j); }
    }
  }

  lemma NoOpeningShift(pre: seq<string>, rest: seq<string>, k: nat, j: nat)
    requires k < |rest| && !Opens(rest[k]) && j == |pre| + k
    ensures HeaderAt(pre + rest, j) == HeaderAt(rest, k) == []
  {
    var s := pre + rest;
    assert s[j] == rest[k];
  }

  lemma OpeningShift(pre: seq<string>, rest: seq<string>, k: nat, j: nat)
    requires k < |rest| && Opens(rest[k]) && j == |pre| + k
    ensures HeaderAt(pre + rest, j) == HeaderAt(rest, k)
  {
    var s := pre + rest;
    assert s[j] == rest[k];
    BodyHeaderShift(pre, rest, k, j, IsMulti(rest[k]));
  }

  /** A blank line before any header line means there is no header. */
  lemma BlankLineNoHeader(b: string, rest: seq<string>)
    requires IsBlank(b)
    ensures Header([b] + rest) == []
  {
  }

  /** With no closing line the header is empty. */
  lemma UnterminatedHeader(open: string, body: seq<string>)
    requires Opens(open) && !IsSkipped(open)
    requires Open(IsMulti(open), body)
    ensures Header([open] + body) == []
  {
    var s := [open] + body;
    var multi := IsMulti(open);
    assert forall j :: 1 <= j < |s| ==> s[j] == body[j - 1];
    SkipTo(s, 1, |s|, Continues(multi));
  }

  /** The header of an opening line, body lines and a closing line. */
  lemma BlockHeader(open: string, body: seq<string>, close: string, rest: seq<string>)
    requires Opens(open) && !IsSkipped(open)
    requires Open(IsMulti(open), body)
    requires Ends(IsMulti(open), close)
    ensures Header([open] + body + [close] + rest) == SplitNewlines(Buffer(IsMulti(open), body))
  {
    var s := [open] + body + [close] + rest;
    var multi := IsMulti(open);
    BlockSlices(open, body, close, rest);
    SkipTo(s, 0, 0, IsSkipped);
    assert Header(s) == HeaderAt(s, 0);
    assert HeaderAt(s, 0) == BodyHeader(s, 1, multi);
    SkipTo(s, 1, |body| + 1, Continues(multi));
  }

  lemma {:induction false} ConcatBuffer(body: seq<string>)
    requires Open(true, body)
    requires forall j :: 0 <= j < |body| ==> '\n' !in body[j]
    ensures Buffer(true, body) == Concat(body)
    ensures '\n' !in Concat(body)
    decreases |body|
  {
    if body != [] {
      ConcatBuffer(body[..|body| - 1]);
    }
  }

  lemma SplitNewlinesPlain(s: string)
    requires '\n' !in s
    ensures SplitNewlines(s) == [s]
  {
    assert IndexOfChar(s, '\n') == -1;
  }

  /**
   * In `: '` mode the lines are concatenated with no separator: the header
   * is one line, which at most one section title can start.
   */
  lemma MultiLineHeader(open: string, body: seq<string>, close: string, rest: seq<string>)
    requires !IsBlank(open) && IsMulti(open)
    requires forall j :: 0 <= j < |body| ==> Trim(body[j]) != "'" && '\n' !in body[j]
    requires Trim(close) == "'"
    ensures Header([open] + body + [close] + rest) == [Concat(body)]
  {
    var t := Trim(open);
    StartsWithFirst(t, ": '");
    assert !StartsWith(t, "#!") by {
      if StartsWith(t, "#!") { StartsWithFirst(t, "#!"); }
    }
    assert !IsSkipped(open) && Opens(open);
    assert Open(true, body);
    BlockHeader(open, body, close, rest);
    ConcatBuffer(body);
    SplitNewlinesPlain(Concat(body));
  }

  function StripAll(body: seq<string>): (r: seq<string>)
    requires forall j :: 0 <= j < |body| ==> StartsWith(body[j], "#")
    ensures |r| == |body|
  {
    seq(|body|, j requires 0 <= j < |body| && StartsWith(body[j], "#") => Strip(body[j]))
  }

  lemma {:induction false} StripBuffer(body: seq<string>)
    requires forall j :: 0 <= j < |body| ==> StartsWith(body[j], "#")
    ensures Buffer(false, body) == LinesText(StripAll(body))
    decreases |body|
  {
    if body != [] {
      var init := body[..|body| - 1];
      StripBuffer(init);
      assert StripAll(body) == StripAll(init) + [Strip(body[|body| - 1])];
      LinesTextAppend(StripAll(init), Strip(body[|body| - 1]));
    }
  }

  /**
   * In "#" mode the opening comment line is not part of the header; the
   * following "#" lines are, without their "# " or "#", and the split leaves
   * one empty line at the end.
   */
  lemma CommentHeader(open: string, body: seq<string>, close: string, rest: seq<string>)
    requires Opens(open) && !IsMulti(open) && !IsSkipped(open)
    requires forall j :: 0 <= j < |body| ==> StartsWith(body[j], "#")
    requires forall j :: 0 <= j < |body| ==> IsPlainLine(Strip(body[j]))
    requires !StartsWith(close, "#")
    ensures Header([open] + body + [close] + rest) == StripAll(body) + [""]
  {
    assert Open(IsMulti(open), body);
    BlockHeader(open, body, close, rest);
    assert Buffer(IsMulti(open), body) == Buffer(false, body);
    StripBuffer(body);
    PlainStripped(body);
    SplitNewlinesLinesText(StripAll(body));
  }

  lemma PlainStripped(body: seq<string>)
    requires forall j :: 0 <= j < |body| ==> StartsWith(body[j], "#")
    requires forall j :: 0 <= j < |body| ==> IsPlainLine(Strip(body[j]))
    ensures forall j :: 0 <= j < |StripAll(body)| ==> IsPlainLine(StripAll(body)[j])
  {
  }

  // ---------------------------------------------------------------------------
  // ParseLine and ParseSections

  /** `startsWithWhiteSpace`. */
  predicate StartsWithWhiteSpace(s: string)
  {
    IsBlank(s) || IsWhite(s[0])
  }

  function ParseLine(line: string): (r: ParsedLine)
    ensures r.title.Some? <==> MatchTitle(line).Some?
    ensures r.title.Some? ==> r.title.value == MatchTitle(line).value.0 && r.content.None?
    ensures r.title.None? ==> r.content == Some(line)
  {
    match MatchTitle(line)
    case Some((title, _)) =>
      if StartsWithWhiteSpace(line) then ParsedLine(Some(line), None) else ParsedLine(None, Some(title))
    case None => ParsedLine(Some(line), None)
  }

  /**
   * The arguments format: the explicit `AhArgsFormat` text, or else "$Name"
   * of each parameter used as an argument; it is validated whenever it is
   * not empty.
   */
  function ArgsFormat(format: string, parameters: seq<ParamInfo>, validate: string -> Option<string>): (r: (string, seq<string>))
    ensures format != "" ==> r.0 == format && (r.1 == [] <==> validate(format).None?)
    ensures format == "" ==> r.0 == FormatOf(ArgumentParams(parameters))
    ensures format == "" ==> (r.1 == [] <==> ArgumentParams(parameters) == [] || validate(r.0).None?)
    ensures forall w :: w in r.1 ==> StartsWith(w, FormatWarning)
  {
    var arguments := ArgumentParams(parameters);
    if format != "" then (format, FormatWarnings(format, validate))
    else if |arguments| > 0 then (FormatOf(arguments), FormatWarnings(FormatOf(arguments), validate))
    else ("", [])
  }

  /**
   * `ParseSections`. The SDK's `ScriptParameterInfo.Parse` and
   * `ProcessedString.Parse` are the inputs `parse` and `validate`.
   */
  function ParseSections(secs: seq<(string, string)>, parse: string -> Result<ParamInfo>, validate: string -> Option<string>): (r: ScriptInfo)
    ensures Select(secs, "AhDescription") == [] ==> r.summary == Trim(Merged(secs, ""))
    ensures !IsBlank(Trim(Merged(secs, "AhDescription"))) ==> r.summary == Trim(Merged(secs, "AhDescription"))
    ensures |r.parameters| <= |GetParameters(secs, ParameterTitles)| <= |r.parameters| + |r.warnings|
    ensures r.execMode == Trim(Merged(secs, "AhExecMode"))
    ensures r.configValues == ConfigurationValues(secs)
    ensures Trim(Merged(secs, "AhArgsFormat")) != "" ==> r.argsFormat == Trim(Merged(secs, "AhArgsFormat"))
    ensures Trim(Merged(secs, "AhArgsFormat")) == "" ==> r.argsFormat == FormatOf(ArgumentParams(r.parameters))
    ensures forall w :: w in r.warnings ==> StartsWith(w, ParameterWarning) || StartsWith(w, FormatWarning)
  {
    var (parameters, paramWarnings) := ParseParameters(GetParameters(secs, ParameterTitles), parse);
    var (argsFormat, formatWarnings) := ArgsFormat(Trim(Merged(secs, "AhArgsFormat")), parameters, validate);
    ScriptInfo(parameters, Summary(secs), paramWarnings + formatWarnings, argsFormat, ConfigurationValues(secs), Trim(Merged(secs, "AhExecMode")))
  }

  /** A header whose every parameter line parses and whose format validates has no warning. */
  lemma NoWarnings(secs: seq<(string, string)>, parse: string -> Result<ParamInfo>, validate: string -> Option<string>)
    requires var texts := GetParameters(secs, ParameterTitles);
      forall i :: 0 <= i < |texts| ==> parse(Trim(texts[i])).Ok?
    requires forall t :: validate(t).None?
    ensures ParseSections(secs, parse, validate).warnings == []
  {
    ParseParametersAllValid(GetParameters(secs, ParameterTitles), parse);
  }

  function HeaderSections(lines: seq<string>): seq<(string, string)>
  {
    Sections(Header(lines), ParseLine)
  }

  /** The whole parse: header, sections, script information. */
  method Parse(lines: seq<string>, parse: string -> Result<ParamInfo>, validate: string -> Option<string>) returns (info: ScriptInfo)
    ensures info == ParseSections(HeaderSections(lines), parse, validate)
  {
    var header := ReadHeader(lines);
    var list := ParseInternal(header, ParseLine);
    info := ParseSections(list.sections, parse, validate);
  }
}
